/** What the votes and the wins of a run stand for: every vote answers an election that its candidate had
    started, and was cast by a master entitled to it; every win put the winner in the place of its master. */
module Ballots {
  import opened Wrappers
  import opened ClusterNode
  import opened ClusterFacts
  import opened ClusterBus
  import Election

  // ---- one step ----

  /** The event is the arrival of a request that the voter may grant, and v is that vote. */
  ghost predicate CastAt(w: World, ev: Event, v: Vote) {
    && ev.Deliver? && ev.i < |w.net| && w.net[ev.i].Some? && v.voter in w.nodes
    && var p := w.net[ev.i].value;
       && p.dst == v.voter && p.msg.body.AuthRequest?
       && p.msg.hdr.sender == v.candidate && p.msg.hdr.currentEpoch == v.epoch
       && MayVote(w.nodes[v.voter], p.msg.hdr, ev.tooSoon)
  }

  /** The event starts an election of n, at the next epoch after the one it knows; `force` says that it is
      carried out by hand. */
  ghost predicate StartedAt(w: World, ev: Event, n: Id, epoch: nat, force: bool) {
    && ev.Failover? && ev.n == n && n in w.nodes
    && MayProceed(w.nodes[n], ev.env) && !w.nodes[n].auth.sent
    && epoch == w.nodes[n].currentEpoch + 1 && force == ev.env.mfEnd
  }

  /** The event is the failover attempt that won: a majority of what the winner counts as the cluster had
      voted, and it has taken the place of its master, which served a slot. */
  ghost predicate WonAt(w: World, ev: Event, w': World, x: Win) {
    && ev.Failover? && ev.n == x.node && x.node in w.nodes && x.node in w'.nodes
    && var c := w.nodes[x.node];
       && MayProceed(c, ev.env) && c.auth.sent && x.epoch == c.auth.epoch && x.size == c.size < 2 * c.auth.count
       && TookOver(c, w'.nodes[x.node])
  }

  lemma NodeAt(w: World, n: Id)
    requires EpochBound(w) && n in w.nodes
    ensures Linked(w.nodes[n]) && w.nodes[n].me == n && n in w.counted && n in w.carried
  {
  }

  lemma PacketAt(w: World, i: nat)
    requires EpochBound(w) && i < |w.net| && w.net[i].Some?
    ensures PacketOk(w.nodes, w.net[i].value)
  {
  }

  /** A step adds a vote exactly when it delivers a request that may be granted. */
  lemma NextVotes(w: World, ev: Event, v: Vote)
    requires EpochBound(w) && Enabled(w, ev)
    ensures v in Next(w, ev).votes <==> v in w.votes || CastAt(w, ev, v)
  {
    hide EpochBound, MayVote, Links, OnPing, OnUpdate, OnRequest, OnAck, SeeHeader, HandleFailover, Apply,
      BuildHeader, SentMessage, CountsVote;
    match ev
    case Deliver(i, tooSoon, linked) =>
      PacketAt(w, i);
      var p := w.net[i].value;
      NodeAt(w, p.dst);
      VoteAt(w.nodes[p.dst], p.msg.hdr, tooSoon);
    case Failover(n, env, reached) => NodeAt(w, n);
    case _ =>
  }

  /** A granted vote is at the epoch of the request. */
  lemma VoteAt(c: Cluster, h: Header, tooSoon: bool)
    requires Linked(c) && h.sender != c.me
    ensures var (d, granted) := OnRequest(c, h, tooSoon);
      (granted <==> MayVote(c, h, tooSoon)) && (granted ==> d.currentEpoch == h.currentEpoch)
  {
    hide OnRequest;
    VoteExactly(c, h, tooSoon);
  }

  /** A step adds a request for votes only when it starts an election of its sender. */
  lemma NextRequests(w: World, ev: Event, q: nat)
    requires EpochBound(w) && Enabled(w, ev) && q < |Next(w, ev).net|
    ensures Requests(Next(w, ev).net[q]) ==>
      || (q < |w.net| && Next(w, ev).net[q] == w.net[q])
      || var h := Next(w, ev).net[q].value.msg.hdr; StartedAt(w, ev, h.sender, h.currentEpoch, h.forceAck)
  {
    hide EpochBound, MayProceed, Links, OnPing, OnUpdate, OnRequest, OnAck, SeeHeader, HandleFailover, Apply,
      BuildHeader, CountsVote;
    match ev
    case Deliver(i, tooSoon, linked) =>
      PacketAt(w, i);
      NodeAt(w, w.net[i].value.dst);
    case Failover(n, env, reached) =>
      NodeAt(w, n);
      StartedHeader(w.nodes[n], env);
    case Send(src, dst, kind) => NodeAt(w, src);
    case _ =>
  }

  predicate Requests(o: Option<Packet>) { o.Some? && o.value.msg.body.AuthRequest? }

  lemma StartedHeader(c: Cluster, e: Env)
    requires Linked(c)
    ensures var (d, o) := HandleFailover(c, e);
      o == Started ==>
        && MayProceed(c, e) && !c.auth.sent && Linked(d)
        && var h := BuildHeader(d, e.mfEnd);
           h.sender == c.me && h.currentEpoch == c.currentEpoch + 1 && h.forceAck == e.mfEnd
  {
    hide HandleFailover, MayProceed;
    FailoverExactly(c, e);
  }

  /** A step adds a win only when it is the failover attempt that won. */
  lemma NextWins(w: World, ev: Event, x: Win)
    requires EpochBound(w) && Enabled(w, ev)
    ensures x in Next(w, ev).wins ==> x in w.wins || WonAt(w, ev, Next(w, ev), x)
  {
    hide EpochBound, MayProceed, Links, OnPing, OnUpdate, OnRequest, OnAck, SeeHeader, HandleFailover, Apply,
      BuildHeader, SentMessage, CountsVote, TookOver;
    match ev
    case Deliver(i, tooSoon, linked) =>
      PacketAt(w, i);
      NodeAt(w, w.net[i].value.dst);
    case Failover(n, env, reached) =>
      NodeAt(w, n);
      OutcomeExactly(w.nodes[n], env);
    case _ =>
  }

  // ---- runs ----

  /** The votes recorded in a run are exactly those cast by an event of it: each by a serving master, for a
      known replica whose master that voter held to have failed, or by force. */
  lemma {:induction false} VotesCast(ws: seq<World>, evs: seq<Event>, k: nat, v: Vote)
    requires Election.Run(ws, evs) && k < |ws|
    ensures v in ws[k].votes <==> exists i :: 0 <= i < k && CastAt(ws[i], evs[i], v)
  {
    hide CastAt, Enabled, Next, EpochBound, Honest;
    if k > 0 {
      Election.RunHonest(ws, evs, k - 1);
      VotesCast(ws, evs, k - 1, v);
      NextVotes(ws[k - 1], evs[k - 1], v);
    }
  }

  /** Every request for votes in flight comes from an election that its sender started. */
  lemma {:induction false} RequestsStarted(ws: seq<World>, evs: seq<Event>, k: nat, q: nat)
    requires Election.Run(ws, evs) && k < |ws| && q < |ws[k].net| && Requests(ws[k].net[q])
    ensures var h := ws[k].net[q].value.msg.hdr;
      exists i :: 0 <= i < k && StartedAt(ws[i], evs[i], h.sender, h.currentEpoch, h.forceAck)
  {
    hide StartedAt, Enabled, Next, EpochBound, Honest;
    if k > 0 {
      Election.RunHonest(ws, evs, k - 1);
      NextRequests(ws[k - 1], evs[k - 1], q);
      if q < |ws[k - 1].net| && ws[k].net[q] == ws[k - 1].net[q] {
        RequestsStarted(ws, evs, k - 1, q);
      }
    }
  }

  /** The history of a vote: its candidate, a replica of a serving master that it held to have failed, or was
      told by hand to replace, started an election at that epoch, and then the voter, a serving master, held
      that master to have failed as well, or was forced. */
  lemma EveryVote(ws: seq<World>, evs: seq<Event>, k: nat, v: Vote)
    requires Election.Run(ws, evs) && k < |ws| && v in ws[k].votes
    ensures exists i, j, force ::
      && 0 <= i < j < k && StartedAt(ws[i], evs[i], v.candidate, v.epoch, force)
      && CastAt(ws[j], evs[j], v) && ws[j].net[evs[j].i].value.msg.hdr.forceAck == force
  {
    hide StartedAt, MayVote, Enabled, Next, EpochBound, Honest;
    VotesCast(ws, evs, k, v);
    var j :| 0 <= j < k && CastAt(ws[j], evs[j], v);
    RequestsStarted(ws, evs, j, evs[j].i);
  }

  /** Every recorded win left the winner a master, under at least the epoch of the election, serving every slot
      of its old master, of which there was one, and its old master none. */
  lemma {:induction false} WinnersServe(ws: seq<World>, evs: seq<Event>, k: nat, x: Win)
    requires Election.Run(ws, evs) && k < |ws| && x in ws[k].wins
    ensures exists i :: 0 <= i < k && WonAt(ws[i], evs[i], ws[i + 1], x)
  {
    hide WonAt, Enabled, Next, EpochBound, Honest;
    if k > 0 {
      Election.RunHonest(ws, evs, k - 1);
      NextWins(ws[k - 1], evs[k - 1], x);
      if x in ws[k - 1].wins {
        WinnersServe(ws, evs, k - 1, x);
      }
    }
  }
}
