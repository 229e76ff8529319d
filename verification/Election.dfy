/** Failover elections: every step of the bus keeps the epoch bound and the bookkeeping of
    votes, so that two elections of the same epoch cannot both be won. */
module Election {
  import opened Wrappers
  import opened ClusterNode
  import opened ClusterBus

  // ---- the epoch bound ----

  lemma SetNodeBound(w: World, n: Id, d: Cluster)
    requires EpochBound(w) && n in w.nodes && d.me == n && NodeOk(d)
    ensures EpochBound(w.(nodes := w.nodes[n := d]))
  {
    hide NodeOk, MessageOk;
    var w' := w.(nodes := w.nodes[n := d]);
    assert w'.nodes.Keys == w.nodes.Keys;
    forall i | 0 <= i < |w.net| && w.net[i].Some?
      ensures PacketOk(w'.nodes, w.net[i].value)
    {
      assert PacketOk(w.nodes, w.net[i].value);
    }
  }

  lemma TakeBound(w: World, i: nat)
    requires EpochBound(w) && i < |w.net|
    ensures EpochBound(Take(w, i))
  {
    hide NodeOk, PacketOk;
  }

  lemma PostBound(w: World, ps: seq<Packet>)
    requires EpochBound(w) && forall p :: p in ps ==> PacketOk(w.nodes, p)
    ensures EpochBound(Post(w, ps))
  {
    hide NodeOk, PacketOk;
    var w' := Post(w, ps);
    forall i | 0 <= i < |w'.net| && w'.net[i].Some?
      ensures PacketOk(w'.nodes, w'.net[i].value)
    {
      if i >= |w.net| {
        assert w'.net[i].value == ps[i - |w.net|];
      } else {
        assert w'.net[i] == w.net[i];
      }
    }
  }

  lemma SentMessageOk(c: Cluster, kind: Kind)
    requires NodeOk(c) && (kind.SendUpdate? ==> kind.about in c.nodes)
    ensures MessageOk(SentMessage(c, kind)) && SentMessage(c, kind).hdr.sender == c.me
  {
    HeaderIsOk(c, false);
  }

  // ---- votes ----

  /** The part of a node that elections depend on. */
  predicate SameBallot(c: Cluster, d: Cluster) {
    && d.auth.epoch == c.auth.epoch && d.auth.count == c.auth.count && d.auth.sent == c.auth.sent
    && d.lastVoteEpoch == c.lastVoteEpoch
  }

  lemma QuietVotes(w: World, n: Id, d: Cluster)
    requires n in w.nodes && SameBallot(w.nodes[n], d)
    ensures var nodes := w.nodes[n := d];
      && (VotesOk(w.nodes, w.votes) ==> VotesOk(nodes, w.votes))
      && (RequestsOk(w.nodes, w.net) ==> RequestsOk(nodes, w.net))
  {
    hide OneVoteEach;
  }

  /** Node changes that leave the ballot alone keep all bookkeeping. */
  lemma QuietHonest(w: World, n: Id, d: Cluster)
    requires EpochBound(w) && Honest(w) && n in w.nodes && d.me == n && NodeOk(d) && SameBallot(w.nodes[n], d)
    ensures var w' := w.(nodes := w.nodes[n := d]); EpochBound(w') && Honest(w')
  {
    hide NodesOk, NetOk, VotesOk, RequestsOk, AcksOk, InFlight, WinOk;
    SetNodeBound(w, n, d);
    QuietVotes(w, n, d);
  }

  lemma TakeHonest(w: World, i: nat)
    requires EpochBound(w) && Honest(w) && i < |w.net|
    ensures EpochBound(Take(w, i)) && Honest(Take(w, i))
  {
    hide NodesOk, NetOk, VotesOk, WinOk;
    TakeBound(w, i);
    assert forall v :: InFlight(Take(w, i).net, v) ==> InFlight(w.net, v);
  }

  lemma PostQuiet(w: World, ps: seq<Packet>)
    requires EpochBound(w) && Honest(w) && forall p :: p in ps ==> PacketOk(w.nodes, p) && !p.msg.body.AuthAck?
    requires forall p :: p in ps ==> RequestOk(w.nodes, p)
    ensures EpochBound(Post(w, ps)) && Honest(Post(w, ps))
  {
    hide NodesOk, NetOk, VotesOk, WinOk, RequestOk, PacketOk;
    PostBound(w, ps);
    var net := Post(w, ps).net;
    assert forall i :: 0 <= i < |w.net| ==> net[i] == w.net[i];
    assert forall i :: |w.net| <= i < |net| ==> net[i] == Some(ps[i - |w.net|]);
    assert forall i, v :: |w.net| <= i < |net| ==> !IsAck(net[i], v);
    assert forall v :: InFlight(net, v) ==> InFlight(w.net, v);
  }

  // ---- granting a vote ----

  lemma NewVote(nodes: map<Id, Cluster>, votes: set<Vote>, n: Id, d: Cluster, candidate: Id)
    requires VotesOk(nodes, votes) && n in nodes && candidate in nodes && candidate != n
    requires d.auth == nodes[n].auth && nodes[n].lastVoteEpoch < d.lastVoteEpoch
    requires d.lastVoteEpoch <= nodes[candidate].auth.epoch
    ensures var v := Vote(n, d.lastVoteEpoch, candidate);
      v !in votes && VotesOk(nodes[n := d], votes + {v})
  {
  }

  lemma NewAck(net: seq<Option<Packet>>, votes: set<Vote>, v: Vote, p: Packet)
    requires AcksOk(net, votes) && v !in votes && IsAck(Some(p), v)
    ensures AcksOk(net + [Some(p)], votes + {v})
    ensures forall u :: u in votes ==> (InFlight(net + [Some(p)], u) <==> InFlight(net, u))
  {
    var net' := net + [Some(p)];
    assert forall i :: 0 <= i < |net| ==> net'[i] == net[i];
    assert net'[|net|] == Some(p);
    assert forall u :: IsAck(Some(p), u) ==> u == v;
  }

  lemma AuthUnchanged(nodes: map<Id, Cluster>, net: seq<Option<Packet>>, n: Id, d: Cluster)
    requires RequestsOk(nodes, net) && n in nodes && d.auth == nodes[n].auth
    ensures RequestsOk(nodes[n := d], net)
  {
  }

  /** A vote that is recorded and not announced. */
  lemma GrantSilent(w: World, n: Id, d: Cluster, candidate: Id)
    requires EpochBound(w) && Honest(w) && n in w.nodes && candidate in w.nodes && candidate != n
    requires d.me == n && NodeOk(d) && d.auth == w.nodes[n].auth
    requires w.nodes[n].lastVoteEpoch < d.lastVoteEpoch <= w.nodes[candidate].auth.epoch
    ensures var v := Vote(n, d.lastVoteEpoch, candidate);
      var w' := w.(nodes := w.nodes[n := d], votes := w.votes + {v});
      EpochBound(w') && Honest(w')
  {
    hide NodesOk, NetOk, VotesOk, RequestsOk, AcksOk, InFlight, TallyOk, WinOk, NodeOk;
    var v := Vote(n, d.lastVoteEpoch, candidate);
    SetNodeBound(w, n, d);
    var w' := w.(nodes := w.nodes[n := d], votes := w.votes + {v});
    VotesFree(w.(nodes := w.nodes[n := d]), w'.votes);
    NewVote(w.nodes, w.votes, n, d, candidate);
    AuthUnchanged(w.nodes, w.net, n, d);
    MoreVotes(w.net, w.votes, v);
    AllTalliesKept(w, w');
  }

  /** Its announcement, the first of that vote. */
  lemma GrantAnswered(w: World, w': World, p: Packet, v: Vote, votes: set<Vote>)
    requires EpochBound(w) && Honest(w) && PacketOk(w.nodes, p) && IsAck(Some(p), v)
    requires v !in votes && w.votes == votes + {v} && AcksOk(w.net, votes)
    requires w' == Post(w, [p])
    requires forall m :: m in w.nodes ==> TallyOk(m, w.nodes[m].auth, w.net, votes, w.counted[m], w.carried[m])
    ensures EpochBound(w') && Honest(w')
  {
    hide NodesOk, NetOk, VotesOk, RequestsOk, AcksOk, InFlight, PacketOk, IsAck, TallyOk, WinOk;
    PostBound(w, [p]);
    NewAck(w.net, votes, v, p);
    assert w'.net == w.net + [Some(p)];
    AckIsNoRequest(w.nodes, w.net, p, v);
    forall m | m in w'.nodes
      ensures TallyOk(m, w'.nodes[m].auth, w'.net, w'.votes, w'.counted[m], w'.carried[m])
    {
      TallyKept(m, w.nodes[m].auth, w.net, w'.net, votes, w'.votes, w.counted[m], w.carried[m]);
    }
  }

  lemma GrantHonest(w: World, n: Id, d: Cluster, candidate: Id, acks: seq<Packet>)
    requires EpochBound(w) && Honest(w) && n in w.nodes && candidate in w.nodes && candidate != n
    requires d.me == n && NodeOk(d) && d.auth == w.nodes[n].auth
    requires w.nodes[n].lastVoteEpoch < d.lastVoteEpoch <= w.nodes[candidate].auth.epoch
    requires
      || acks == []
      || (|acks| == 1 && PacketOk(w.nodes, acks[0]) && IsAck(Some(acks[0]), Vote(n, d.lastVoteEpoch, candidate)))
    ensures var v := Vote(n, d.lastVoteEpoch, candidate);
      var w' := Post(w.(nodes := w.nodes[n := d], votes := w.votes + {v}), acks);
      EpochBound(w') && Honest(w')
  {
    hide EpochBound, VotesOk, RequestsOk, AcksOk, InFlight, PacketOk, IsAck, TallyOk, WinOk, NodeOk;
    var v := Vote(n, d.lastVoteEpoch, candidate);
    var w1 := w.(nodes := w.nodes[n := d], votes := w.votes + {v});
    GrantSilent(w, n, d, candidate);
    if acks == [] {
      assert w1.net + [] == w1.net;
      assert Post(w1, acks) == w1;
    } else {
      SamePackets(w.nodes, n, d, acks[0]);
      NewVote(w.nodes, w.votes, n, d, candidate);
      assert acks == [acks[0]];
      GrantAnswered(w1, Post(w1, acks), acks[0], v, w.votes);
    }
  }

  /** More votes, with the old ones where they were, disturb no tally and no win. */
  lemma AllTalliesKept(w: World, w': World)
    requires w.nodes.Keys == w'.nodes.Keys && w.counted == w'.counted && w.carried == w'.carried && w.wins == w'.wins
    requires w.nodes.Keys <= w.counted.Keys && w.nodes.Keys <= w.carried.Keys
    requires forall m :: m in w.nodes ==> w'.nodes[m].auth == w.nodes[m].auth
    requires forall m :: m in w.nodes ==> TallyOk(m, w.nodes[m].auth, w.net, w.votes, w.counted[m], w.carried[m])
    requires forall x :: x in w.wins ==> WinOk(x, w.votes)
    requires w.votes <= w'.votes && forall u :: u in w.votes ==> (InFlight(w'.net, u) <==> InFlight(w.net, u))
    ensures forall m :: m in w'.nodes ==> TallyOk(m, w'.nodes[m].auth, w'.net, w'.votes, w'.counted[m], w'.carried[m])
    ensures forall x :: x in w'.wins ==> WinOk(x, w'.votes)
  {
    hide TallyOk, WinOk, InFlight;
    forall m | m in w'.nodes
      ensures TallyOk(m, w'.nodes[m].auth, w'.net, w'.votes, w'.counted[m], w'.carried[m])
    {
      TallyKept(m, w.nodes[m].auth, w.net, w'.net, w.votes, w'.votes, w.counted[m], w.carried[m]);
    }
    forall x | x in w'.wins
      ensures WinOk(x, w'.votes)
    {
      WinKept(x, w.votes, w'.votes);
    }
  }

  lemma TallyKept(n: Id, a: Auth, net: seq<Option<Packet>>, net': seq<Option<Packet>>,
                  votes: set<Vote>, votes': set<Vote>, counted: set<Id>, carried: nat)
    requires TallyOk(n, a, net, votes, counted, carried) && votes <= votes'
    requires forall u :: u in votes ==> (InFlight(net', u) <==> InFlight(net, u))
    ensures TallyOk(n, a, net', votes', counted, carried)
  {
    hide InFlight;
  }

  lemma WinKept(x: Win, votes: set<Vote>, votes': set<Vote>)
    requires WinOk(x, votes) && votes <= votes'
    ensures WinOk(x, votes')
  {
  }

  lemma VotesFree(w: World, votes: set<Vote>)
    requires EpochBound(w)
    ensures EpochBound(w.(votes := votes))
  {
  }

  lemma MoreVotes(net: seq<Option<Packet>>, votes: set<Vote>, v: Vote)
    requires AcksOk(net, votes)
    ensures AcksOk(net, votes + {v})
  {
  }

  lemma SamePackets(nodes: map<Id, Cluster>, n: Id, d: Cluster, p: Packet)
    requires n in nodes && PacketOk(nodes, p)
    ensures PacketOk(nodes[n := d], p)
  {
  }

  lemma AckIsNoRequest(nodes: map<Id, Cluster>, net: seq<Option<Packet>>, p: Packet, v: Vote)
    requires RequestsOk(nodes, net) && IsAck(Some(p), v)
    ensures RequestsOk(nodes, net + [Some(p)])
  {
    var net' := net + [Some(p)];
    assert forall i :: 0 <= i < |net| ==> net'[i] == net[i];
  }

  // ---- counting a vote ----

  /** The acknowledgement just taken off the bus is not in flight any more. */
  lemma TakenAck(net: seq<Option<Packet>>, votes: set<Vote>, i: nat, v: Vote)
    requires AcksOk(net, votes) && i < |net| && IsAck(net[i], v)
    ensures v in votes && !InFlight(net[i := None], v)
  {
  }

  /** An acknowledgement at or above the election's epoch is one of that very election. */
  lemma AckEpoch(nodes: map<Id, Cluster>, votes: set<Vote>, v: Vote)
    requires VotesOk(nodes, votes) && v in votes
    ensures v.candidate in nodes && v.epoch <= nodes[v.candidate].auth.epoch
  {
  }

  lemma CountHonest(w: World, n: Id, d: Cluster, v: Vote)
    requires EpochBound(w) && Honest(w) && n in w.nodes && d.me == n && NodeOk(d)
    requires d.lastVoteEpoch == w.nodes[n].lastVoteEpoch
    requires d.auth == w.nodes[n].auth.(count := w.nodes[n].auth.count + 1)
    requires v in w.votes && v.candidate == n && !InFlight(w.net, v) && v.epoch >= w.nodes[n].auth.epoch
    requires w.nodes[n].auth.sent ==> v.voter !in w.counted[n]
    ensures var w' := w.(nodes := w.nodes[n := d],
        counted := if w.nodes[n].auth.sent then w.counted[n := w.counted[n] + {v.voter}] else w.counted);
      EpochBound(w') && Honest(w')
  {
    hide NodesOk, NetOk, VotesOk, RequestsOk, AcksOk, InFlight, WinOk;
    SetNodeBound(w, n, d);
    AckEpoch(w.nodes, w.votes, v);
    assert v == Vote(v.voter, v.epoch, n);
    CountVotes(w.nodes, w.votes, w.net, n, d);
  }

  lemma CountVotes(nodes: map<Id, Cluster>, votes: set<Vote>, net: seq<Option<Packet>>, n: Id, d: Cluster)
    requires n in nodes && d.auth.epoch == nodes[n].auth.epoch && d.lastVoteEpoch == nodes[n].lastVoteEpoch
    ensures VotesOk(nodes, votes) ==> VotesOk(nodes[n := d], votes)
    ensures RequestsOk(nodes, net) ==> RequestsOk(nodes[n := d], net)
  {
    hide OneVoteEach;
  }

  // ---- starting, resetting and winning ----

  lemma RaiseAuth(nodes: map<Id, Cluster>, votes: set<Vote>, net: seq<Option<Packet>>, n: Id, d: Cluster)
    requires n in nodes && nodes[n].auth.epoch <= d.auth.epoch && d.lastVoteEpoch == nodes[n].lastVoteEpoch
    ensures VotesOk(nodes, votes) ==> VotesOk(nodes[n := d], votes)
    ensures RequestsOk(nodes, net) ==> RequestsOk(nodes[n := d], net)
  {
    hide OneVoteEach;
  }

  lemma StartHonest(w: World, n: Id, d: Cluster)
    requires EpochBound(w) && Honest(w) && n in w.nodes && d.me == n && NodeOk(d)
    requires d.lastVoteEpoch == w.nodes[n].lastVoteEpoch && w.nodes[n].auth.epoch <= d.auth.epoch
    requires d.auth.sent && d.auth.count == w.nodes[n].auth.count
    ensures
      var carried := w.carried[n := w.nodes[n].auth.count];
      var w' := w.(nodes := w.nodes[n := d], counted := w.counted[n := {}], carried := carried);
      EpochBound(w') && Honest(w')
  {
    hide NodesOk, NetOk, VotesOk, RequestsOk, AcksOk, InFlight, WinOk;
    SetNodeBound(w, n, d);
    RaiseAuth(w.nodes, w.votes, w.net, n, d);
  }

  lemma ResetHonest(w: World, n: Id, d: Cluster)
    requires EpochBound(w) && Honest(w) && n in w.nodes && d.me == n && NodeOk(d)
    requires d.lastVoteEpoch == w.nodes[n].lastVoteEpoch && w.nodes[n].auth.epoch == d.auth.epoch && !d.auth.sent
    ensures var w' := w.(nodes := w.nodes[n := d]); EpochBound(w') && Honest(w')
  {
    hide NodesOk, NetOk, VotesOk, RequestsOk, AcksOk, InFlight, WinOk;
    SetNodeBound(w, n, d);
    RaiseAuth(w.nodes, w.votes, w.net, n, d);
  }

  lemma WinIsOk(w: World, n: Id, size: nat)
    requires EpochBound(w) && Honest(w) && n in w.nodes
    requires w.nodes[n].auth.sent && w.nodes[n].auth.count >= size / 2 + 1
    ensures WinOk(Win(w.nodes[n].auth.epoch, n, w.counted[n], w.carried[n], size), w.votes)
  {
    hide NodesOk, NetOk, VotesOk, RequestsOk, AcksOk;
    assert TallyOk(n, w.nodes[n].auth, w.net, w.votes, w.counted[n], w.carried[n]);
  }

  // ---- every step ----

  /** Facts about packet i, before it is taken off the bus. */
  lemma PacketFacts(w: World, i: nat)
    requires EpochBound(w) && Honest(w) && i < |w.net| && w.net[i].Some?
    ensures var p := w.net[i].value; PacketOk(w.nodes, p) && RequestOk(w.nodes, p)
  {
    hide NodeOk, MessageOk, VotesOk, AcksOk, WinOk, TallyOk;
  }

  lemma AckFacts(w: World, i: nat, v: Vote)
    requires EpochBound(w) && Honest(w) && i < |w.net| && IsAck(w.net[i], v)
    ensures v in w.votes && !InFlight(Take(w, i).net, v) && v.candidate in w.nodes
    ensures w.nodes[v.candidate].auth.sent && v.epoch >= w.nodes[v.candidate].auth.epoch ==>
      v.voter !in w.counted[v.candidate]
  {
    hide NodesOk, NetOk, RequestsOk, WinOk;
    TakenAck(w.net, w.votes, i, v);
    AckEpoch(w.nodes, w.votes, v);
    assert v == Vote(v.voter, v.epoch, v.candidate);
    assert InFlight(w.net, v);
    var c := v.candidate;
    assert TallyOk(c, w.nodes[c].auth, w.net, w.votes, w.counted[c], w.carried[c]);
  }

  lemma NodeFacts(w: World, n: Id)
    requires EpochBound(w) && n in w.nodes
    ensures NodeOk(w.nodes[n]) && w.nodes[n].me == n && n in w.counted && n in w.carried
  {
    hide NodeOk;
  }

  lemma RequestHonest(w: World, p: Packet, tooSoon: bool, linked: bool)
    requires EpochBound(w) && Honest(w) && PacketOk(w.nodes, p) && RequestOk(w.nodes, p) && p.msg.body.AuthRequest?
    ensures var w' := Receive(w, p, tooSoon, linked); EpochBound(w') && Honest(w')
  {
    hide EpochBound, Honest, EpochsBounded, OnRequest, Post, BuildHeader, Links;
    NodeFacts(w, p.dst);
    var c, h := w.nodes[p.dst], p.msg.hdr;
    OnRequestOk(c, h, tooSoon);
    var (d, granted) := OnRequest(c, h, tooSoon);
    if granted {
      var ack := Packet(h.sender, Message(BuildHeader(d, false), AuthAck));
      HeaderIsOk(d, false);
      GrantHonest(w, p.dst, d, h.sender, if linked then [ack] else []);
      PostNothing(w.(nodes := w.nodes[p.dst := d], votes := w.votes + {Vote(p.dst, d.currentEpoch, h.sender)}));
    } else {
      QuietHonest(w, p.dst, d);
    }
  }

  lemma PostNothing(w: World)
    ensures Post(w, []) == w
  {
    assert Post(w, []).net == w.net;
  }

  lemma AckHonest(w: World, i: nat, tooSoon: bool, linked: bool)
    requires EpochBound(w) && Honest(w) && i < |w.net| && w.net[i].Some? && w.net[i].value.msg.body.AuthAck?
    ensures PacketOk(w.nodes, w.net[i].value) && NodeOk(w.nodes[w.net[i].value.dst])
    ensures w.nodes[w.net[i].value.dst].me == w.net[i].value.dst
    ensures var w' := Receive(Take(w, i), w.net[i].value, tooSoon, linked); EpochBound(w') && Honest(w')
  {
    hide EpochBound, Honest, EpochsBounded, OnAck, CountsVote, SeeHeader, Links, InFlight;
    var p := w.net[i].value;
    PacketFacts(w, i);
    var c, h := w.nodes[p.dst], p.msg.hdr;
    NodeFacts(w, p.dst);
    OnAckOk(c, h);
    TakeHonest(w, i);
    if CountsVote(SeeHeader(c, h), h) {
      var v := Vote(h.sender, h.currentEpoch, p.dst);
      AckFacts(w, i, v);
      CountsNow(c, h);
      CountHonest(Take(w, i), p.dst, OnAck(c, h), v);
    } else {
      QuietHonest(Take(w, i), p.dst, OnAck(c, h));
    }
  }

  lemma CountsNow(c: Cluster, h: Header)
    requires CountsVote(SeeHeader(c, h), h)
    ensures h.currentEpoch >= c.auth.epoch
  {
  }

  lemma DeliverHonest(w: World, i: nat, tooSoon: bool, linked: bool)
    requires EpochBound(w) && Honest(w) && i < |w.net| && w.net[i].Some?
    ensures PacketOk(w.nodes, w.net[i].value) && NodeOk(w.nodes[w.net[i].value.dst])
    ensures w.nodes[w.net[i].value.dst].me == w.net[i].value.dst
    ensures var w' := Receive(Take(w, i), w.net[i].value, tooSoon, linked); EpochBound(w') && Honest(w')
  {
    hide EpochBound, Honest, EpochsBounded, OnPing, OnUpdate, OnRequest, OnAck, CountsVote, SeeHeader, Post,
      BuildHeader, Links;
    var p := w.net[i].value;
    PacketFacts(w, i);
    var c, h := w.nodes[p.dst], p.msg.hdr;
    NodeFacts(w, p.dst);
    TakeHonest(w, i);
    match p.msg.body
    case Ping =>
      OnPingOk(c, h);
      QuietHonest(Take(w, i), p.dst, OnPing(c, h));
    case Plain =>
      SeeHeaderOk(c, h);
      QuietHonest(Take(w, i), p.dst, SeeHeader(c, h));
    case Update(n, e, s) =>
      OnUpdateOk(c, h, n, e, s);
      QuietHonest(Take(w, i), p.dst, OnUpdate(c, h, n, e, s));
    case AuthRequest =>
      RequestHonest(Take(w, i), p, tooSoon, linked);
    case AuthAck =>
      AckHonest(w, i, tooSoon, linked);
  }

  lemma FailoverHonest(w: World, n: Id, env: Env, reached: seq<Id>)
    requires EpochBound(w) && Honest(w) && n in w.nodes && forall x :: x in reached ==> x in w.nodes && x != n
    ensures NodeOk(w.nodes[n]) && n in w.counted && n in w.carried
    ensures var w' := RunFailover(w, n, env, reached); EpochBound(w') && Honest(w')
  {
    hide EpochBound, Honest, EpochsBounded, HandleFailover, Post, BuildHeader, Links;
    NodeFacts(w, n);
    var c := w.nodes[n];
    HandleFailoverOk(c, env);
    var (d, o) := HandleFailover(c, env);
    match o
    case Idle => QuietHonest(w, n, d);
    case Reset => ResetHonest(w, n, d);
    case Started =>
      EpochKnown(c);
      StartHonest(w, n, d);
      var w2 := w.(nodes := w.nodes[n := d], counted := w.counted[n := {}], carried := w.carried[n := c.auth.count]);
      HeaderIsOk(d, env.mfEnd);
      var m := Message(BuildHeader(d, env.mfEnd), AuthRequest);
      PostQuiet(w2, seq(|reached|, k requires 0 <= k < |reached| => Packet(reached[k], m)));
    case Won =>
      QuietHonest(w, n, d);
      WinIsOk(w, n, c.size);
      MoreWins(w.(nodes := w.nodes[n := d]), Win(c.auth.epoch, n, w.counted[n], w.carried[n], c.size));
  }

  lemma EpochKnown(c: Cluster)
    requires NodeOk(c)
    ensures c.auth.epoch <= c.currentEpoch
  {
  }

  lemma MoreWins(w: World, x: Win)
    requires EpochBound(w) && Honest(w) && WinOk(x, w.votes)
    ensures var w' := w.(wins := w.wins + {x}); EpochBound(w') && Honest(w')
  {
    hide NodesOk, NetOk, VotesOk, RequestsOk, AcksOk, TallyOk;
  }

  /** Every step keeps the epoch bound and the bookkeeping of votes. */
  lemma NextHonest(w: World, ev: Event)
    requires EpochBound(w) && Honest(w) && Enabled(w, ev)
    ensures EpochBound(Next(w, ev)) && Honest(Next(w, ev))
  {
    hide EpochBound, Honest, EpochsBounded, Receive, RunFailover, Apply, Post, SentMessage, Links;
    match ev
    case Deliver(i, tooSoon, linked) => DeliverHonest(w, i, tooSoon, linked);
    case Drop(i) => TakeHonest(w, i);
    case Send(src, dst, kind) =>
      NodeFacts(w, src);
      SentMessageOk(w.nodes[src], kind);
      SentIsQuiet(w.nodes[src], kind);
      PostQuiet(w, [Packet(dst, SentMessage(w.nodes[src], kind))]);
    case Failover(n, env, reached) => FailoverHonest(w, n, env, reached);
    case Admin(n, cmd) =>
      NodeFacts(w, n);
      ApplyOk(w.nodes[n], cmd);
      QuietHonest(w, n, Apply(w.nodes[n], cmd));
  }

  lemma SentIsQuiet(c: Cluster, kind: Kind)
    requires NodeOk(c) && (kind.SendUpdate? ==> kind.about in c.nodes)
    ensures !SentMessage(c, kind).body.AuthAck? && !SentMessage(c, kind).body.AuthRequest?
  {
  }

  // ---- runs ----

  /** A run: each world follows from the one before by one enabled event. The epoch bound is
      what makes a step well defined, and RunHonest shows that it is never in question. */
  ghost predicate Run(ws: seq<World>, evs: seq<Event>) {
    && |ws| == |evs| + 1 && Init(ws[0])
    && forall i :: 0 <= i < |evs| && EpochBound(ws[i]) ==> Enabled(ws[i], evs[i]) && ws[i + 1] == Next(ws[i], evs[i])
  }

  /** Every world of every run keeps the epoch bound and the bookkeeping of votes. */
  lemma {:induction false} RunHonest(ws: seq<World>, evs: seq<Event>, k: nat)
    requires Run(ws, evs) && k < |ws|
    ensures EpochBound(ws[k]) && Honest(ws[k])
  {
    hide EpochBound, Honest, Next, Init, Enabled;
    if k == 0 {
      InitHonest(ws[0]);
    } else {
      RunHonest(ws, evs, k - 1);
      NextHonest(ws[k - 1], evs[k - 1]);
    }
  }

  /** The epoch bound, in every world of every run: a node has heard of no configEpoch above its
      currentEpoch, and no packet in flight carries one above the currentEpoch it carries. */
  lemma EpochsInRun(ws: seq<World>, evs: seq<Event>, k: nat)
    requires Run(ws, evs) && k < |ws|
    ensures forall n, m :: n in ws[k].nodes && m in ws[k].nodes[n].nodes ==>
      ws[k].nodes[n].nodes[m].configEpoch <= ws[k].nodes[n].currentEpoch
    ensures forall i :: 0 <= i < |ws[k].net| && ws[k].net[i].Some? ==> MessageOk(ws[k].net[i].value.msg)
  {
    hide Next, Init, Enabled, Honest, Links;
    RunHonest(ws, evs, k);
    forall i | 0 <= i < |ws[k].net| && ws[k].net[i].Some?
      ensures MessageOk(ws[k].net[i].value.msg)
    {
      assert PacketOk(ws[k].nodes, ws[k].net[i].value);
    }
  }

  /** So an epoch that a node gives itself without a vote is above every one it knows of. It keeps
      the one it has exactly when that is not zero and equals its currentEpoch. */
  lemma BumpIsFresh(ws: seq<World>, evs: seq<Event>, k: nat, n: Id)
    requires Run(ws, evs) && k < |ws| && n in ws[k].nodes
    ensures var c := ws[k].nodes[n];
      && n in c.nodes && c.me == n
      && var d := BumpEpoch(c);
         && n in d.nodes
         && (d != c ==> forall m :: m in c.nodes ==> c.nodes[m].configEpoch < d.nodes[n].configEpoch)
         && (d == c <==> c.nodes[n].configEpoch > 0 && c.nodes[n].configEpoch == c.currentEpoch)
  {
    hide Next, Init, Enabled, Honest;
    EpochsInRun(ws, evs, k);
    RunHonest(ws, evs, k);
    NodeFacts(ws[k], n);
  }

  // ---- election safety ----

  /** In every run, two different nodes that win in the same epoch share no counted voter. */
  lemma WinsShareNoVoter(ws: seq<World>, evs: seq<Event>, k: nat, a: Win, b: Win)
    requires Run(ws, evs) && k < |ws| && a in ws[k].wins && b in ws[k].wins
    requires a.epoch == b.epoch && a.node != b.node
    ensures a.voters !! b.voters
  {
    hide Next, Init, Enabled, NodesOk, NetOk, RequestsOk, AcksOk, TallyOk;
    RunHonest(ws, evs, k);
    assert WinOk(a, ws[k].votes) && WinOk(b, ws[k].votes);
    forall x | x in a.voters
      ensures x !in b.voters
    {
      assert Vote(x, a.epoch, a.node) in ws[k].votes;
    }
  }

  lemma DisjointSizes(a: set<Id>, b: set<Id>, whole: set<Id>)
    requires a !! b && a <= whole && b <= whole
    ensures |a| + |b| <= |whole|
  {
    assert |a + b| == |a| + |b|;
    SubsetSize(a + b, whole);
  }

  lemma SubsetSize(a: set<Id>, b: set<Id>)
    requires a <= b
    ensures |a| <= |b|
  {
    assert b == a + (b - a);
  }

  /** Two wins of one epoch with tallies that started at zero, over one set of masters, are by the
      same node. */
  lemma WinsAgree(ws: seq<World>, evs: seq<Event>, k: nat, a: Win, b: Win, masters: set<Id>)
    requires Run(ws, evs) && k < |ws| && a in ws[k].wins && b in ws[k].wins && a.epoch == b.epoch
    requires a.voters <= masters && b.voters <= masters && |masters| <= a.size && |masters| <= b.size
    requires a.carried == 0 && b.carried == 0
    ensures a.node == b.node
  {
    hide Next, Init, Enabled, NodesOk, NetOk, RequestsOk, AcksOk, TallyOk, VotesOk;
    RunHonest(ws, evs, k);
    assert WinOk(a, ws[k].votes) && WinOk(b, ws[k].votes);
    if a.node != b.node {
      WinsShareNoVoter(ws, evs, k, a, b);
      DisjointSizes(a.voters, b.voters, masters);
      assert false;
    }
  }

  // ---- an agreed set of masters ----

  ghost predicate HasWon(wins: set<Win>, n: Id, epoch: nat) {
    exists x :: x in wins && x.node == n && x.epoch == epoch
  }

  /** The node has asked for votes in this epoch and has not won yet. */
  ghost predicate Open(wins: set<Win>, n: Id, a: Auth, epoch: nat) {
    a.sent && a.epoch == epoch && !HasWon(wins, n, epoch)
  }

  /** Every node with an open election in this epoch sees no masters serving slots but those agreed
      on, and computes its quorum from at least as many. */
  ghost predicate Agreed(w: World, epoch: nat, masters: set<Id>) {
    forall n :: n in w.nodes && Open(w.wins, n, w.nodes[n].auth, epoch) ==>
      Serving(w.nodes[n]) <= masters && |masters| <= w.nodes[n].size
  }

  /** A node that has won the epoch did so first with voters from among the masters. */
  ghost predicate FirstWin(wins: set<Win>, n: Id, epoch: nat, masters: set<Id>) {
    exists x :: x in wins && x.node == n && x.epoch == epoch && x.voters <= masters && |masters| <= x.size
  }

  /** The voters counted in open elections and in first wins are among the masters. */
  ghost predicate CountsAmong(w: World, epoch: nat, masters: set<Id>) {
    && (forall n ::
          n in w.nodes && n in w.counted && Open(w.wins, n, w.nodes[n].auth, epoch) ==> w.counted[n] <= masters)
    && (forall x :: x in w.wins && x.epoch == epoch ==> FirstWin(w.wins, x.node, epoch, masters))
  }

  lemma SameServing(c: Cluster, h: Header)
    ensures Serving(SeeHeader(c, h)) == Serving(c)
  {
    var d := SeeHeader(c, h);
    assert forall n :: SlotsOf(d, n) == SlotsOf(c, n);
  }

  /** A vote that counts comes from a master serving slots. */
  lemma CountedServes(c: Cluster, h: Header)
    requires CountsVote(SeeHeader(c, h), h)
    ensures h.sender in Serving(c)
  {
    hide SeeHeader;
    SameServing(c, h);
  }

  lemma OneAmong(w: World, w': World, n: Id, epoch: nat, masters: set<Id>)
    requires CountsAmong(w, epoch, masters) && w'.wins == w.wins
    requires n in w'.nodes && w'.nodes == w.nodes[n := w'.nodes[n]]
    requires w'.counted.Keys == w.counted.Keys && forall m :: m in w.counted && m != n ==> w'.counted[m] == w.counted[m]
    requires Open(w.wins, n, w'.nodes[n].auth, epoch) && n in w'.counted ==> w'.counted[n] <= masters
    ensures CountsAmong(w', epoch, masters)
  {
    hide HasWon, FirstWin;
  }

  lemma ReceiveCounts(w: World, p: Packet, tooSoon: bool, linked: bool)
    requires p.dst in w.nodes && Linked(w.nodes[p.dst]) && p.msg.hdr.sender != w.nodes[p.dst].me
    ensures var w' := Receive(w, p, tooSoon, linked);
      var c, h := w.nodes[p.dst], p.msg.hdr;
      w'.counted == if p.msg.body.AuthAck? && CountsVote(SeeHeader(c, h), h) && c.auth.sent && p.dst in w.counted
        then w.counted[p.dst := w.counted[p.dst] + {h.sender}] else w.counted
  {
    hide OnPing, OnUpdate, SeeHeader, OnRequest, OnAck, CountsVote, Links, BuildHeader;
  }

  lemma BallotKept(w: World, p: Packet, tooSoon: bool)
    requires PacketOk(w.nodes, p) && NodeOk(w.nodes[p.dst]) && w.nodes[p.dst].me == p.dst
    ensures var c, h := w.nodes[p.dst], p.msg.hdr;
      var d := match p.msg.body
         case Ping => OnPing(c, h)
         case Plain => SeeHeader(c, h)
         case Update(n, e, s) => OnUpdate(c, h, n, e, s)
         case AuthRequest => OnRequest(c, h, tooSoon).0
         case AuthAck => OnAck(c, h);
      d.auth.sent == c.auth.sent && d.auth.epoch == c.auth.epoch
  {
    hide EpochsBounded, OnPing, OnUpdate, SeeHeader, OnRequest, OnAck, CountsVote, Links;
    var c, h := w.nodes[p.dst], p.msg.hdr;
    match p.msg.body
    case Ping => OnPingOk(c, h);
    case Plain => SeeHeaderOk(c, h);
    case Update(n, e, s) => OnUpdateOk(c, h, n, e, s);
    case AuthRequest => OnRequestOk(c, h, tooSoon);
    case AuthAck => OnAckOk(c, h);
  }

  lemma DeliverAmong(w: World, i: nat, tooSoon: bool, linked: bool, epoch: nat, masters: set<Id>)
    requires EpochBound(w) && CountsAmong(w, epoch, masters)
    requires Agreed(w, epoch, masters) && i < |w.net| && w.net[i].Some?
    ensures CountsAmong(Next(w, Deliver(i, tooSoon, linked)), epoch, masters)
  {
    hide CountsAmong, Agreed, HasWon, NodesOk, NetOk, EpochsBounded, OnPing, OnUpdate, SeeHeader, OnRequest, OnAck,
      CountsVote,
      Receive, Links, Serving;
    PacketIsOk(w, i);
    var p := w.net[i].value;
    NodeFacts(w, p.dst);
    var c, h := w.nodes[p.dst], p.msg.hdr;
    var v := Take(w, i);
    SameAmong(w, v, epoch, masters);
    ReceiveEffect(v, p, tooSoon, linked);
    ReceiveCounts(v, p, tooSoon, linked);
    BallotKept(w, p, tooSoon);
    AmongAt(w, p.dst, epoch, masters);
    if CountsVote(SeeHeader(c, h), h) {
      CountedServes(c, h);
    }
    OneAmong(v, Next(w, Deliver(i, tooSoon, linked)), p.dst, epoch, masters);
  }

  lemma SameAmong(w: World, w': World, epoch: nat, masters: set<Id>)
    requires CountsAmong(w, epoch, masters) && w'.nodes == w.nodes && w'.counted == w.counted && w'.wins == w.wins
    ensures CountsAmong(w', epoch, masters)
  {
    hide HasWon, FirstWin;
  }

  lemma AmongAt(w: World, n: Id, epoch: nat, masters: set<Id>)
    requires n in w.nodes && n in w.counted && CountsAmong(w, epoch, masters) && Agreed(w, epoch, masters)
    ensures Open(w.wins, n, w.nodes[n].auth, epoch) ==>
      w.counted[n] <= masters && Serving(w.nodes[n]) <= masters && |masters| <= w.nodes[n].size
  {
    hide HasWon, FirstWin, Serving;
  }

  lemma FailoverAmong(w: World, n: Id, env: Env, reached: seq<Id>, epoch: nat, masters: set<Id>)
    requires EpochBound(w) && CountsAmong(w, epoch, masters)
    requires Agreed(w, epoch, masters) && Enabled(w, Failover(n, env, reached))
    ensures CountsAmong(Next(w, Failover(n, env, reached)), epoch, masters)
  {
    hide CountsAmong, Agreed, HasWon, NodesOk, NetOk, EpochsBounded, HandleFailover, Post, BuildHeader, Links, Serving;
    NodeFacts(w, n);
    HandleFailoverOk(w.nodes[n], env);
    AmongAt(w, n, epoch, masters);
    PostKeeps();
    var (d, o) := HandleFailover(w.nodes[n], env);
    var w' := Next(w, Failover(n, env, reached));
    if o.Won? {
      OneAmong(w, w'.(wins := w.wins), n, epoch, masters);
      var x := Win(w.nodes[n].auth.epoch, n, w.counted[n], w.carried[n], w.nodes[n].size);
      WinAmong(w'.(wins := w.wins), w', x, epoch, masters);
    } else {
      OneAmong(w, w', n, epoch, masters);
    }
  }

  lemma WinAmong(w: World, w': World, x: Win, epoch: nat, masters: set<Id>)
    requires CountsAmong(w, epoch, masters) && w' == w.(wins := w.wins + {x})
    requires x.epoch == epoch && !HasWon(w.wins, x.node, epoch) ==> x.voters <= masters && |masters| <= x.size
    ensures CountsAmong(w', epoch, masters)
  {
    forall n | HasWon(w.wins, n, epoch)
      ensures HasWon(w'.wins, n, epoch) && FirstWin(w'.wins, n, epoch, masters)
    {
      var y :| y in w.wins && y.node == n && y.epoch == epoch;
      var z :| z in w.wins && z.node == n && z.epoch == epoch && z.voters <= masters && |masters| <= z.size;
      assert z in w'.wins;
    }
    forall y | y in w'.wins && y.epoch == epoch
      ensures FirstWin(w'.wins, y.node, epoch, masters)
    {
      if y in w.wins {
        assert HasWon(w.wins, y.node, epoch);
      } else if !HasWon(w.wins, x.node, epoch) {
        assert x in w'.wins;
      }
    }
  }

  lemma NextAmong(w: World, ev: Event, epoch: nat, masters: set<Id>)
    requires EpochBound(w) && CountsAmong(w, epoch, masters) && Agreed(w, epoch, masters) && Enabled(w, ev)
    ensures CountsAmong(Next(w, ev), epoch, masters)
  {
    hide CountsAmong, Agreed, HasWon, EpochBound, EpochsBounded, Receive, RunFailover, Apply, Post, SentMessage, Links;
    match ev
    case Deliver(i, tooSoon, linked) => DeliverAmong(w, i, tooSoon, linked, epoch, masters);
    case Drop(i) => SameAmong(w, Next(w, ev), epoch, masters);
    case Send(src, dst, kind) =>
      PostKeeps();
      SameAmong(w, Next(w, ev), epoch, masters);
    case Failover(n, env, reached) => FailoverAmong(w, n, env, reached, epoch, masters);
    case Admin(n, cmd) =>
      NodeFacts(w, n);
      ApplyOk(w.nodes[n], cmd);
      AmongAt(w, n, epoch, masters);
      OneAmong(w, Next(w, ev), n, epoch, masters);
  }

  lemma {:induction false} RunAmong(ws: seq<World>, evs: seq<Event>, k: nat, epoch: nat, masters: set<Id>)
    requires Run(ws, evs) && k < |ws| && forall i :: 0 <= i < k ==> Agreed(ws[i], epoch, masters)
    ensures CountsAmong(ws[k], epoch, masters)
  {
    hide EpochBound, Agreed, CountsAmong, Next, Init, Enabled;
    if k == 0 {
      InitAmong(ws[0], epoch, masters);
    } else {
      RunAmong(ws, evs, k - 1, epoch, masters);
      RunHonest(ws, evs, k - 1);
      NextAmong(ws[k - 1], evs[k - 1], epoch, masters);
    }
  }

  lemma InitAmong(w: World, epoch: nat, masters: set<Id>)
    requires Init(w)
    ensures CountsAmong(w, epoch, masters)
  {
    hide NodesOk;
  }

  /** Election safety: in every run in which the nodes with an open election in an epoch agree on the
      masters serving slots, at most one node wins that epoch, if tallies started at zero. */
  lemma ElectionSafety(ws: seq<World>, evs: seq<Event>, k: nat, a: Win, b: Win, masters: set<Id>)
    requires Run(ws, evs) && k < |ws| && a in ws[k].wins && b in ws[k].wins && a.epoch == b.epoch
    requires forall i :: 0 <= i < k ==> Agreed(ws[i], a.epoch, masters)
    requires forall x :: x in ws[k].wins && x.epoch == a.epoch ==> x.carried == 0
    ensures a.node == b.node
  {
    hide Run, Agreed;
    RunAmong(ws, evs, k, a.epoch, masters);
    assert FirstWin(ws[k].wins, a.node, a.epoch, masters) && FirstWin(ws[k].wins, b.node, a.epoch, masters);
    var x :| x in ws[k].wins && x.node == a.node && x.epoch == a.epoch && x.voters <= masters && |masters| <= x.size;
    var y :| y in ws[k].wins && y.node == b.node && y.epoch == a.epoch && y.voters <= masters && |masters| <= y.size;
    WinsAgree(ws, evs, k, x, y, masters);
  }

  /** The tally of an open election is the number of voters counted for it, each of which
      voted for it in its epoch, exactly when it started at zero. */
  lemma TallyExact(ws: seq<World>, evs: seq<Event>, k: nat, n: Id)
    requires Run(ws, evs) && k < |ws| && n in ws[k].nodes && ws[k].nodes[n].auth.sent
    ensures n in ws[k].counted && n in ws[k].carried
    ensures ws[k].nodes[n].auth.count == |ws[k].counted[n]| <==> ws[k].carried[n] == 0
    ensures forall x :: x in ws[k].counted[n] ==> Vote(x, ws[k].nodes[n].auth.epoch, n) in ws[k].votes
  {
    hide Next, Init, Enabled, NodesOk, NetOk, RequestsOk, AcksOk, VotesOk;
    RunHonest(ws, evs, k);
    assert TallyOk(n, ws[k].nodes[n].auth, ws[k].net, ws[k].votes, ws[k].counted[n], ws[k].carried[n]);
  }

  // ---- when every tally starts at zero ----

  /** Between elections nothing has been counted. */
  predicate Fresh(c: Cluster) { !c.auth.sent ==> c.auth.count == 0 }

  /** Delivering this packet would count a vote although no election is open. */
  predicate CountsStale(w: World, ev: Event) {
    && ev.Deliver? && ev.i < |w.net| && w.net[ev.i].Some?
    && var p := w.net[ev.i].value;
       p.msg.body.AuthAck? && p.dst in w.nodes && !w.nodes[p.dst].auth.sent
       && CountsVote(SeeHeader(w.nodes[p.dst], p.msg.hdr), p.msg.hdr)
  }

  ghost predicate AllFresh(w: World) {
    && (forall n :: n in w.nodes ==> Fresh(w.nodes[n]))
    && (forall n :: n in w.carried ==> w.carried[n] == 0)
    && (forall x :: x in w.wins ==> x.carried == 0)
  }

  lemma DeliverFresh(w: World, i: nat, tooSoon: bool, linked: bool)
    requires EpochBound(w) && AllFresh(w) && i < |w.net| && w.net[i].Some?
    ensures !CountsStale(w, Deliver(i, tooSoon, linked)) <==> AllFresh(Next(w, Deliver(i, tooSoon, linked)))
  {
    hide AllFresh, NodesOk, NetOk, EpochsBounded, OnPing, OnUpdate, SeeHeader, OnRequest, OnAck, CountsVote, Receive,
      Links;
    PacketIsOk(w, i);
    var p := w.net[i].value;
    NodeFacts(w, p.dst);
    var c, h := w.nodes[p.dst], p.msg.hdr;
    var w' := Next(w, Deliver(i, tooSoon, linked));
    ReceiveEffect(Take(w, i), p, tooSoon, linked);
    FreshAt(w, p.dst);
    match p.msg.body {
      case Ping => OnPingOk(c, h);
      case Plain => SeeHeaderOk(c, h);
      case Update(n, e, s) => OnUpdateOk(c, h, n, e, s);
      case AuthRequest => OnRequestOk(c, h, tooSoon);
      case AuthAck => OnAckOk(c, h);
    }
    OneFresh(w, w', p.dst);
  }

  lemma ReceiveEffect(w: World, p: Packet, tooSoon: bool, linked: bool)
    requires p.dst in w.nodes && Linked(w.nodes[p.dst]) && p.msg.hdr.sender != w.nodes[p.dst].me
    ensures var w' := Receive(w, p, tooSoon, linked);
      var c, h := w.nodes[p.dst], p.msg.hdr;
      && w'.carried == w.carried && w'.wins == w.wins
      && p.dst in w'.nodes && w'.nodes == w.nodes[p.dst := w'.nodes[p.dst]]
      && w'.nodes[p.dst] ==
         match p.msg.body
         case Ping => OnPing(c, h)
         case Plain => SeeHeader(c, h)
         case Update(n, e, s) => OnUpdate(c, h, n, e, s)
         case AuthRequest => OnRequest(c, h, tooSoon).0
         case AuthAck => OnAck(c, h)
  {
    hide OnPing, OnUpdate, SeeHeader, OnRequest, OnAck, CountsVote, Links, BuildHeader;
  }

  lemma PostKeeps()
    ensures forall w, ps ::
      Post(w, ps).nodes == w.nodes && Post(w, ps).carried == w.carried && Post(w, ps).wins == w.wins
    ensures forall w, ps :: Post(w, ps).counted == w.counted
  {
  }

  lemma PacketIsOk(w: World, i: nat)
    requires EpochBound(w) && i < |w.net| && w.net[i].Some?
    ensures PacketOk(w.nodes, w.net[i].value)
  {
    hide PacketOk;
  }

  lemma OneFresh(w: World, w': World, n: Id)
    requires AllFresh(w) && n in w'.nodes && w'.nodes == w.nodes[n := w'.nodes[n]]
    requires w'.carried == w.carried && w'.wins == w.wins
    ensures AllFresh(w') <==> Fresh(w'.nodes[n])
  {
  }

  lemma FailoverFresh(w: World, n: Id, env: Env, reached: seq<Id>)
    requires EpochBound(w) && AllFresh(w) && Enabled(w, Failover(n, env, reached))
    ensures AllFresh(Next(w, Failover(n, env, reached)))
  {
    hide NodesOk, NetOk, EpochsBounded, HandleFailover, Post, BuildHeader, Links;
    NodeFacts(w, n);
    HandleFailoverOk(w.nodes[n], env);
    FreshAt(w, n);
    PostKeeps();
    var (d, o) := HandleFailover(w.nodes[n], env);
    assert Fresh(d);
  }

  /** Every step but one keeps all tallies starting at zero: counting a vote between elections. */
  lemma NextFresh(w: World, ev: Event)
    requires EpochBound(w) && AllFresh(w) && Enabled(w, ev)
    ensures AllFresh(Next(w, ev)) <==> !CountsStale(w, ev)
  {
    hide EpochBound, AllFresh, EpochsBounded, Receive, RunFailover, Apply, Post, SentMessage, Links, CountsVote;
    match ev
    case Deliver(i, tooSoon, linked) => DeliverFresh(w, i, tooSoon, linked);
    case Drop(i) => SameFresh(w, Next(w, ev));
    case Send(src, dst, kind) =>
      PostKeeps();
      SameFresh(w, Next(w, ev));
    case Failover(n, env, reached) => FailoverFresh(w, n, env, reached);
    case Admin(n, cmd) =>
      NodeFacts(w, n);
      ApplyOk(w.nodes[n], cmd);
      FreshAt(w, n);
      OneFresh(w, Next(w, ev), n);
  }

  lemma SameFresh(w: World, w': World)
    requires AllFresh(w) && w'.nodes == w.nodes && w'.carried == w.carried && w'.wins == w.wins
    ensures AllFresh(w')
  {
  }

  lemma FreshAt(w: World, n: Id)
    requires AllFresh(w) && n in w.nodes
    ensures Fresh(w.nodes[n])
  {
  }

  lemma {:induction false} RunFresh(ws: seq<World>, evs: seq<Event>, k: nat)
    requires Run(ws, evs) && k < |ws| && AllFresh(ws[0])
    requires forall i :: 0 <= i < k ==> !CountsStale(ws[i], evs[i])
    ensures AllFresh(ws[k])
  {
    hide EpochBound, AllFresh, Next, Init, Enabled, CountsStale;
    if k > 0 {
      RunFresh(ws, evs, k - 1);
      RunHonest(ws, evs, k - 1);
      NextFresh(ws[k - 1], evs[k - 1]);
    }
  }

  /** Election safety for all runs in which the nodes with an open election agree on the masters
      serving slots and no vote is counted between elections: at most one node ever wins the epoch. */
  lemma ElectionSafetyInRun(ws: seq<World>, evs: seq<Event>, k: nat, a: Win, b: Win, masters: set<Id>)
    requires Run(ws, evs) && k < |ws| && AllFresh(ws[0])
    requires a in ws[k].wins && b in ws[k].wins && a.epoch == b.epoch
    requires forall i :: 0 <= i < k ==> !CountsStale(ws[i], evs[i]) && Agreed(ws[i], a.epoch, masters)
    ensures a.node == b.node
  {
    hide EpochBound, Next, Init, Enabled, CountsStale, Fresh, Agreed;
    RunFresh(ws, evs, k);
    ElectionSafety(ws, evs, k, a, b, masters);
  }
}
