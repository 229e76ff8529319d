/** Collisions between masters whose pings are delayed, lost, repeated and overtaken: the bound on moves and
    the immunity of the greatest name hold all the same. */
module DelayedPings {
  import opened ClusterNode
  import opened Collision

  /** The masters, and every ping that was sent and may still arrive, once or more. */
  datatype Sea = Sea(w: map<Id, Cluster>, net: set<Header>)

  datatype Event =
    | Post(b: Id)                 // b sends a ping
    | Deliver(a: Id, h: Header)   // a processes one that was sent before

  /** What a ping in flight says of its sender was true once. */
  ghost predicate Truthful(c: Cluster, h: Header) {
    && c.me == h.sender && c.me in c.nodes && h.slaveof.None? && h.slots == SlotsOf(c, c.me)
    && h.configEpoch <= Own(c) && h.currentEpoch <= c.currentEpoch
  }

  /** Some master whose name is not smaller still holds the epoch that the ping announces. */
  ghost predicate StillHeld(w: map<Id, Cluster>, h: Header)
    requires Masters(w)
  {
    exists g :: g in Epochs(w) && h.sender <= g && Epochs(w)[g] == h.configEpoch
  }

  ghost predicate Ok(s: Sea) {
    && Masters(s.w)
    && forall h :: h in s.net ==> h.sender in s.w && Truthful(s.w[h.sender], h) && StillHeld(s.w, h)
  }

  /** The ping makes its receiver move. */
  ghost predicate Moved(w: map<Id, Cluster>, a: Id, h: Header)
    requires Masters(w) && a in w && h.sender in w
  {
    assert Credits(w[a], h.sender, Own(w[h.sender]));
    h.configEpoch == Own(w[a]) && w[a].nodes[h.sender].configEpoch <= Own(w[a]) && a < h.sender
  }

  /** Once it has seen the header, the receiver has heard of every configEpoch in use. */
  ghost predicate Informed(w: map<Id, Cluster>, a: Id, h: Header)
    requires Masters(w) && a in w
  {
    forall n :: n in w ==> Own(w[n]) <= Max(w[a].currentEpoch, h.currentEpoch)
  }

  ghost predicate Enabled(s: Sea, e: Event)
    requires Ok(s)
  {
    match e
    case Post(b) => b in s.w
    case Deliver(a, h) => a in s.w && h in s.net && h.sender != a && (Moved(s.w, a, h) ==> Informed(s.w, a, h))
  }

  lemma CanDeliver(s: Sea, a: Id)
    requires Ok(s) && a in s.w
    ensures Linked(s.w[a]) && s.w[a].me == a
  {
    hide Links, Credits, SlotsOf, Truthful, StillHeld;
  }

  ghost function Next(s: Sea, e: Event): Sea
    requires Ok(s) && Enabled(s, e)
  {
    match e
    case Post(b) => CanDeliver(s, b); s.(net := s.net + {BuildHeader(s.w[b], false)})
    case Deliver(a, h) => CanDeliver(s, a); s.(w := s.w[a := OnPing(s.w[a], h)])
  }

  // ---- one delivery ----

  lemma DeliverMasters(s: Sea, a: Id, h: Header)
    requires Ok(s) && a in s.w && h in s.net && h.sender != a
    ensures Linked(s.w[a]) && s.w[a].me == a
    ensures var w' := s.w[a := OnPing(s.w[a], h)]; var e := Max(s.w[a].currentEpoch, h.currentEpoch);
      && Masters(w') && SlotsOf(w'[a], a) == SlotsOf(s.w[a], a) && s.w[a].currentEpoch <= w'[a].currentEpoch
      && Own(w'[a]) == (if Moved(s.w, a, h) then e + 1 else Own(s.w[a])) && Own(s.w[a]) <= Own(w'[a])
  {
    hide OnPing, Links, SlotsOf, StillHeld, Credits;
    var w, b := s.w, h.sender;
    CanDeliver(s, a);
    assert IsMaster(a, w[a]) && Credits(w[a], b, Own(w[b])) && SlotsOf(w[a], a) !! SlotsOf(w[b], b);
    Credited(w[a], b, Own(w[b]));
    MeetOne(a, w[a], b, h);
    var w' := w[a := OnPing(w[a], h)];
    forall m, n | m in w' && n in w'
      ensures Credits(w'[n], m, Own(w'[m]))
    {
      assert Credits(w[n], m, Own(w[m]));
      SelfCredits(w'[n]);
      CreditsMore(w[n], m, Own(w[m]), Own(w'[m]));
    }
  }

  lemma StaysTruthful(c: Cluster, d: Cluster, h: Header)
    requires Truthful(c, h) && d.me == c.me && d.me in d.nodes && SlotsOf(d, d.me) == SlotsOf(c, c.me)
    requires Own(c) <= Own(d) && c.currentEpoch <= d.currentEpoch
    ensures Truthful(d, h)
  {
  }

  /** The epoch that a moving master gives up is still held by a greater one. */
  lemma StaysHeld(w: map<Id, Cluster>, w': map<Id, Cluster>, a: Id, h: Header, x: Header)
    requires Masters(w) && Masters(w') && a in w && a in w' && w' == w[a := w'[a]]
    requires StillHeld(w, h) && a < h.sender && h.configEpoch == Own(w[a]) && StillHeld(w, x)
    ensures StillHeld(w', x)
  {
    hide Masters, Epochs;
    EpochsSet(w, w', a);
    EpochOf(w, a);
    var g :| g in Epochs(w) && h.sender <= g && Epochs(w)[g] == h.configEpoch;
    var f :| f in Epochs(w) && x.sender <= f && Epochs(w)[f] == x.configEpoch;
    var i := if f == a then g else f;
    assert i in Epochs(w') && x.sender <= i && Epochs(w')[i] == x.configEpoch;
  }

  lemma SameHeld(w: map<Id, Cluster>, w': map<Id, Cluster>, x: Header)
    requires Masters(w) && Masters(w') && Epochs(w') == Epochs(w) && StillHeld(w, x)
    ensures StillHeld(w', x)
  {
    hide Masters, Epochs;
  }

  /** A ping that moves its receiver is about a real collision, if not with its sender. */
  lemma RealCollision(s: Sea, a: Id, h: Header) returns (g: Id)
    requires Ok(s) && a in s.w && h in s.net && h.sender != a && Moved(s.w, a, h)
    ensures (a, g) in Pairs(Epochs(s.w))
  {
    hide Masters, Epochs, Truthful;
    EpochOf(s.w, a);
    assert StillHeld(s.w, h);
    g :| g in Epochs(s.w) && h.sender <= g && Epochs(s.w)[g] == h.configEpoch;
  }

  lemma DeliverOk(s: Sea, a: Id, h: Header)
    requires Ok(s) && Enabled(s, Deliver(a, h))
    ensures Ok(Next(s, Deliver(a, h)))
  {
    hide OnPing, Masters, Epochs, StillHeld, Truthful, Informed;
    CanDeliver(s, a);
    DeliverMasters(s, a, h);
    var w' := s.w[a := OnPing(s.w[a], h)];
    EpochsSet(s.w, w', a);
    EpochOf(s.w, a);
    EpochOf(w', a);
    forall x | x in s.net
      ensures Truthful(w'[x.sender], x) && StillHeld(w', x)
    {
      if x.sender == a {
        StaysTruthful(s.w[a], w'[a], x);
      }
      if Moved(s.w, a, h) {
        StaysHeld(s.w, w', a, h, x);
      } else {
        assert Epochs(w') == Epochs(s.w);
        SameHeld(s.w, w', x);
      }
    }
  }

  lemma PostOk(s: Sea, b: Id)
    requires Ok(s) && Enabled(s, Post(b))
    ensures Ok(Next(s, Post(b)))
  {
    hide Masters, Epochs, Links, SlotsOf;
    CanDeliver(s, b);
    EpochOf(s.w, b);
    var h := BuildHeader(s.w[b], false);
    MasterHeader(s.w, b);
    assert b in Epochs(s.w) && h.sender <= b && Epochs(s.w)[b] == h.configEpoch;
  }

  lemma MasterHeader(w: map<Id, Cluster>, b: Id)
    requires Masters(w) && b in w
    ensures Linked(w[b]) && w[b].me == b && b in w[b].nodes
    ensures var h := BuildHeader(w[b], false);
      && h.sender == b && h.configEpoch == Own(w[b]) && h.currentEpoch == w[b].currentEpoch && h.slaveof.None?
      && h.slots == SlotsOf(w[b], b)
  {
    hide Links, SlotsOf, Credits;
  }

  /** What one event does to the epochs in use. */
  lemma NextEffect(s: Sea, e: Event)
    requires Ok(s) && Enabled(s, e)
    ensures var s' := Next(s, e);
      && Ok(s') && s'.w.Keys == s.w.Keys
      && |Pairs(Epochs(s'.w))| + (if Changed(s.w, s'.w) then 1 else 0) <= |Pairs(Epochs(s.w))|
      && (Changed(s.w, s'.w) ==>
            && e.Deliver? && e.a in Epochs(s.w) && e.a in Epochs(s'.w)
            && Epochs(s'.w) == Epochs(s.w)[e.a := Epochs(s'.w)[e.a]]
            && (forall n :: n in Epochs(s.w) ==> Epochs(s.w)[n] < Epochs(s'.w)[e.a])
            && exists g :: (e.a, g) in Pairs(Epochs(s.w)))
  {
    hide OnPing, Masters, Epochs, StillHeld, Truthful, Pairs;
    match e
    case Post(b) => PostOk(s, b);
    case Deliver(a, h) =>
      DeliverOk(s, a, h);
      DeliverMasters(s, a, h);
      var w' := Next(s, e).w;
      EpochsSet(s.w, w', a);
      EpochOf(s.w, a);
      EpochOf(w', a);
      if Moved(s.w, a, h) {
        var g := RealCollision(s, a, h);
        InformedAtMost(s.w, a, h);
        PairsFall(Epochs(s.w), a, g, Own(w'[a]));
        FewerPairs(Pairs(Epochs(w')), Pairs(Epochs(s.w)));
      } else {
        assert Epochs(w') == Epochs(s.w);
      }
  }

  lemma InformedAtMost(w: map<Id, Cluster>, a: Id, h: Header)
    requires Masters(w) && a in w && Informed(w, a, h)
    ensures forall n :: n in Epochs(w) ==> Epochs(w)[n] <= Max(w[a].currentEpoch, h.currentEpoch)
  {
    hide Links, Credits, SlotsOf, Max;
  }

  // ---- runs ----

  ghost predicate Steps(s: Sea, e: Event, s': Sea)
    requires Ok(s)
  {
    Enabled(s, e) && s' == Next(s, e)
  }

  /** A run with any number of pings in flight. */
  ghost predicate Run(ss: seq<Sea>, es: seq<Event>) {
    && |ss| == |es| + 1 && Masters(ss[0].w) && ss[0].net == {}
    && forall i :: 0 <= i < |es| && Ok(ss[i]) ==> Steps(ss[i], es[i], ss[i + 1])
  }

  ghost function Moves(ss: seq<Sea>): nat {
    if |ss| < 2 then 0 else Moves(ss[..|ss| - 1]) + if Changed(ss[|ss| - 2].w, ss[|ss| - 1].w) then 1 else 0
  }

  lemma RunPrefix(ss: seq<Sea>, es: seq<Event>)
    requires Run(ss, es) && es != []
    ensures Run(ss[..|es|], es[..|es| - 1]) && ss[..|es|][|es| - 1] == ss[|es| - 1] && ss[..|es|][0] == ss[0]
  {
    hide Masters, Steps, Ok;
  }

  /** However pings are delayed, no run moves more often than there were colliding pairs. */
  lemma {:induction false} DelayedCollisionsEnd(ss: seq<Sea>, es: seq<Event>)
    requires Run(ss, es)
    ensures Ok(ss[|es|]) && ss[|es|].w.Keys == ss[0].w.Keys
    ensures Moves(ss) + |Pairs(Epochs(ss[|es|].w))| <= |Pairs(Epochs(ss[0].w))|
    decreases |es|
  {
    hide Masters, Changed, Epochs, Pairs, StillHeld, Truthful, Next, Enabled;
    if es != [] {
      var k := |es| - 1;
      RunPrefix(ss, es);
      DelayedCollisionsEnd(ss[..k + 1], es[..k]);
      assert Steps(ss[k], es[k], ss[k + 1]);
      NextEffect(ss[k], es[k]);
    }
  }

  /** And the master with the greatest name of those that share its epoch never moves. */
  lemma {:induction false} DelayedGreatestStays(ss: seq<Sea>, es: seq<Event>, g: Id, i: nat)
    requires Run(ss, es) && i < |ss| && g in Epochs(ss[0].w)
    requires forall n :: n in Epochs(ss[0].w) && Epochs(ss[0].w)[n] == Epochs(ss[0].w)[g] ==> n <= g
    ensures Ok(ss[i]) && g in Epochs(ss[i].w) && Epochs(ss[i].w)[g] == Epochs(ss[0].w)[g]
    ensures forall n :: n in Epochs(ss[i].w) && Epochs(ss[i].w)[n] == Epochs(ss[0].w)[g] ==> n <= g
  {
    hide Masters, Epochs, StillHeld, Truthful, Next, Enabled;
    if i > 0 {
      DelayedGreatestStays(ss, es, g, i - 1);
      assert Steps(ss[i - 1], es[i - 1], ss[i - 1 + 1]);
      NextEffect(ss[i - 1], es[i - 1]);
      SameKeys(ss[i - 1].w, ss[i].w);
    }
  }

  lemma SameKeys(w: map<Id, Cluster>, w': map<Id, Cluster>)
    requires Masters(w) && Masters(w') && w.Keys == w'.Keys
    ensures Epochs(w).Keys == Epochs(w').Keys
  {
    KeysOf(w);
    KeysOf(w');
  }

  /** A ping that arrives at once, as in the runs of `Collision`, is one that is sent and delivered. */
  lemma AtOnce(s: Sea, a: Id, b: Id)
    requires Ok(s) && a in s.w && b in s.w && a != b && Allowed(s.w, (a, b))
    ensures Enabled(s, Post(b))
    ensures var s1 := Next(s, Post(b)); var h := BuildHeader(s.w[b], false);
      Ok(s1) && Enabled(s1, Deliver(a, h)) && Linked(s.w[a]) && Linked(s.w[b]) && s.w[a].me != s.w[b].me
      && Next(s1, Deliver(a, h)).w == Meet(s.w, a, b)
  {
    hide Masters, Epochs, StillHeld, Truthful, OnPing;
    CanDeliver(s, a);
    CanDeliver(s, b);
    MasterHeader(s.w, b);
    PostOk(s, b);
    AtOnceMoves(s.w, a, b);
  }

  lemma AtOnceMoves(w: map<Id, Cluster>, a: Id, b: Id)
    requires Masters(w) && a in w && b in w && a != b && Linked(w[b])
    ensures var h := BuildHeader(w[b], false);
      h.sender == b && (Moved(w, a, h) <==> Moving(w, a, b)) && (CaughtUp(w, a, b) <==> Informed(w, a, h))
  {
    hide Links, SlotsOf;
    MasterHeader(w, b);
    assert Credits(w[a], b, Own(w[b]));
  }
}
