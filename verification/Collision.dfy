/** Masters that share a configEpoch: pings between masters resolve every collision, because one
    between colliding masters makes exactly the one with the smaller name move, to an epoch that
    no one uses, and no other ping moves anyone. */
module Collision {
  import opened ClusterNode
  import opened SlotClaims

  /** The configEpoch a node announces for itself. */
  function Own(c: Cluster): nat
    requires c.me in c.nodes
  {
    c.nodes[c.me].configEpoch
  }

  ghost predicate IsMaster(n: Id, c: Cluster) {
    && c.me == n && n in c.nodes && Linked(c) && c.nodes[n].master && c.nodes[n].slaveof.None?
    && Own(c) <= c.currentEpoch
  }

  /** The node credits m with no epoch above e. */
  ghost predicate Credits(c: Cluster, m: Id, e: nat) {
    m in c.nodes && c.nodes[m].configEpoch <= e
  }

  /** Masters that know each other, each within its epoch bound, none of which is credited with an
      epoch it never had, and no two of which serve the same slot. */
  ghost predicate Masters(w: map<Id, Cluster>) {
    && (forall n :: n in w ==> IsMaster(n, w[n]))
    && (forall m, n :: m in w && n in w ==> Credits(w[n], m, Own(w[m])))
    && (forall m, n :: m in w && n in w && m != n ==> SlotsOf(w[m], m) !! SlotsOf(w[n], n))
  }

  /** Node a processes a ping that node b sends now. */
  function Meet(w: map<Id, Cluster>, a: Id, b: Id): map<Id, Cluster>
    requires a in w && b in w && Linked(w[a]) && Linked(w[b]) && w[a].me != w[b].me
  {
    w[a := OnPing(w[a], BuildHeader(w[b], false))]
  }

  /** The ping makes its receiver move. */
  ghost predicate Moving(w: map<Id, Cluster>, a: Id, b: Id)
    requires Masters(w) && a in w && b in w
  {
    Own(w[a]) == Own(w[b]) && a < b
  }

  /** Once it has seen the header, the receiver has heard of every configEpoch in use. */
  ghost predicate CaughtUp(w: map<Id, Cluster>, a: Id, b: Id)
    requires Masters(w) && a in w && b in w
  {
    forall n :: n in w ==> Own(w[n]) <= Max(w[a].currentEpoch, w[b].currentEpoch)
  }

  // ---- one ping at one node ----

  /** A claim on slots that are not this master's leaves its own slots and its role alone. */
  lemma KeepsMine(c: Cluster, n: Id, epoch: nat, claimed: set<nat>)
    requires Linked(c) && n in c.nodes && n != c.me && c.nodes[c.me].master && claimed !! SlotsOf(c, c.me)
    ensures var d := UpdateSlots(c, n, epoch, claimed); d.nodes == c.nodes && SlotsOf(d, c.me) == SlotsOf(c, c.me)
  {
    forall j | j in c.slots && Rebinds(c, n, epoch, claimed, j)
      ensures c.slots[j] != c.me
    {
      assert j !in SlotsOf(c, c.me);
    }
  }

  lemma FixMoves(c: Cluster, n: Id)
    requires c.me in c.nodes && n in c.nodes && n != c.me && c.nodes[n].master && c.nodes[c.me].master
    ensures var d := FixCollision(c, n);
      if c.nodes[n].configEpoch == Own(c) && c.me < n then
        d == c.(nodes := c.nodes[c.me := c.nodes[c.me].(configEpoch := c.currentEpoch + 1)],
                currentEpoch := c.currentEpoch + 1)
      else d == c
  {
  }

  lemma SameSlots(c: Cluster, d: Cluster, n: Id)
    requires c.slots == d.slots
    ensures SlotsOf(c, n) == SlotsOf(d, n)
  {
  }

  /** What a ping from another master, however old it is, does to a master: it moves exactly when the ping
      carries its own configEpoch, no later one of the sender is known, and its name is the smaller one. */
  lemma PingMoves(c: Cluster, h: Header)
    requires Linked(c) && c.nodes[c.me].master && h.sender in c.nodes && h.sender != c.me && h.slaveof.None?
    requires h.slots !! SlotsOf(c, c.me)
    ensures var d := OnPing(c, h); var e := Max(c.currentEpoch, h.currentEpoch);
      var moves := h.configEpoch == Own(c) && c.nodes[h.sender].configEpoch <= Own(c) && c.me < h.sender;
      && Linked(d) && d.me == c.me && d.nodes.Keys == c.nodes.Keys && SlotsOf(d, c.me) == SlotsOf(c, c.me)
      && d.nodes[c.me] == c.nodes[c.me].(configEpoch := if moves then e + 1 else Own(c))
      && d.currentEpoch == (if moves then e + 1 else e)
      && d.nodes[h.sender].configEpoch == Max(c.nodes[h.sender].configEpoch, h.configEpoch)
      && forall m :: m in c.nodes && m != c.me && m != h.sender ==> d.nodes[m] == c.nodes[m]
  {
    hide SeeHeader, SeeRole, UpdateSlots, FixCollision, Links, SlotsOf;
    SeenMine(c, h);
    SeeMaster(c, h);
    var c1 := SeeHeader(c, h);
    SeeRoleLinked(c1, h);
    var c2 := SeeRole(c1, h);
    SameSlots(c, c2, c.me);
    UpdateSlotsLinked(c2, h.sender, h.configEpoch, h.slots);
    KeepsMine(c2, h.sender, h.configEpoch, h.slots);
    var c3 := if SlotsOf(c2, h.sender) != h.slots then UpdateSlots(c2, h.sender, h.configEpoch, h.slots) else c2;
    FixMoves(c3, h.sender);
    FixLinked(c3, h.sender);
    SameSlots(c3, FixCollision(c3, h.sender), c.me);
    assert OnPing(c, h) == if h.configEpoch == Own(c3) then FixCollision(c3, h.sender) else c3;
  }

  // ---- one ping in the cluster ----

  /** Node a after hearing from another master b. */
  lemma MeetOne(a: Id, c: Cluster, b: Id, h: Header)
    requires IsMaster(a, c) && h.sender == b != a && h.slaveof.None? && b in c.nodes
    requires h.slots !! SlotsOf(c, a)
    ensures var d := OnPing(c, h); var e := Max(c.currentEpoch, h.currentEpoch);
      && IsMaster(a, d) && SlotsOf(d, a) == SlotsOf(c, a)
      && Own(d) == (if h.configEpoch == Own(c) && c.nodes[b].configEpoch <= Own(c) && a < b then e + 1 else Own(c))
      && e <= d.currentEpoch
      && forall m, x :: m != a && Credits(c, m, x) && (m == b ==> h.configEpoch <= x) ==> Credits(d, m, x)
  {
    hide OnPing, Links, SlotsOf;
    PingMoves(c, h);
  }

  lemma Credited(c: Cluster, m: Id, e: nat)
    requires Credits(c, m, e)
    ensures m in c.nodes && c.nodes[m].configEpoch <= e
  {
  }

  lemma HeaderOf(w: map<Id, Cluster>, a: Id, b: Id)
    requires Masters(w) && a in w && b in w && a != b
    ensures Linked(w[a]) && Linked(w[b]) && w[a].me == a && w[b].me == b
    ensures var h := BuildHeader(w[b], false);
      && h.sender == b && h.configEpoch == Own(w[b]) && h.currentEpoch == w[b].currentEpoch && h.slaveof.None?
      && h.slots == SlotsOf(w[b], b)
  {
    hide Links, SlotsOf, Credits;
  }

  lemma SelfCredits(c: Cluster)
    requires c.me in c.nodes
    ensures Credits(c, c.me, Own(c))
  {
  }

  lemma CreditsMore(c: Cluster, m: Id, e: nat, f: nat)
    requires Credits(c, m, e) && e <= f
    ensures Credits(c, m, f)
  {
  }

  /** Any ping between masters keeps them masters; only its receiver changes. */
  lemma MeetMasters(w: map<Id, Cluster>, a: Id, b: Id)
    requires Masters(w) && a in w && b in w && a != b
    ensures Linked(w[a]) && Linked(w[b]) && w[a].me == a && w[b].me == b
    ensures var w' := Meet(w, a, b); var e := Max(w[a].currentEpoch, w[b].currentEpoch);
      && a in w' && w' == w[a := w'[a]] && Masters(w')
      && Own(w'[a]) == (if Moving(w, a, b) then e + 1 else Own(w[a]))
      && e <= w'[a].currentEpoch
  {
    hide OnPing, Links, Credits, BuildHeader, SlotsOf;
    HeaderOf(w, a, b);
    var h := BuildHeader(w[b], false);
    assert IsMaster(a, w[a]) && Credits(w[a], b, h.configEpoch) && SlotsOf(w[a], a) !! SlotsOf(w[b], b);
    Credited(w[a], b, h.configEpoch);
    MeetOne(a, w[a], b, h);
    var w' := Meet(w, a, b);
    assert Own(w[a]) <= Own(w'[a]);
    forall m, n | m in w' && n in w'
      ensures Credits(w'[n], m, Own(w'[m]))
    {
      assert Credits(w[n], m, Own(w[m]));
      SelfCredits(w'[n]);
      CreditsMore(w[n], m, Own(w[m]), Own(w'[m]));
    }
  }

  // ---- the epochs in use ----

  ghost function Epochs(w: map<Id, Cluster>): map<Id, nat>
    requires Masters(w)
  {
    map n | n in w :: Own(w[n])
  }

  /** The colliding pairs, smaller name first. */
  function Pairs(e: map<Id, nat>): set<(Id, Id)> {
    set a, b | a in e && b in e && a < b && e[a] == e[b] :: (a, b)
  }

  lemma EpochsSet(w: map<Id, Cluster>, w': map<Id, Cluster>, a: Id)
    requires Masters(w) && Masters(w') && a in w && a in w' && w' == w[a := w'[a]]
    ensures Epochs(w') == Epochs(w)[a := Own(w'[a])]
  {
    hide Links, Credits, SlotsOf;
  }

  lemma EpochOf(w: map<Id, Cluster>, a: Id)
    requires Masters(w) && a in w
    ensures w[a].me == a && a in w[a].nodes && a in Epochs(w) && Epochs(w)[a] == Own(w[a]) <= w[a].currentEpoch
  {
    hide Links, Credits, SlotsOf;
  }

  /** Moving one master of a colliding pair to an unused epoch removes every pair it was part
      of and adds none. */
  lemma PairsFall(e: map<Id, nat>, a: Id, b: Id, x: nat)
    requires (a, b) in Pairs(e) && forall n :: n in e ==> e[n] < x
    ensures Pairs(e[a := x]) < Pairs(e)
  {
    var f := e[a := x];
    forall p | p in Pairs(f)
      ensures p in Pairs(e)
    {
      assert p.0 != a && p.1 != a;
    }
    assert (a, b) !in Pairs(f);
  }

  lemma FewerPairs(p: set<(Id, Id)>, q: set<(Id, Id)>)
    requires p < q
    ensures |p| < |q|
  {
    assert q == p + (q - p);
    assert q - p != {};
  }

  lemma EpochsAtMost(w: map<Id, Cluster>, a: Id, b: Id)
    requires Masters(w) && a in w && b in w && CaughtUp(w, a, b)
    ensures forall n :: n in Epochs(w) ==> Epochs(w)[n] <= Max(w[a].currentEpoch, w[b].currentEpoch)
  {
    hide Links, Credits, SlotsOf, Max;
  }

  /** The epochs change exactly when the ping moves its receiver. If the receiver then has caught
      up, its new epoch is above every other, and the number of colliding pairs falls. */
  lemma MeetResolves(w: map<Id, Cluster>, a: Id, b: Id)
    requires Masters(w) && a in w && b in w && a != b
    ensures Linked(w[a]) && Linked(w[b]) && w[a].me == a && w[b].me == b
    ensures var w' := Meet(w, a, b);
      && Masters(w') && w'.Keys == w.Keys
      && (Epochs(w') != Epochs(w) <==> Moving(w, a, b))
      && (Moving(w, a, b) && CaughtUp(w, a, b) ==>
            && |Pairs(Epochs(w'))| < |Pairs(Epochs(w))|
            && Epochs(w') == Epochs(w)[a := Epochs(w')[a]]
            && forall n :: n in Epochs(w) ==> Epochs(w)[n] < Epochs(w')[a])
  {
    hide Meet, Masters, Epochs, CaughtUp;
    MeetMasters(w, a, b);
    EpochOf(w, a);
    EpochOf(w, b);
    var w' := Meet(w, a, b);
    EpochsSet(w, w', a);
    EpochOf(w', a);
    if Moving(w, a, b) && CaughtUp(w, a, b) {
      EpochsAtMost(w, a, b);
      PairsFall(Epochs(w), a, b, Own(w'[a]));
      FewerPairs(Pairs(Epochs(w')), Pairs(Epochs(w)));
    }
  }

  // ---- runs of pings ----

  ghost predicate Allowed(w: map<Id, Cluster>, p: (Id, Id))
    requires Masters(w)
  {
    p.0 in w && p.1 in w && p.0 != p.1 && (Moving(w, p.0, p.1) ==> CaughtUp(w, p.0, p.1))
  }

  lemma AllowedMeets(w: map<Id, Cluster>, p: (Id, Id))
    requires Masters(w) && Allowed(w, p)
    ensures Linked(w[p.0]) && Linked(w[p.1]) && w[p.0].me != w[p.1].me
  {
    hide Links, Credits, SlotsOf, CaughtUp;
  }

  ghost predicate Pings(w: map<Id, Cluster>, p: (Id, Id), w': map<Id, Cluster>)
    requires Masters(w)
  {
    Allowed(w, p) && (AllowedMeets(w, p); w' == Meet(w, p.0, p.1))
  }

  /** A run of pings between masters, in any order. A ping may come from any master; only one that
      makes its receiver move needs a receiver that has caught up. */
  ghost predicate Run(ws: seq<map<Id, Cluster>>, ps: seq<(Id, Id)>) {
    && |ws| == |ps| + 1 && Masters(ws[0])
    && forall i :: 0 <= i < |ps| && Masters(ws[i]) ==> Pings(ws[i], ps[i], ws[i + 1])
  }

  /** Some master changed its epoch. */
  ghost predicate Changed(w: map<Id, Cluster>, w': map<Id, Cluster>) {
    Masters(w) && Masters(w') && Epochs(w) != Epochs(w')
  }

  ghost function Moves(ws: seq<map<Id, Cluster>>): nat {
    if |ws| < 2 then 0 else Moves(ws[..|ws| - 1]) + if Changed(ws[|ws| - 2], ws[|ws| - 1]) then 1 else 0
  }

  lemma PingsEffect(w: map<Id, Cluster>, p: (Id, Id), w': map<Id, Cluster>)
    requires Masters(w) && Pings(w, p, w')
    ensures Masters(w') && w'.Keys == w.Keys
    ensures |Pairs(Epochs(w'))| + (if Changed(w, w') then 1 else 0) <= |Pairs(Epochs(w))|
    ensures Changed(w, w') ==>
      && p.0 in Epochs(w) && p.0 in Epochs(w') && Epochs(w') == Epochs(w)[p.0 := Epochs(w')[p.0]]
      && (forall n :: n in Epochs(w) ==> Epochs(w)[n] < Epochs(w')[p.0])
      && (p.1 in Epochs(w) && Epochs(w)[p.1] == Epochs(w)[p.0] && p.0 < p.1)
  {
    hide Masters, Epochs, Meet, CaughtUp, Pairs;
    AllowedMeets(w, p);
    MeetResolves(w, p.0, p.1);
    EpochOf(w, p.0);
    EpochOf(w, p.1);
    EpochOf(w', p.0);
  }

  lemma RunPrefix(ws: seq<map<Id, Cluster>>, ps: seq<(Id, Id)>)
    requires Run(ws, ps) && ps != []
    ensures Run(ws[..|ps|], ps[..|ps| - 1]) && ws[..|ps|][|ps| - 1] == ws[|ps| - 1] && ws[..|ps|][0] == ws[0]
  {
    hide Masters, Pings;
  }

  /** In every run each move uses up a colliding pair and no ping creates one, so no run moves more
      often than there were pairs. */
  lemma {:induction false} CollisionsEnd(ws: seq<map<Id, Cluster>>, ps: seq<(Id, Id)>)
    requires Run(ws, ps)
    ensures Masters(ws[|ps|]) && ws[|ps|].Keys == ws[0].Keys
    ensures Moves(ws) + |Pairs(Epochs(ws[|ps|]))| <= |Pairs(Epochs(ws[0]))|
    decreases |ps|
  {
    hide Masters, Pings, Changed, Epochs, Pairs;
    if ps != [] {
      var k := |ps| - 1;
      RunPrefix(ws, ps);
      CollisionsEnd(ws[..k + 1], ps[..k]);
      PingsEffect(ws[k], ps[k], ws[k + 1]);
    }
  }

  /** The master with the greatest name of those that share its epoch never moves, in any run. */
  lemma {:induction false} GreatestStays(ws: seq<map<Id, Cluster>>, ps: seq<(Id, Id)>, g: Id, i: nat)
    requires Run(ws, ps) && i < |ws| && g in ws[0]
    requires forall n :: n in Epochs(ws[0]) && g in Epochs(ws[0]) && Epochs(ws[0])[n] == Epochs(ws[0])[g] ==> n <= g
    ensures Masters(ws[i]) && g in ws[i] && g in Epochs(ws[i]) && g in Epochs(ws[0])
    ensures Epochs(ws[i])[g] == Epochs(ws[0])[g]
    ensures forall n :: n in Epochs(ws[i]) && Epochs(ws[i])[n] == Epochs(ws[0])[g] ==> n <= g
  {
    hide Masters, Pings, Epochs;
    EpochOf(ws[0], g);
    if i > 0 {
      GreatestStays(ws, ps, g, i - 1);
      PingsEffect(ws[i - 1], ps[i - 1], ws[i - 1 + 1]);
      EpochOf(ws[i], g);
    }
  }

  // ---- a run that ends all collisions ----

  lemma Extend(ws: seq<map<Id, Cluster>>, ps: seq<(Id, Id)>, p: (Id, Id))
    returns (ws': seq<map<Id, Cluster>>, ps': seq<(Id, Id)>)
    requires Run(ws, ps) && Masters(ws[|ps|]) && Allowed(ws[|ps|], p)
    ensures Run(ws', ps') && |ps'| == |ps| + 1 && ws'[0] == ws[0] && ws'[|ps|] == ws[|ps|]
    ensures Pings(ws[|ps|], p, ws'[|ps'|])
  {
    hide Masters, CaughtUp, Meet;
    AllowedMeets(ws[|ps|], p);
    var w' := Meet(ws[|ps|], p.0, p.1);
    ws', ps' := ws + [w'], ps + [p];
    assert forall i :: 0 <= i < |ws| ==> ws'[i] == ws[i];
  }

  /** A master that hears those of another epoch comes to know their epochs without moving. */
  lemma {:induction false} CatchUp(ws: seq<map<Id, Cluster>>, ps: seq<(Id, Id)>, a: Id, rest: set<Id>)
    returns (ws': seq<map<Id, Cluster>>, ps': seq<(Id, Id)>)
    requires Run(ws, ps) && Masters(ws[|ps|]) && a in ws[|ps|] && rest <= ws[|ps|].Keys
    requires forall n :: n in rest ==>
      n in Epochs(ws[|ps|]) && a in Epochs(ws[|ps|]) && Epochs(ws[|ps|])[n] != Epochs(ws[|ps|])[a]
    ensures Run(ws', ps') && ws'[0] == ws[0] && Masters(ws'[|ps'|]) && Epochs(ws'[|ps'|]) == Epochs(ws[|ps|])
    ensures a in ws'[|ps'|] && ws[|ps|][a].currentEpoch <= ws'[|ps'|][a].currentEpoch
    ensures forall n :: n in rest ==> Epochs(ws[|ps|])[n] <= ws'[|ps'|][a].currentEpoch
    decreases |rest|
  {
    hide Masters, Epochs, Meet, CaughtUp;
    if rest == {} {
      return ws, ps;
    }
    var w := ws[|ps|];
    var m :| m in rest;
    EpochOf(w, a);
    EpochOf(w, m);
    ws', ps' := Extend(ws, ps, (a, m));
    AllowedMeets(w, (a, m));
    MeetMasters(w, a, m);
    MeetResolves(w, a, m);
    KeysOf(w);
    KeysOf(ws'[|ps'|]);
    ws', ps' := CatchUp(ws', ps', a, rest - {m});
  }

  lemma KeysOf(w: map<Id, Cluster>)
    requires Masters(w)
    ensures Epochs(w).Keys == w.Keys
  {
  }

  /** Epochs at most the currentEpoch of a, known to it: a has caught up, whoever it hears. */
  lemma HasCaughtUp(w: map<Id, Cluster>, a: Id, b: Id)
    requires Masters(w) && a in w && b in w && forall n :: n in Epochs(w) ==> Epochs(w)[n] <= w[a].currentEpoch
    ensures CaughtUp(w, a, b)
  {
    hide Links, Credits, SlotsOf;
    forall n | n in w
      ensures Own(w[n]) <= Max(w[a].currentEpoch, w[b].currentEpoch)
    {
      EpochOf(w, n);
    }
  }

  lemma PairIs(w: map<Id, Cluster>, p: (Id, Id))
    requires Masters(w) && p in Pairs(Epochs(w))
    ensures p.0 in w && p.1 in w && p.0 != p.1 && Moving(w, p.0, p.1)
  {
    hide Links, Credits, SlotsOf;
  }

  /** One more move: the smaller master of some pair catches up and then hears the other. */
  lemma OneMove(ws: seq<map<Id, Cluster>>, ps: seq<(Id, Id)>) returns (ws': seq<map<Id, Cluster>>, ps': seq<(Id, Id)>)
    requires Run(ws, ps) && Masters(ws[|ps|]) && Pairs(Epochs(ws[|ps|])) != {}
    ensures Run(ws', ps') && ws'[0] == ws[0] && Masters(ws'[|ps'|])
    ensures |Pairs(Epochs(ws'[|ps'|]))| < |Pairs(Epochs(ws[|ps|]))|
  {
    hide Masters, Epochs, Meet, CaughtUp, Pairs;
    var w := ws[|ps|];
    var p :| p in Pairs(Epochs(w));
    PairIs(w, p);
    KeysOf(w);
    EpochOf(w, p.0);
    var rest := set n | n in w.Keys && Epochs(w)[n] != Epochs(w)[p.0];
    ws', ps' := CatchUp(ws, ps, p.0, rest);
    var v := ws'[|ps'|];
    KeysOf(v);
    PairIs(v, p);
    EpochOf(v, p.0);
    HasCaughtUp(v, p.0, p.1);
    ws', ps' := Extend(ws', ps', p);
    AllowedMeets(v, p);
    MeetResolves(v, p.0, p.1);
  }

  /** From every world of masters there is a run after which no two masters share an epoch. */
  lemma CollisionsCanEnd(w: map<Id, Cluster>) returns (ws: seq<map<Id, Cluster>>, ps: seq<(Id, Id)>)
    requires Masters(w)
    ensures Run(ws, ps) && ws[0] == w && Masters(ws[|ps|]) && ws[|ps|].Keys == w.Keys
    ensures Pairs(Epochs(ws[|ps|])) == {}
  {
    hide Masters, Epochs, Pairs, Pings;
    ws, ps := [w], [];
    while Pairs(Epochs(ws[|ps|])) != {}
      invariant Run(ws, ps) && ws[0] == w && Masters(ws[|ps|])
      decreases |Pairs(Epochs(ws[|ps|]))|
    {
      ws, ps := OneMove(ws, ps);
    }
    CollisionsEnd(ws, ps);
  }
}
