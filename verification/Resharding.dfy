/** Moving a slot between two live masters: while clients are redirected by getNodeByQuery and
    keys move one by one, no key of the slot is ever on both nodes. */
module Resharding {
  import opened ClusterNode
  import opened Redirection

  /** The slot being moved, its source and its target. */
  datatype Plan = Plan(slot: nat, source: Id, target: Id, slotOf: Key -> nat)

  /** Configuration and keys of both nodes, and the requests that were answered with ASK. */
  datatype Shard = Shard(a: Cluster, b: Cluster, aHas: set<Key>, bHas: set<Key>, asked: set<seq<seq<Key>>>)

  datatype Step =
    | OpenTarget | OpenSource | CloseTarget | CloseSource
    | Move(k: Key, up: bool)                                            // one key of a MIGRATE
    | AtSource(q: Query, up: bool, added: set<Key>, removed: set<Key>)  // a client request
    | AtTarget(q: Query, up: bool, added: set<Key>, removed: set<Key>)
    | Expire(k: Key)

  /** The keys of the moving slot. */
  function Of(p: Plan, has: set<Key>): set<Key> { set k | k in has && p.slotOf(k) == p.slot }

  // ---- configurations ----

  ghost predicate Member(c: Cluster, me: Id, other: Id) {
    Linked(c) && c.me == me && me in c.nodes && other in c.nodes && me != other && c.nodes[me].master
  }

  ghost predicate SourceOk(p: Plan, a: Cluster) {
    && Member(a, p.source, p.target) && p.slot < SLOTS
    && p.slot in a.slots && p.slot !in a.importing
    && (a.slots[p.slot] == p.source || (a.slots[p.slot] == p.target && p.slot !in a.migrating))
    && (p.slot in a.migrating ==> a.migrating[p.slot] == p.target)
  }

  ghost predicate TargetOk(p: Plan, b: Cluster) {
    && Member(b, p.target, p.source) && p.slot < SLOTS
    && p.slot in b.slots && p.slot !in b.migrating
    && (b.slots[p.slot] == p.source || (b.slots[p.slot] == p.target && p.slot !in b.importing))
  }

  predicate Idle(p: Plan, a: Cluster) {
    p.slot in a.slots && a.slots[p.slot] == p.source && p.slot !in a.migrating
  }

  predicate Owns(c: Cluster, j: nat) { j in c.slots && c.slots[j] == c.me }

  /** What holds in every reachable state. */
  ghost predicate Safe(p: Plan, s: Shard) {
    && SourceOk(p, s.a) && TargetOk(p, s.b)
    && Of(p, s.aHas) !! Of(p, s.bHas)
    && (Idle(p, s.a) ==> Of(p, s.bHas) == {} && !Owns(s.b, p.slot))
    && (!Owns(s.a, p.slot) || Owns(s.b, p.slot) ==> Of(p, s.aHas) == {})
    && (forall r :: r in s.asked && AboutSlot(p, r) ==> !Idle(p, s.a) && Lacks(p, r, s.aHas))
  }

  ghost predicate Lacks(p: Plan, r: seq<seq<Key>>, has: set<Key>) {
    exists k :: k in Keys(r) && k !in Of(p, has) && p.slotOf(k) == p.slot
  }

  ghost predicate AboutSlot(p: Plan, r: seq<seq<Key>>) {
    Keys(r) != [] && p.slotOf(Keys(r)[0]) == p.slot
  }

  // ---- steps ----

  function KeySet(ks: seq<Key>): set<Key> { set k | k in ks }

  function Changed(has: set<Key>, added: set<Key>, removed: set<Key>): set<Key> { has - removed + added }

  /** Clients say ASKING only for a request that was answered with ASK; the target is closed only
      once the source is open and holds no key of the slot. */
  ghost predicate Enabled(p: Plan, s: Shard, e: Step)
    requires Safe(p, s)
  {
    match e
    case CloseTarget => !Idle(p, s.a) && Of(p, s.aHas) == {}
    case Move(k, up) =>
      && p.slotOf(k) == p.slot && k in s.aHas && p.slot in s.a.migrating
      && Route(s.a, up, p.slotOf, s.aHas, Query([[k]], true, false, false)) == Serve
      && Route(s.b, up, p.slotOf, s.bHas, Query([[k]], false, true, false)) == Serve
    case AtSource(q, _, added, removed) => !q.migrate && added + removed <= KeySet(Keys(q.commands))
    case AtTarget(q, _, added, removed) =>
      && !q.migrate && added + removed <= KeySet(Keys(q.commands))
      && (q.asking && AboutSlot(p, q.commands) ==> q.commands in s.asked)
    case _ => true
  }

  ghost function Next(p: Plan, s: Shard, e: Step): Shard
    requires Linked(s.a) && Linked(s.b)
  {
    match e
    case OpenTarget => s.(b := Apply(s.b, SetSlotImporting(p.slot, p.source)))
    case OpenSource => s.(a := Apply(s.a, SetSlotMigrating(p.slot, p.target)))
    case CloseTarget => s.(b := Apply(s.b, SetSlotNode(p.slot, p.target, Of(p, s.bHas) != {})))
    case CloseSource => s.(a := Apply(s.a, SetSlotNode(p.slot, p.target, Of(p, s.aHas) != {})))
    case Move(k, _) => s.(aHas := s.aHas - {k}, bHas := s.bHas + {k})
    case AtSource(q, up, added, removed) =>
      var r := Route(s.a, up, p.slotOf, s.aHas, q);
      if r == Serve then s.(aHas := Changed(s.aHas, added, removed))
      else if r.Ask? then s.(asked := s.asked + {q.commands}) else s
    case AtTarget(q, up, added, removed) =>
      if Route(s.b, up, p.slotOf, s.bHas, q) == Serve then s.(bHas := Changed(s.bHas, added, removed)) else s
    case Expire(k) => s.(aHas := s.aHas - {k}, bHas := s.bHas - {k})
  }

  // ---- what a node serves ----

  /** A request that is served concerns one slot only. */
  lemma ServedTogether(c: Cluster, up: bool, slotOf: Key -> nat, has: set<Key>, q: Query)
    requires Linked(c) && Route(c, up, slotOf, has, q) == Serve
    ensures forall k :: k in Keys(q.commands) ==> slotOf(k) == slotOf(Keys(q.commands)[0])
  {
    hide Links, Keys;
  }

  /** The source serves the slot only while it owns it, and once it is migrating only requests
      all of whose keys it holds. */
  lemma SourceServes(p: Plan, a: Cluster, up: bool, has: set<Key>, q: Query)
    requires SourceOk(p, a) && !q.migrate && AboutSlot(p, q.commands)
    ensures var r := Route(a, up, p.slotOf, has, q);
      && (r == Serve ==> Owns(a, p.slot) && (!Idle(p, a) ==> !Missing(Keys(q.commands), has)))
      && (r.Ask? ==> !Idle(p, a) && Missing(Keys(q.commands), has))
  {
    hide Links, Keys, Missing, Many;
  }

  /** The target serves the slot once it owns it, and before that only requests that say ASKING
      and either have one key or find all of them. */
  lemma TargetServes(p: Plan, b: Cluster, up: bool, has: set<Key>, q: Query)
    requires TargetOk(p, b) && !q.migrate && AboutSlot(p, q.commands)
    ensures Route(b, up, p.slotOf, has, q) == Serve ==>
      Owns(b, p.slot) || (q.asking && (Missing(Keys(q.commands), has) ==> !Many(Keys(q.commands))))
  {
    hide Links, Keys, Missing, Many;
  }

  // ---- every step is safe ----

  lemma OfChanged(p: Plan, has: set<Key>, added: set<Key>, removed: set<Key>)
    ensures Of(p, Changed(has, added, removed)) <= Of(p, has) + Of(p, added)
  {
  }

  lemma OtherSlot(p: Plan, ks: seq<Key>, added: set<Key>)
    requires added <= KeySet(ks) && forall k :: k in ks ==> p.slotOf(k) == p.slotOf(ks[0])
    ensures ks == [] || p.slotOf(ks[0]) != p.slot ==> Of(p, added) == {}
  {
  }

  lemma NotMissing(ks: seq<Key>, has: set<Key>, added: set<Key>)
    requires added <= KeySet(ks) && !Missing(ks, has)
    ensures added <= has
  {
  }

  /** Requests already answered with ASK stay unanswerable at the source. */
  lemma StillLacks(p: Plan, r: seq<seq<Key>>, has: set<Key>, has': set<Key>)
    requires Lacks(p, r, has) && Of(p, has') <= Of(p, has)
    ensures Lacks(p, r, has')
  {
    hide Of, Keys;
  }

  /** Fewer keys of the slot at the source, and no more at the target. */
  lemma FewerSafe(p: Plan, s: Shard, aHas: set<Key>, bHas: set<Key>)
    requires Safe(p, s) && Of(p, aHas) <= Of(p, s.aHas) && Of(p, bHas) <= Of(p, s.bHas)
    ensures Safe(p, s.(aHas := aHas, bHas := bHas))
  {
    hide Of, SourceOk, TargetOk, AboutSlot, Lacks;
    forall r | r in s.asked && AboutSlot(p, r)
      ensures Lacks(p, r, aHas)
    {
      StillLacks(p, r, s.aHas, aHas);
    }
  }

  lemma AtSourceSafe(p: Plan, s: Shard, e: Step)
    requires Safe(p, s) && e.AtSource? && Enabled(p, s, e)
    ensures Safe(p, Next(p, s, e))
  {
    hide Route, Of, SourceOk, TargetOk, Lacks, KeySet, Changed, Links;
    var q, ks := e.q, Keys(e.q.commands);
    SourceLinked(p, s.a);
    var r := Route(s.a, e.up, p.slotOf, s.aHas, q);
    if AboutSlot(p, q.commands) {
      SourceServes(p, s.a, e.up, s.aHas, q);
    }
    if r == Serve {
      ServedTogether(s.a, e.up, p.slotOf, s.aHas, q);
      OfChanged(p, s.aHas, e.added, e.removed);
      OtherSlot(p, ks, e.added);
      var aHas := Changed(s.aHas, e.added, e.removed);
      if Idle(p, s.a) && AboutSlot(p, q.commands) {
        assert Safe(p, s.(aHas := aHas));
      } else {
        if AboutSlot(p, q.commands) {
          NotMissing(ks, s.aHas, e.added);
          OfMonotone(p, e.added, s.aHas);
        }
        FewerSafe(p, s, aHas, s.bHas);
      }
    } else if r.Ask? {
      AskLacks(p, s.a, e.up, s.aHas, q);
    }
  }

  lemma SourceLinked(p: Plan, a: Cluster)
    requires SourceOk(p, a)
    ensures Linked(a)
  {
  }

  lemma TargetLinked(p: Plan, b: Cluster)
    requires TargetOk(p, b)
    ensures Linked(b)
  {
  }

  lemma OfMonotone(p: Plan, has: set<Key>, has': set<Key>)
    requires has <= has'
    ensures Of(p, has) <= Of(p, has')
  {
  }

  lemma AskLacks(p: Plan, a: Cluster, up: bool, has: set<Key>, q: Query)
    requires Linked(a) && Route(a, up, p.slotOf, has, q).Ask?
    ensures AboutSlot(p, q.commands) ==> Lacks(p, q.commands, has)
  {
    hide Links, Keys;
    if AboutSlot(p, q.commands) {
      var k :| k in Keys(q.commands) && k !in has;
      assert k !in Of(p, has);
    }
  }

  lemma AtTargetSafe(p: Plan, s: Shard, e: Step)
    requires Safe(p, s) && e.AtTarget? && Enabled(p, s, e)
    ensures Safe(p, Next(p, s, e))
  {
    hide Route, Of, SourceOk, TargetOk, KeySet, Changed, Links, Keys;
    var q, ks := e.q, Keys(e.q.commands);
    TargetLinked(p, s.b);
    if Route(s.b, e.up, p.slotOf, s.bHas, q) == Serve {
      ServedTogether(s.b, e.up, p.slotOf, s.bHas, q);
      OfChanged(p, s.bHas, e.added, e.removed);
      OtherSlot(p, ks, e.added);
      var bHas := Changed(s.bHas, e.added, e.removed);
      if AboutSlot(p, q.commands) {
        TargetServes(p, s.b, e.up, s.bHas, q);
        if !Missing(ks, s.bHas) {
          NotMissing(ks, s.bHas, e.added);
          OfMonotone(p, e.added, s.bHas);
          FewerSafe(p, s, s.aHas, bHas);
        } else if !Owns(s.b, p.slot) {
          var k :| k in ks && k !in Of(p, s.aHas) && p.slotOf(k) == p.slot;
          OneKey(p, ks, e.added, k);
        }
      } else {
        FewerSafe(p, s, s.aHas, bHas);
      }
    }
  }

  lemma OneKey(p: Plan, ks: seq<Key>, added: set<Key>, k: Key)
    requires added <= KeySet(ks) && !Many(ks) && k in ks
    ensures Of(p, added) <= {k}
  {
    assert ks[0] in ks;
  }

  lemma MoveSafe(p: Plan, s: Shard, k: Key, up: bool)
    requires Safe(p, s) && Enabled(p, s, Move(k, up))
    ensures Safe(p, Next(p, s, Move(k, up)))
  {
    hide Route, SourceOk, TargetOk, Keys, Lacks, Links;
    SourceLinked(p, s.a);
    TargetLinked(p, s.b);
    var s' := Next(p, s, Move(k, up));
    assert Of(p, s'.aHas) == Of(p, s.aHas) - {k};
    assert Of(p, s'.bHas) == Of(p, s.bHas) + {k};
    forall r | r in s.asked && AboutSlot(p, r)
      ensures Lacks(p, r, s'.aHas)
    {
      StillLacks(p, r, s.aHas, s'.aHas);
    }
  }

  lemma OpenSafe(p: Plan, s: Shard, e: Step)
    requires Safe(p, s) && (e.OpenTarget? || e.OpenSource?)
    ensures Safe(p, Next(p, s, e))
  {
    hide Of, Lacks, AboutSlot;
  }

  lemma CloseSourceCfg(p: Plan, a: Cluster, hasKeys: bool)
    requires SourceOk(p, a)
    ensures var a' := Apply(a, SetSlotNode(p.slot, p.target, hasKeys));
      && SourceOk(p, a') && !Idle(p, a') == (!Idle(p, a) || !hasKeys)
      && Owns(a', p.slot) == (Owns(a, p.slot) && hasKeys)
  {
  }

  lemma CloseTargetCfg(p: Plan, b: Cluster, hasKeys: bool)
    requires TargetOk(p, b)
    ensures var b' := Apply(b, SetSlotNode(p.slot, p.target, hasKeys)); TargetOk(p, b') && Owns(b', p.slot)
  {
  }

  lemma CloseSafe(p: Plan, s: Shard, e: Step)
    requires Safe(p, s) && (e.CloseTarget? || e.CloseSource?) && Enabled(p, s, e)
    ensures Safe(p, Next(p, s, e))
  {
    hide Of, Lacks, AboutSlot, Apply, SourceOk, TargetOk, Idle, Owns;
    SourceLinked(p, s.a);
    TargetLinked(p, s.b);
    CloseSourceCfg(p, s.a, Of(p, s.aHas) != {});
    CloseTargetCfg(p, s.b, Of(p, s.bHas) != {});
    IdleOwns(p, s.a);
  }

  lemma IdleOwns(p: Plan, a: Cluster)
    requires SourceOk(p, a)
    ensures Idle(p, a) ==> Owns(a, p.slot)
  {
  }

  lemma NextSafe(p: Plan, s: Shard, e: Step)
    requires Safe(p, s) && Enabled(p, s, e)
    ensures Safe(p, Next(p, s, e))
  {
    hide Safe, Enabled, Next;
    match e
    case OpenTarget => OpenSafe(p, s, e);
    case OpenSource => OpenSafe(p, s, e);
    case CloseTarget => CloseSafe(p, s, e);
    case CloseSource => CloseSafe(p, s, e);
    case Move(k, up) => MoveSafe(p, s, k, up);
    case AtSource(_, _, _, _) => AtSourceSafe(p, s, e);
    case AtTarget(_, _, _, _) => AtTargetSafe(p, s, e);
    case Expire(k) => ExpireSafe(p, s, k);
  }

  lemma ExpireSafe(p: Plan, s: Shard, k: Key)
    requires Safe(p, s)
    ensures Safe(p, Next(p, s, Expire(k)))
  {
    hide Safe;
    FewerSafe(p, s, s.aHas - {k}, s.bHas - {k});
  }

  // ---- runs ----

  /** Before the migration: both nodes agree that the source owns the slot, and the target holds
      none of its keys. */
  ghost predicate Before(p: Plan, s: Shard) {
    && SourceOk(p, s.a) && TargetOk(p, s.b) && Idle(p, s.a) && !Owns(s.b, p.slot)
    && Of(p, s.bHas) == {} && s.asked == {}
  }

  /** Each state follows from the one before; Safe is what makes a step well defined, and RunSafe
      shows that it is never in question. */
  ghost predicate Run(p: Plan, ss: seq<Shard>, es: seq<Step>) {
    && |ss| == |es| + 1 && Before(p, ss[0])
    && forall i :: 0 <= i < |es| && Safe(p, ss[i]) ==> Enabled(p, ss[i], es[i]) && ss[i + 1] == Next(p, ss[i], es[i])
  }

  lemma {:induction false} RunSafe(p: Plan, ss: seq<Shard>, es: seq<Step>, i: nat)
    requires Run(p, ss, es) && i < |ss|
    ensures Safe(p, ss[i])
  {
    hide Safe, Enabled, Next, Before;
    if i == 0 {
      BeforeSafe(p, ss[0]);
    } else {
      RunSafe(p, ss, es, i - 1);
      NextSafe(p, ss[i - 1], es[i - 1]);
    }
  }

  lemma BeforeSafe(p: Plan, s: Shard)
    requires Before(p, s)
    ensures Safe(p, s)
  {
  }

  /** No run leaves a key of the moving slot on both nodes. */
  lemma NeverOnBoth(p: Plan, ss: seq<Shard>, es: seq<Step>, i: nat, k: Key)
    requires Run(p, ss, es) && i < |ss| && p.slotOf(k) == p.slot
    ensures !(k in ss[i].aHas && k in ss[i].bHas)
  {
    hide Run;
    RunSafe(p, ss, es, i);
    assert k in ss[i].aHas ==> k in Of(p, ss[i].aHas);
    assert k in ss[i].bHas ==> k in Of(p, ss[i].bHas);
  }

  // ---- why both rules are needed ----

  function Write(k: Key, asking: bool): Step { AtTarget(Query([[k]], false, asking, false), true, {k}, {}) }

  /** Saying ASKING without having been asked breaks this in every state in which the target is
      open: a write of any key that is still at the source puts it on both nodes. */
  lemma UnaskedBreaks(p: Plan, s: Shard, k: Key)
    requires Safe(p, s) && p.slot in s.b.importing && k in s.aHas && p.slotOf(k) == p.slot
    ensures var s' := Next(p, s, Write(k, true)); k in s'.aHas && k in s'.bHas
  {
    hide Links, Of;
    OneCommand([k]);
    assert k == [k][0];
  }

  lemma TargetCloses(p: Plan, b: Cluster, hasKeys: bool)
    requires TargetOk(p, b)
    ensures var b' := Apply(b, SetSlotNode(p.slot, p.target, hasKeys));
      Linked(b') && Owns(b', p.slot) && p.slot !in b'.migrating
  {
    hide Links, Apply, Owns;
    CloseTargetCfg(p, b, hasKeys);
  }

  /** Closing the target while the source still holds a key breaks it too: the next write of that
      key at the target is served there. */
  lemma ClosingEarlyBreaks(p: Plan, s: Shard, k: Key)
    requires Safe(p, s) && k in s.aHas && p.slotOf(k) == p.slot
    ensures var s1 := Next(p, s, CloseTarget);
      && Linked(s1.a) && Linked(s1.b)
      && var s2 := Next(p, s1, Write(k, false)); k in s2.aHas && k in s2.bHas
  {
    hide Links, Of, Apply;
    TargetCloses(p, s.b, Of(p, s.bHas) != {});
    OneCommand([k]);
    assert k == [k][0];
  }
}
