/** The cluster state of one node as the handlers update it in place: the slot array, the slot
    bitmap and slot counter of every node, and the epochs. Each handler changes the state as
    its counterpart in ClusterNode says, and keeps array, bitmaps and counters in agreement. */
module ClusterState {
  import opened Wrappers
  import opened ClusterNode
  import ClusterFacts

  /** The slots an array binds to n. */
  function Bound(slots: seq<Option<Id>>, n: Id): set<nat> {
    set j: nat | j < |slots| && slots[j] == Some(n)
  }

  /** The array as a table of the assigned slots. */
  function TableOf(slots: seq<Option<Id>>): map<nat, Id> {
    map j: nat | j < |slots| && slots[j].Some? :: slots[j].value
  }

  /** Array, bitmaps and counters agree: slot j is bound to n exactly when n's bitmap has
      bit j, and each counter is the number of bits set. */
  ghost predicate Coherent(slots: seq<Option<Id>>, bits: map<Id, set<nat>>, numslots: map<Id, nat>) {
    && |slots| == SLOTS && bits.Keys == numslots.Keys
    && (forall j :: 0 <= j < SLOTS && slots[j].Some? ==> slots[j].value in bits)
    && (forall n :: n in bits ==> bits[n] == Bound(slots, n) && numslots[n] == |bits[n]|)
  }

  ghost predicate InSlots(m: map<nat, Id>) { forall j :: j in m ==> j < SLOTS }

  // ---- one slot ----

  lemma BoundSet(slots: seq<Option<Id>>, j: nat, o: Option<Id>, n: Id)
    requires j < |slots|
    ensures Bound(slots[j := o], n) == if o == Some(n) then Bound(slots, n) + {j} else Bound(slots, n) - {j}
  {
  }

  lemma TableSet(slots: seq<Option<Id>>, j: nat, o: Option<Id>)
    requires j < |slots|
    ensures TableOf(slots[j := o]) == if o.Some? then TableOf(slots)[j := o.value] else TableOf(slots) - {j}
  {
  }

  lemma AddCoherent(slots: seq<Option<Id>>, bits: map<Id, set<nat>>, numslots: map<Id, nat>, n: Id, j: nat)
    requires Coherent(slots, bits, numslots) && n in bits && j < SLOTS && slots[j].None?
    ensures j !in bits[n]
    ensures Coherent(slots[j := Some(n)], bits[n := bits[n] + {j}], numslots[n := numslots[n] + 1])
  {
    hide Bound;
    BoundHas(slots, j, n);
    forall m | m in bits
      ensures (if m == n then bits[m] + {j} else bits[m]) == Bound(slots[j := Some(n)], m)
    {
      BoundSet(slots, j, Some(n), m);
      BoundHas(slots, j, m);
    }
  }

  lemma BoundHas(slots: seq<Option<Id>>, j: nat, n: Id)
    requires j < |slots|
    ensures j in Bound(slots, n) <==> slots[j] == Some(n)
  {
  }

  lemma DelCoherent(slots: seq<Option<Id>>, bits: map<Id, set<nat>>, numslots: map<Id, nat>, j: nat)
    requires Coherent(slots, bits, numslots) && j < SLOTS && slots[j].Some?
    ensures var n := slots[j].value;
      && j in bits[n] && numslots[n] > 0
      && Coherent(slots[j := None], bits[n := bits[n] - {j}], numslots[n := numslots[n] - 1])
  {
    hide Bound;
    var n := slots[j].value;
    BoundHas(slots, j, n);
    forall m | m in bits
      ensures (if m == n then bits[m] - {j} else bits[m]) == Bound(slots[j := None], m)
    {
      BoundSet(slots, j, None, m);
      BoundHas(slots, j, m);
    }
  }

  lemma BoundIsSlotsOf(c: Cluster, slots: seq<Option<Id>>, n: Id)
    requires c.slots == TableOf(slots)
    ensures SlotsOf(c, n) == Bound(slots, n)
  {
  }

  // ---- loops over the array ----

  /** The array in which the chosen slots below `upTo` have become o. */
  ghost predicate Moved(s: seq<Option<Id>>, t: seq<Option<Id>>, upTo: nat, chosen: set<nat>, o: Option<Id>) {
    && |t| == |s|
    && forall k: nat :: k < |s| ==> t[k] == if k < upTo && k in chosen then o else s[k]
  }

  lemma MoveStart(s: seq<Option<Id>>, chosen: set<nat>, o: Option<Id>)
    ensures Moved(s, s, 0, chosen, o)
  {
  }

  lemma MoveNext(s: seq<Option<Id>>, t: seq<Option<Id>>, j: nat, chosen: set<nat>, o: Option<Id>)
    requires Moved(s, t, j, chosen, o) && j < |s|
    ensures t[j] == s[j] && Moved(s, if j in chosen then t[j := o] else t, j + 1, chosen, o)
  {
  }

  lemma MovedAll(s: seq<Option<Id>>, t: seq<Option<Id>>, chosen: set<nat>, o: Option<Id>)
    requires Moved(s, t, |s|, chosen, o)
    ensures |t| == |s| && forall j :: 0 <= j < |s| ==> t[j] == if j in chosen then o else s[j]
  {
  }

  lemma MovedTable(s: seq<Option<Id>>, t: seq<Option<Id>>, chosen: set<nat>, o: Option<Id>)
    requires Moved(s, t, |s|, chosen, o)
    ensures o.None? ==> TableOf(t) == TableOf(s) - chosen
    ensures forall n :: o == Some(n) && (forall j :: j in chosen ==> j < |s|) ==>
      TableOf(t) == TableOf(s) + map j | j in chosen :: n
  {
  }

  /** The slots that a claim rebinds. */
  ghost function Rebinding(c: Cluster, n: Id, epoch: nat, claimed: set<nat>): set<nat>
    requires Linked(c)
  {
    set j | j in claimed && Rebinds(c, n, epoch, claimed, j)
  }

  lemma RebindingTable(c: Cluster, n: Id, epoch: nat, claimed: set<nat>)
    requires Linked(c)
    ensures Rebound(c, n, epoch, claimed) == c.slots + map j | j in Rebinding(c, n, epoch, claimed) :: n
    ensures forall j :: j in Rebinding(c, n, epoch, claimed) ==> j < SLOTS
  {
    hide Links;
  }

  lemma RebindsHere(c: Cluster, s: seq<Option<Id>>, n: Id, epoch: nat, claimed: set<nat>, j: nat)
    requires Linked(c) && c.slots == TableOf(s) && |s| == SLOTS && j < SLOTS
    ensures s[j].Some? ==> s[j].value in c.nodes
    ensures j in Rebinding(c, n, epoch, claimed) <==>
      j in claimed && s[j] != Some(n) && j !in c.importing && (s[j].None? || c.nodes[s[j].value].configEpoch < epoch)
  {
    assert s[j].Some? ==> j in c.slots && c.slots[j] == s[j].value;
  }

  class State {
    const me: Id
    var currentEpoch: nat
    var lastVoteEpoch: nat
    var size: nat
    var nodes: map<Id, Node>
    var bits: map<Id, set<nat>>       // the bitmap of each node
    var numslots: map<Id, nat>        // and its counter
    const slots: array<Option<Id>>
    var migrating: map<nat, Id>
    var importing: map<nat, Id>
    var auth: Auth

    ghost function View(): Cluster
      reads this, slots
    {
      Cluster(me, currentEpoch, lastVoteEpoch, size, nodes, TableOf(slots[..]), migrating, importing, auth)
    }

    ghost predicate Agree()
      reads this, slots
    {
      && slots.Length == SLOTS && bits.Keys == nodes.Keys && Coherent(slots[..], bits, numslots)
      && InSlots(migrating) && InSlots(importing)
    }

    ghost predicate Valid()
      reads this, slots
    {
      Agree() && Linked(View())
    }

    /** A node that knows only itself and serves nothing. */
    constructor (id: Id)
      ensures Valid() && fresh(slots) && me == id
      ensures View() ==
        Cluster(id, 0, 0, 1, map[id := Node(0, true, None, false)], map[], map[], map[], Auth(0, 0, false, 0, 0))
    {
      me, currentEpoch, lastVoteEpoch, size := id, 0, 0, 1;
      nodes, bits, numslots := map[id := Node(0, true, None, false)], map[id := {}], map[id := 0];
      slots := new Option<Id>[SLOTS](_ => None);
      migrating, importing, auth := map[], map[], Auth(0, 0, false, 0, 0);
    }

    /** clusterAddSlot: fails exactly when the slot is taken. */
    method AddSlot(n: Id, j: nat) returns (ok: bool)
      requires Agree() && n in nodes && j < SLOTS
      modifies this`bits, this`numslots, slots
      ensures Agree() && ok == old(slots[j]).None?
      ensures slots[..] == if ok then old(slots[..])[j := Some(n)] else old(slots[..])
    {
      hide Coherent, TableOf, Bound;
      CoherentParts(slots[..], bits, numslots);
      if slots[j].Some? { return false; }
      AddCoherent(slots[..], bits, numslots, n, j);
      SetBit(n, j);
      slots[j] := Some(n);
      assert slots[..] == old(slots[..])[j := Some(n)];
      return true;
    }

    method SetBit(n: Id, j: nat)
      requires n in bits && n in numslots
      modifies this`bits, this`numslots
      ensures bits == old(bits)[n := old(bits)[n] + {j}]
      ensures numslots == old(numslots)[n := old(numslots)[n] + if j in old(bits)[n] then 0 else 1]
    {
      var wasSet := j in bits[n];
      bits := bits[n := bits[n] + {j}];
      numslots := if !wasSet then numslots[n := numslots[n] + 1] else numslots[n := numslots[n]];
    }

    /** clusterDelSlot: the bit it clears is always set, and it fails exactly when the slot is
        unassigned. */
    method DelSlot(j: nat) returns (ok: bool)
      requires Agree() && j < SLOTS
      modifies this`bits, this`numslots, slots
      ensures Agree() && ok == old(slots[j]).Some?
      ensures slots[..] == old(slots[..])[j := None]
    {
      hide Coherent, TableOf, Bound;
      CoherentParts(slots[..], bits, numslots);
      if slots[j].None? {
        assert slots[..] == old(slots[..])[j := None];
        return false;
      }
      DelCoherent(slots[..], bits, numslots, j);
      var n := slots[j].value;
      var wasSet := j in bits[n];
      bits := bits[n := bits[n] - {j}];
      if wasSet { numslots := numslots[n := numslots[n] - 1]; }
      assert wasSet;
      slots[j] := None;
      assert slots[..] == old(slots[..])[j := None];
      return true;
    }

    // ---- following another master ----

    /** clusterSetMaster. It asserts that this node serves no slot; ok says whether that holds. */
    method SetMaster(n: Id) returns (ok: bool)
      requires Valid() && n in nodes && n != me && me in numslots
      modifies this`nodes, this`migrating, this`importing
      ensures Valid() && View() == ClusterNode.SetMaster(old(View()), n) && ok == (numslots[me] == 0)
    {
      hide Coherent, TableOf, Bound, Links, InSlots;
      LinkedMe(View());
      SetMasterLinked(View(), n);
      NoSlots();
      ok := numslots[me] == 0;
      if nodes[me].master { migrating, importing := map[], map[]; }
      nodes := nodes[me := nodes[me].(master := false, slaveof := Some(n))];
    }

    /** The loop of clusterUpdateSlotsConfigWith: rebinds the slots that n claims, says whether one
        of them was taken from `cur`, and lists those taken from this node that hold keys. */
    method Rebind(n: Id, epoch: nat, claimed: set<nat>, cur: Id, hasKeys: set<nat>)
      returns (lost: bool, dirty: set<nat>)
      requires Valid() && n in nodes && n != me
      modifies this`bits, this`numslots, slots
      ensures Agree() && View() == old(View()).(slots := Rebound(old(View()), n, epoch, claimed))
      ensures lost <==> Loses(old(View()), n, epoch, claimed, cur)
      ensures dirty == hasKeys * (SlotsOf(old(View()), me) - SlotsOf(View(), me))
    {
      hide Coherent, TableOf, Bound, Rebinding, Links, Moved, Loses, Rebound, SlotsOf;
      ghost var c, s := View(), slots[..];
      ghost var chosen := Rebinding(c, n, epoch, claimed);
      lost, dirty := false, {};
      MoveStart(s, chosen, Some(n));
      for j := 0 to SLOTS
        invariant Agree()
        invariant Moved(s, slots[..], j, chosen, Some(n))
        invariant lost <==> exists k :: 0 <= k < j && k in chosen && s[k] == Some(cur)
        invariant forall k :: k in dirty <==> k in hasKeys && k < j && k in chosen && s[k] == Some(me)
      {
        RebindsHere(c, s, n, epoch, claimed, j);
        MoveNext(s, slots[..], j, chosen, Some(n));
        if j in claimed && slots[j] != Some(n) && j !in importing
           && (slots[j].None? || nodes[slots[j].value].configEpoch < epoch) {
          if slots[j] == Some(me) && j in hasKeys { dirty := dirty + {j}; }
          if slots[j] == Some(cur) { lost := true; }
          ghost var t := slots[..];
          var _ := DelSlot(j);
          var _ := AddSlot(n, j);
          assert slots[..] == t[j := Some(n)];
        }
      }
      RebindingTable(c, n, epoch, claimed);
      MovedTable(s, slots[..], chosen, Some(n));
      LosesHere(c, s, n, epoch, claimed, cur);
      DirtyIs(c, s, View(), slots[..], n, chosen, hasKeys, dirty);
    }

    /** clusterUpdateSlotsConfigWith, where hasKeys are the slots in which this node holds keys.
        Unless it becomes a replica, it deletes the keys of exactly the slots it lost, so that it
        holds keys only in slots it serves if that was so before. */
    method UpdateSlots(n: Id, epoch: nat, claimed: set<nat>, hasKeys: set<nat>) returns (ok: bool, deleted: set<nat>)
      requires Valid() && n in nodes
      modifies this`nodes, this`bits, this`numslots, this`migrating, this`importing, slots
      ensures Valid() && View() == ClusterNode.UpdateSlots(old(View()), n, epoch, claimed)
      ensures !ok ==> !old(nodes)[me].master && me in numslots && numslots[me] != 0
      ensures me in old(nodes) && me in nodes && deleted == Cleared(old(View()), View(), hasKeys)
      ensures SameRole(old(View()), View()) && hasKeys <= SlotsOf(old(View()), me) ==>
        hasKeys - deleted <= SlotsOf(View(), me)
    {
      hide Coherent, TableOf, Bound, Links, Rebound, Rebinds, SlotsOf;
      LinkedMe(View());
      if n == me { return true, {}; }
      var cur := if nodes[me].master then me else nodes[me].slaveof.value;
      ghost var c := View();
      ReboundLinked(c, n, epoch, claimed);
      NotFromItself(c, n, epoch, claimed);
      var lost, dirty := Rebind(n, epoch, claimed, cur, hasKeys);
      ghost var d := View();
      CoherentCount(slots[..], bits, numslots, cur, d);
      CoherentCount(slots[..], bits, numslots, me, d);
      ok, deleted := true, {};
      if lost && numslots[cur] == 0 {
        ok := SetMaster(n);
        FollowsAnother(c, d, n);
      } else {
        deleted := dirty;
      }
    }

    // ---- a node loses or takes over all slots ----

    /** clusterDelNodeSlots. It reports the size of the table, not the number of slots deleted. */
    method DelNodeSlots(n: Id) returns (deleted: nat)
      requires Agree() && n in nodes
      modifies this`bits, this`numslots, slots
      ensures Agree() && View() == WithoutSlots(old(View()), n) && deleted == SLOTS
    {
      hide Coherent, TableOf, Bound, Moved;
      ghost var s := slots[..];
      ghost var chosen := Bound(s, n);
      deleted := 0;
      MoveStart(s, chosen, None);
      for j := 0 to SLOTS
        invariant Agree() && deleted == j
        invariant Moved(s, slots[..], j, chosen, None)
      {
        CoherentHas(slots[..], bits, numslots, n, j);
        BoundHas(s, j, n);
        MoveNext(s, slots[..], j, chosen, None);
        if j in bits[n] {
          var _ := DelSlot(j);
        }
        deleted := deleted + 1;
      }
      MovedTable(s, slots[..], chosen, None);
      WithoutBound(s, n);
    }

    method SetNodeAsMaster(n: Id)
      requires n in nodes
      modifies this`nodes
      ensures View() == ClusterNode.SetNodeAsMaster(old(View()), n)
    {
      if !nodes[n].master {
        nodes := nodes[n := nodes[n].(master := true, slaveof := None)];
      }
    }

    /** The loop of clusterFailoverReplaceYourMaster. */
    method TakeSlots(n: Id)
      requires Agree() && n in nodes && me in nodes
      modifies this`bits, this`numslots, slots
      ensures Agree() && View() == old(View()).(slots := Taken(old(View()).slots, n, me))
    {
      hide Coherent, TableOf, Bound, Moved, Taken;
      ghost var s := slots[..];
      ghost var chosen := Bound(s, n);
      MoveStart(s, chosen, Some(me));
      for j := 0 to SLOTS
        invariant Agree()
        invariant Moved(s, slots[..], j, chosen, Some(me))
      {
        CoherentHas(slots[..], bits, numslots, n, j);
        BoundHas(s, j, n);
        MoveNext(s, slots[..], j, chosen, Some(me));
        if j in bits[n] {
          ghost var t := slots[..];
          var _ := DelSlot(j);
          var _ := AddSlot(me, j);
          assert slots[..] == t[j := Some(me)];
        }
      }
      MovedTable(s, slots[..], chosen, Some(me));
      TakenBound(s, n, me);
    }

    /** clusterFailoverReplaceYourMaster. */
    method ReplaceMaster(rejoining: bool)
      requires Valid()
      modifies this`nodes, this`bits, this`numslots, this`size, slots
      ensures Valid() && View() == ClusterNode.ReplaceMaster(old(View()), rejoining)
      ensures me in old(nodes) && (old(nodes)[me].master || old(nodes)[me].slaveof.None? ==> View() == old(View()))
      ensures !old(nodes)[me].master && old(nodes)[me].slaveof.Some? ==>
        && ClusterFacts.Succeeds(old(View()), View(), old(nodes)[me].slaveof.value)
        && size == if rejoining then old(size) else |ClusterFacts.ServingMasters(View())|
    {
      hide Coherent, TableOf, Bound, Links, Serving, ClusterFacts.Succeeds, ClusterFacts.ServingMasters;
      LinkedMe(View());
      ClusterFacts.TakesOver(View(), rejoining);
      if nodes[me].master || nodes[me].slaveof.None? { return; }
      TakeOverLinked(View());
      var master := nodes[me].slaveof.value;
      SetNodeAsMaster(me);
      TakeSlots(master);
      assert View() == TakeOver(old(View()));
      if !rejoining { UpdateSize(); }
    }

    /** The loop of clusterDelNode. */
    method Unassign(n: Id)
      requires Agree()
      modifies this`bits, this`numslots, this`migrating, this`importing, slots
      ensures Agree()
      ensures View() == old(View()).(slots := Without(old(View()).slots, n),
        migrating := Without(old(migrating), n), importing := Without(old(importing), n))
    {
      hide Coherent, TableOf, Bound, Moved, Dropped, Without;
      ghost var s, m, i := slots[..], migrating, importing;
      ghost var chosen := Bound(s, n);
      MoveStart(s, chosen, None);
      DropStart(m, n);
      DropStart(i, n);
      for j := 0 to SLOTS
        invariant Agree()
        invariant Moved(s, slots[..], j, chosen, None)
        invariant Dropped(i, importing, j, n) && Dropped(m, migrating, j, n)
      {
        BoundHas(s, j, n);
        MoveNext(s, slots[..], j, chosen, None);
        DropNext(i, importing, j, n);
        DropNext(m, migrating, j, n);
        if j in importing && importing[j] == n { importing := importing - {j}; }
        if j in migrating && migrating[j] == n { migrating := migrating - {j}; }
        if slots[j] == Some(n) {
          var _ := DelSlot(j);
        }
      }
      MovedTable(s, slots[..], chosen, None);
      WithoutBound(s, n);
      DroppedAll(i, importing, n);
      DroppedAll(m, migrating, n);
    }

    /** clusterDelNode. */
    method DelNode(n: Id)
      requires Valid() && n in nodes && n != me && !(!nodes[me].master && nodes[me].slaveof == Some(n))
      modifies this`nodes, this`bits, this`numslots, this`migrating, this`importing, slots
      ensures Valid() && View() == ClusterNode.DelNode(old(View()), n)
    {
      hide Coherent, TableOf, Without, Links, InSlots, Freed, ClusterNode.DelNode;
      ghost var c := View();
      DelNodeLinked(c, n);
      DelNodeIs(c, n);
      FreedKeys(nodes, n);
      Unassign(n);
      FreeCoherent(slots[..], bits, numslots, n, c.slots);
      nodes, bits, numslots := Freed(nodes, n), bits - {n}, numslots - {n};
    }

    // ---- commands ----

    /** The argument check of CLUSTER ADDSLOTS and DELSLOTS. */
    method CheckSlots(args: seq<int>, del: bool) returns (ok: bool, marked: set<nat>)
      requires Agree()
      ensures ok <==> Accepts(slots[..], args, del)
      ensures ok ==> marked == set a: nat | a in args
    {
      hide Coherent;
      marked := {};
      for j := 0 to |args|
        invariant marked == set a: nat | a in args[..j]
        invariant Accepts(slots[..], args[..j], del)
      {
        var a := args[j];
        if !(0 <= a < SLOTS) || slots[a].Some? != del { return false, {}; }
        if a in marked {
          assert exists k :: 0 <= k < j && args[k] == args[j];
          return false, {};
        }
        assert args[..j + 1] == args[..j] + [a];
        marked := marked + {a};
      }
      assert args[..|args|] == args;
      ok := true;
    }

    /** The second loop of CLUSTER ADDSLOTS and DELSLOTS; no slot operation fails. */
    method ChangeSlots(marked: set<nat>, del: bool)
      requires Agree() && me in nodes && forall j :: j in marked ==> j < SLOTS && slots[j].Some? == del
      modifies this`bits, this`numslots, this`importing, slots
      ensures Agree() && importing == old(importing) - marked
      ensures Moved(old(slots[..]), slots[..], SLOTS, marked, if del then None else Some(me))
    {
      hide Coherent, TableOf, Moved, InSlots;
      ghost var s, o: Option<Id> := slots[..], if del then None else Some(me);
      MoveStart(s, marked, o);
      assert importing == importing - set j | j in marked && j < 0;
      for j := 0 to SLOTS
        invariant Agree()
        invariant Moved(s, slots[..], j, marked, o)
        invariant importing == old(importing) - set k | k in marked && k < j
      {
        MoveNext(s, slots[..], j, marked, o);
        if j in marked {
          InSlotsLess(importing, j);
          importing := importing - {j};
          var done: bool;
          if del { done := DelSlot(j); } else { done := AddSlot(me, j); }
          assert done;
        }
      }
      assert importing == old(importing) - marked;
    }

    /** CLUSTER ADDSLOTS and DELSLOTS: all of the slots or none. */
    method AddDelSlots(args: seq<int>, del: bool) returns (ok: bool)
      requires Valid()
      modifies this`bits, this`numslots, this`importing, slots
      ensures Valid() && ok == Accepts(old(slots[..]), args, del)
      ensures ok ==>
        View() == Apply(old(View()), var js := set a: nat | a in args; if del then DelSlots(js) else AddSlots(js))
      ensures !ok ==> View() == old(View())
      ensures ok ==> forall j :: 0 <= j < SLOTS ==>
        slots[j] == if j in args then (if del then None else Some(me)) else old(slots[j])
      ensures ok ==> forall j :: j in importing <==> j in old(importing) && j !in args
    {
      hide Coherent, TableOf, Links, Moved, Accepts, InSlots, Apply;
      ghost var s, c := slots[..], View();
      var marked: set<nat>;
      ok, marked := CheckSlots(args, del);
      if !ok { return; }
      LinkedMe(c);
      AcceptsMarked(s, args, del, marked);
      ChangeSlots(marked, del);
      MovedTable(s, slots[..], marked, if del then None else Some(me));
      MovedAll(s, slots[..], marked, if del then None else Some(me));
      AppliesHere(c, s, args, del);
    }

    /** clusterGetMaxEpoch. */
    method GetMaxEpoch() returns (max: nat)
      ensures currentEpoch <= max && forall n :: n in nodes ==> nodes[n].configEpoch <= max
      ensures max == currentEpoch || exists n :: n in nodes && nodes[n].configEpoch == max
    {
      max := 0;
      var rest := nodes.Keys;
      while rest != {}
        invariant rest <= nodes.Keys
        invariant forall n :: n in nodes && n !in rest ==> nodes[n].configEpoch <= max
        invariant max == 0 || exists n :: n in nodes && nodes[n].configEpoch == max
      {
        var n :| n in rest;
        if nodes[n].configEpoch > max { max := nodes[n].configEpoch; }
        rest := rest - {n};
      }
      if max < currentEpoch { max := currentEpoch; }
    }

    /** clusterBumpConfigEpochWithoutConsensus. */
    method BumpEpoch() returns (ok: bool)
      requires me in nodes
      modifies this`nodes, this`currentEpoch
      ensures View() == ClusterNode.BumpEpoch(old(View()))
      ensures ok <==> old(nodes)[me].configEpoch == 0 || !OwnsMaxEpoch(old(View()))
    {
      hide TableOf;
      var max := GetMaxEpoch();
      if nodes[me].configEpoch == 0 || nodes[me].configEpoch != max {
        currentEpoch := currentEpoch + 1;
        nodes := nodes[me := nodes[me].(configEpoch := currentEpoch)];
        return true;
      }
      return false;
    }

    /** clusterDelSlot and clusterAddSlot in a row. */
    method Reassign(j: nat, n: Id)
      requires Agree() && j < SLOTS && n in nodes
      modifies this`bits, this`numslots, slots
      ensures Agree() && View() == old(View()).(slots := old(View()).slots[j := n])
    {
      hide Coherent, TableOf;
      ghost var s := slots[..];
      var _ := DelSlot(j);
      var _ := AddSlot(n, j);
      assert slots[..] == s[j := Some(n)];
      TableSet(s, j, Some(n));
    }

    /** The part of CLUSTER SETSLOT NODE that closes a migration or an import. */
    method Close(j: nat, n: Id, hasKeys: bool)
      requires Agree() && me in nodes
      modifies this`nodes, this`currentEpoch, this`migrating, this`importing
      ensures Agree() && nodes.Keys == old(nodes).Keys && View() == Closed(old(View()), j, n, hasKeys)
    {
      hide Coherent, TableOf, ClusterNode.BumpEpoch;
      ghost var m := migrating;
      if !hasKeys && j in migrating { migrating := migrating - {j}; }
      assert migrating == if !hasKeys then m - {j} else m;
      if n == me && j in importing {
        BumpKeys(View());
        var _ := BumpEpoch();
        importing := importing - {j};
      }
    }

    /** CLUSTER SETSLOT NODE, where hasKeys says whether this node holds keys of the slot. */
    method SetSlotNode(j: nat, n: Id, hasKeys: bool) returns (ok: bool)
      requires Valid() && j < SLOTS
      modifies this`nodes, this`currentEpoch, this`bits, this`numslots, this`migrating, this`importing, slots
      ensures Valid() && View() == Apply(old(View()), Command.SetSlotNode(j, n, hasKeys))
      ensures me in old(nodes)
      ensures ok <==> old(nodes)[me].master && n in old(nodes) && !(old(slots[j]) == Some(me) && n != me && hasKeys)
    {
      hide Coherent, TableOf, Links, Apply, SetSlot, Closed, InSlots;
      LinkedMe(View());
      TableHas(slots[..], j);
      SetSlotNodeIs(View(), j, n, hasKeys);
      if !nodes[me].master || n !in nodes { return false; }
      if slots[j] == Some(me) && n != me && hasKeys { return false; }
      Close(j, n, hasKeys);
      Reassign(j, n);
      ok := true;
    }

    /** CLUSTER REPLICATE, where hasKeys says whether this node holds any key. When it is accepted,
        ok says whether the assertion of clusterSetMaster holds. */
    method Replicate(n: Id, hasKeys: bool) returns (accepted: bool, ok: bool)
      requires Valid()
      modifies this`nodes, this`migrating, this`importing
      ensures Valid() && View() == Apply(old(View()), Command.Replicate(n, hasKeys))
      ensures accepted <==> ReplicateAccepted(old(View()), n, hasKeys)
      ensures ok <==> !accepted || SlotsOf(old(View()), me) == {}
    {
      hide Coherent, TableOf, Links, SlotsOf, ClusterNode.SetMaster;
      LinkedMe(View());
      CoherentCount(slots[..], bits, numslots, me, View());
      accepted, ok := false, true;
      if n !in nodes || n == me || !nodes[n].master { return; }
      if nodes[me].master && (numslots[me] != 0 || hasKeys) { return; }
      accepted := true;
      ok := SetMaster(n);
    }

    // ---- packets ----

    method SeeHeader(h: Header)
      requires Valid() && h.sender != me
      modifies this`nodes, this`currentEpoch
      ensures Valid() && View() == ClusterNode.SeeHeader(old(View()), h)
    {
      hide Coherent, TableOf, Links;
      SeeHeaderLinked(View(), h);
      if h.sender !in nodes { return; }
      if h.currentEpoch > currentEpoch { currentEpoch := h.currentEpoch; }
      if h.configEpoch > nodes[h.sender].configEpoch {
        nodes := nodes[h.sender := nodes[h.sender].(configEpoch := h.configEpoch)];
      }
      assert nodes == ClusterNode.SeeHeader(old(View()), h).nodes;
    }

    method SeeRole(h: Header)
      requires Valid() && h.sender in nodes && h.sender != me
      modifies this`nodes, this`bits, this`numslots, slots
      ensures Valid() && View() == ClusterNode.SeeRole(old(View()), h)
    {
      hide Coherent, TableOf, Links, ClusterNode.SeeRole;
      ghost var c := View();
      SeeRoleLinked(c, h);
      RoleIs(c, h);
      if h.slaveof.None? {
        SetNodeAsMaster(h.sender);
      } else {
        if nodes[h.sender].master {
          var _ := DelNodeSlots(h.sender);
          nodes := nodes[h.sender := nodes[h.sender].(master := false)];
        }
        if h.slaveof.value in nodes && nodes[h.sender].slaveof != h.slaveof {
          nodes := nodes[h.sender := nodes[h.sender].(slaveof := h.slaveof)];
        }
      }
    }

    /** clusterHandleConfigEpochCollision. */
    method FixCollision(n: Id)
      requires Valid() && n in nodes
      modifies this`nodes, this`currentEpoch
      ensures Valid() && View() == ClusterNode.FixCollision(old(View()), n)
    {
      hide Coherent, TableOf, Links;
      LinkedMe(View());
      FixKeepsLinks(View(), n);
      if nodes[n].configEpoch != nodes[me].configEpoch || !nodes[n].master || !nodes[me].master { return; }
      if n <= me { return; }
      currentEpoch := currentEpoch + 1;
      nodes := nodes[me := nodes[me].(configEpoch := currentEpoch)];
    }

    /** A claimed slot whose owner has a greater epoch than the claim, the first of them. */
    method FindStale(h: Header) returns (owner: Option<Id>)
      requires Valid()
      ensures owner.Some? ==>
        exists j :: IsStale(View(), h, j) && View().slots[j] == owner.value
                    && forall k :: k < j ==> !IsStale(View(), h, k)
      ensures owner.None? ==> forall j :: !IsStale(View(), h, j)
    {
      hide Coherent, Links, TableOf;
      TableIs(slots[..]);
      OwnersKnown(View());
      for j := 0 to SLOTS
        invariant forall k :: 0 <= k < j ==> !IsStale(View(), h, k)
      {
        if j in h.slots && slots[j].Some? && slots[j] != Some(h.sender)
           && nodes[slots[j].value].configEpoch > h.configEpoch
        {
          assert IsStale(View(), h, j);
          return slots[j];
        }
      }
      return None;
    }

    /** What a ping does with the slots it claims: rebinding, and an UPDATE about the owner of a
        slot that the sender claims under an old epoch. */
    method SeeClaim(h: Header, hasKeys: set<nat>) returns (ok: bool, deleted: set<nat>, answer: Option<Id>)
      requires Valid() && h.sender in nodes && h.sender != me
      modifies this`nodes, this`bits, this`numslots, this`migrating, this`importing, slots
      ensures Valid() && View() == ClusterNode.SeeClaim(old(View()), h)
      ensures !ok ==> me in old(nodes) && !old(nodes)[me].master && me in numslots && numslots[me] != 0
      ensures me in old(nodes) && me in nodes && deleted == Cleared(old(View()), View(), hasKeys)
      ensures answer.Some? ==> exists j :: IsStale(View(), h, j) && View().slots[j] == answer.value
      ensures answer.Some? <==> ClusterNode.Dirty(old(View()), h) && exists j :: IsStale(View(), h, j)
    {
      hide Coherent, TableOf, Links, ClusterNode.UpdateSlots, SlotsOf, IsStale;
      ok, deleted, answer := true, {}, None;
      LinkedMe(View());
      LinkedSender(View(), h.sender);
      var master := nodes[h.sender].master;
      var owner := if master then Some(h.sender) else nodes[h.sender].slaveof;
      if owner.Some? { CoherentCount(slots[..], bits, numslots, owner.value, View()); }
      var dirty := owner.Some? && bits[owner.value] != h.slots;
      NothingCleared(View(), hasKeys);
      if master && dirty {
        ok, deleted := UpdateSlots(h.sender, h.configEpoch, h.slots, hasKeys);
      }
      if dirty { answer := FindStale(h); }
    }

    /** PING, PONG and MEET packets; ok is false only when a replica that serves slots of its
        own is told to follow another master. */
    method OnPing(h: Header, hasKeys: set<nat>) returns (ok: bool, deleted: set<nat>, answer: Option<Id>)
      requires Valid() && h.sender != me
      modifies this`nodes, this`currentEpoch, this`bits, this`numslots, this`migrating, this`importing, slots
      ensures Valid() && View() == ClusterNode.OnPing(old(View()), h)
      ensures !ok ==> me in old(nodes) && !old(nodes)[me].master && me in numslots && numslots[me] != 0
      ensures me in old(nodes) && me in nodes && deleted == Cleared(old(View()), View(), hasKeys)
      ensures answer.Some? ==> exists j :: IsStale(View(), h, j) && View().slots[j] == answer.value
      ensures answer.Some? <==> h.sender in old(nodes) && ClaimIsStale(BeforeClaim(old(View()), h), h)
    {
      hide Coherent, TableOf, Links, SlotsOf, Cleared, IsStale, ClusterNode.OnPing, ClusterNode.SeeClaim,
        ClusterNode.FixCollision,
        ClusterNode.SeeHeader, ClusterNode.SeeRole, BeforeClaim, ClusterNode.Dirty;
      ok, deleted, answer := true, {}, None;
      ghost var c := View();
      LinkedMe(c);
      NothingCleared(c, hasKeys);
      OnPingIs(c, h);
      if h.sender !in nodes { return; }
      SeeSender(h);
      ghost var c2 := View();
      BeforeClaimIs(c, h);
      ok, deleted, answer := SeeClaim(h, hasKeys);
      ghost var c3 := View();
      SameCleared(c, c2, c3, hasKeys);
      FixIsQuiet(c3, h);
      if nodes[me].master && nodes[h.sender].master && h.configEpoch == nodes[me].configEpoch {
        FixCollision(h.sender);
        SameClearedAfter(c, c3, View(), hasKeys);
      }
    }

    /** The epochs and the role in the header of a known sender. */
    method SeeSender(h: Header)
      requires Valid() && h.sender in nodes && h.sender != me
      modifies this`nodes, this`currentEpoch, this`bits, this`numslots, slots
      ensures Valid() && nodes.Keys == old(nodes).Keys && Linked(ClusterNode.SeeHeader(old(View()), h))
      ensures h.sender in ClusterNode.SeeHeader(old(View()), h).nodes
      ensures View() == ClusterNode.SeeRole(ClusterNode.SeeHeader(old(View()), h), h)
      ensures me in nodes && SameRole(old(View()), View()) && SameMine(old(View()), View())
    {
      hide Coherent, TableOf, Links, SlotsOf, SameMine, ClusterNode.SeeHeader, ClusterNode.SeeRole;
      ghost var c := View();
      LinkedMe(c);
      SeeHeaderLinked(c, h);
      RoleKeepsMe(c, h);
      SeeHeader(h);
      SeeRoleLinked(View(), h);
      SeeRole(h);
    }

    /** UPDATE packets. */
    method OnUpdate(h: Header, about: Id, epoch: nat, claimed: set<nat>, hasKeys: set<nat>)
      returns (ok: bool, deleted: set<nat>)
      requires Valid() && h.sender != me
      modifies this`nodes, this`currentEpoch, this`bits, this`numslots, this`migrating, this`importing, slots
      ensures Valid() && View() == ClusterNode.OnUpdate(old(View()), h, about, epoch, claimed)
      ensures !ok ==> me in old(nodes) && !old(nodes)[me].master && me in numslots && numslots[me] != 0
      ensures me in old(nodes) && me in nodes && deleted == Cleared(old(View()), View(), hasKeys)
      ensures h.sender in old(nodes) && !ClusterFacts.IsNews(old(View()), h, about, epoch) ==>
        ClusterFacts.Heard(old(View()), View(), h)
      ensures ClusterFacts.IsNews(old(View()), h, about, epoch) ==>
        ClusterFacts.Informed(old(View()), View(), h, about, epoch)
      ensures ClusterFacts.IsNews(old(View()), h, about, epoch) && about != me ==>
        && ClusterFacts.ClaimApplied(old(View()), View(), about, epoch, claimed)
        && ClusterFacts.RoleAfterClaim(old(View()), View(), about)
    {
      hide Coherent, TableOf, Links, SlotsOf, Cleared, ClusterNode.SeeHeader, ClusterNode.UpdateSlots,
        ClusterNode.SetNodeAsMaster, ClusterFacts.Heard, ClusterFacts.Informed, ClusterFacts.ClaimApplied,
        ClusterFacts.RoleAfterClaim, ClusterFacts.IsNews;
      ok, deleted := true, {};
      ghost var c := View();
      ClusterFacts.UpdateExactly(c, h, about, epoch, claimed);
      LinkedMe(c);
      HeaderKeepsMe(c, h);
      SeeHeaderLinked(c, h);
      var known := h.sender in nodes;
      SeeHeader(h);
      ghost var c1 := View();
      SameSlotsCleared(c, c1, hasKeys);
      if !known || about !in nodes { return; }
      if nodes[about].configEpoch >= epoch { return; }
      RaiseLinked(c1, about, epoch);
      RaiseKeepsMe(c1, about);
      SetNodeAsMaster(about);
      nodes := nodes[about := nodes[about].(configEpoch := epoch)];
      ghost var c3 := View();
      ok, deleted := UpdateSlots(about, epoch, claimed, hasKeys);
      if about == me {
        AboutItself(c3, epoch, claimed);
        SameSlotsCleared(c, c3, hasKeys);
        SameSlotsCleared(c3, c3, hasKeys);
      } else {
        SameCleared(c, c3, View(), hasKeys);
      }
    }

    /** The last test of clusterSendFailoverAuthIfNeeded: no claimed slot has an owner with a
        greater epoch. */
    method ClaimsAreRecent(h: Header) returns (ok: bool)
      requires Valid()
      ensures ok <==> forall j :: j in h.slots && j in View().slots ==>
        nodes[View().slots[j]].configEpoch <= h.configEpoch
    {
      hide Coherent, Links, TableOf;
      TableIs(slots[..]);
      OwnersKnown(View());
      for j := 0 to SLOTS
        invariant forall k :: 0 <= k < j && k in h.slots && slots[k].Some? ==>
          nodes[slots[k].value].configEpoch <= h.configEpoch
      {
        TableHas(slots[..], j);
        if j in h.slots && slots[j].Some? && nodes[slots[j].value].configEpoch > h.configEpoch { return false; }
      }
      return true;
    }

    /** The tests of clusterSendFailoverAuthIfNeeded. */
    method Grants(h: Header, tooSoon: bool) returns (granted: bool)
      requires Valid() && h.sender in nodes
      ensures granted <==> GrantsVote(View(), h, tooSoon)
    {
      hide Coherent, TableOf, Links, SlotsOf, InSlots;
      LinkedMe(View());
      LinkedSender(View(), h.sender);
      CoherentCount(slots[..], bits, numslots, me, View());
      OwnersKnown(View());
      if !nodes[me].master || numslots[me] == 0 { return false; }
      if h.currentEpoch < currentEpoch { return false; }
      if lastVoteEpoch == currentEpoch { return false; }
      var x := nodes[h.sender];
      if x.master || x.slaveof.None? || (!nodes[x.slaveof.value].failed && !h.forceAck) { return false; }
      if tooSoon { return false; }
      granted := ClaimsAreRecent(h);
    }

    /** A vote request: clusterSendFailoverAuthIfNeeded. */
    method OnRequest(h: Header, tooSoon: bool) returns (granted: bool)
      requires Valid() && h.sender != me
      modifies this`nodes, this`currentEpoch, this`lastVoteEpoch
      ensures Valid() && (View(), granted) == ClusterNode.OnRequest(old(View()), h, tooSoon)
      ensures granted <==> ClusterFacts.MayVote(old(View()), h, tooSoon)
      ensures lastVoteEpoch == if granted then h.currentEpoch else old(lastVoteEpoch)
      ensures h.sender in old(nodes) ==> ClusterFacts.Heard(old(View()), View(), h)
    {
      hide Coherent, TableOf, Links, InSlots, GrantsVote, ClusterNode.SeeHeader, ClusterFacts.MayVote,
        ClusterFacts.Heard;
      ClusterFacts.VoteExactly(View(), h, tooSoon);
      SeeHeaderLinked(View(), h);
      if h.sender !in nodes { return false; }
      SeeHeader(h);
      granted := Grants(h, tooSoon);
      if granted { lastVoteEpoch := currentEpoch; }
    }

    /** A vote received. */
    method OnAck(h: Header)
      requires Valid() && h.sender != me
      modifies this`nodes, this`currentEpoch, this`auth
      ensures Valid() && View() == ClusterNode.OnAck(old(View()), h)
      ensures auth == old(auth).(count := old(auth).count + if ClusterFacts.Counts(old(View()), h) then 1 else 0)
    {
      hide Coherent, TableOf, Links, ClusterNode.SeeHeader, ClusterFacts.Heard, ClusterFacts.Counts;
      ClusterFacts.AckExactly(View(), h);
      SeeHeaderLinked(View(), h);
      SeeHeader(h);
      if h.sender !in nodes { return; }
      CoherentCount(slots[..], bits, numslots, h.sender, View());
      if nodes[h.sender].master && numslots[h.sender] > 0 && h.currentEpoch >= auth.epoch {
        auth := auth.(count := auth.count + 1);
      }
    }

    /** The end of clusterHandleSlaveFailover. */
    method Proceed(e: Env, recent: bool) returns (o: Outcome)
      requires Valid()
      modifies this`nodes, this`currentEpoch, this`bits, this`numslots, this`auth, this`size, slots
      ensures Valid() && (View(), o) == ClusterNode.Proceed(old(View()), e, recent)
    {
      hide Coherent, TableOf, Links, SlotsOf, InSlots, ClusterNode.ReplaceMaster;
      LinkedMe(View());
      var quorum := size / 2 + 1;
      if !auth.sent && !e.mfEnd && e.rank > auth.rank {
        auth := auth.(time := auth.time + (e.rank - auth.rank) * 1000, rank := e.rank);
      }
      if e.now < auth.time { return Idle; }
      if !recent { return Idle; }
      if !auth.sent {
        currentEpoch := currentEpoch + 1;
        auth := auth.(epoch := currentEpoch, sent := true);
        return Started;
      }
      if auth.count >= quorum {
        Win(e.rejoining);
        return Won;
      }
      return Idle;
    }

    /** clusterHandleSlaveFailover. */
    method HandleFailover(e: Env) returns (o: Outcome)
      requires Valid()
      modifies this`nodes, this`currentEpoch, this`bits, this`numslots, this`auth, this`size, slots
      ensures Valid() && (View(), o) == ClusterNode.HandleFailover(old(View()), e)
      ensures o == Started <==> ClusterFacts.MayProceed(old(View()), e) && !old(auth).sent
      ensures o == Won <==>
        ClusterFacts.MayProceed(old(View()), e) && old(auth).sent && 2 * old(auth).count > old(size)
      ensures o == Won ==> ClusterFacts.TookOver(old(View()), View())
    {
      hide Coherent, TableOf, Links, SlotsOf, InSlots, ClusterNode.Proceed, ClusterFacts.MayProceed,
        ClusterFacts.TookOver;
      LinkedMe(View());
      ClusterFacts.OutcomeExactly(View(), e);
      var age := e.now - auth.time;
      var timeout := e.nodeTimeout * 2;
      if timeout < 2000 { timeout := 2000; }
      var x := nodes[me];
      if x.master || x.slaveof.None? || (!nodes[x.slaveof.value].failed && !e.manual) { return Idle; }
      CoherentCount(slots[..], bits, numslots, x.slaveof.value, View());
      if numslots[x.slaveof.value] == 0 { return Idle; }
      if e.dataTooOld && !e.manual { return Idle; }
      if age > timeout * 2 {
        auth := auth.(time := e.now + e.delay, count := 0, sent := false, rank := e.rank);
        auth := auth.(time := auth.time + auth.rank * 1000);
        if e.mfEnd { auth := auth.(time := e.now, rank := 0); }
        return Reset;
      }
      o := Proceed(e, age <= timeout);
    }

    /** The end of a won election: the epoch of the election becomes that of this node. */
    method Win(rejoining: bool)
      requires Valid() && me in nodes
      modifies this`nodes, this`bits, this`numslots, this`size, slots
      ensures var x := old(nodes)[me].(configEpoch := Max(old(nodes)[me].configEpoch, auth.epoch));
        var c := WithNode(old(View()), me, x);
        Linked(c) && Valid() && View() == ClusterNode.ReplaceMaster(c, rejoining)
    {
      hide Coherent, TableOf, Links, ClusterNode.ReplaceMaster;
      RaiseMine(View());
      if nodes[me].configEpoch < auth.epoch {
        nodes := nodes[me := nodes[me].(configEpoch := auth.epoch)];
      }
      ReplaceMaster(rejoining);
    }

    /** The part of clusterUpdateState that counts the masters serving slots. */
    method UpdateSize()
      requires Valid()
      modifies this`size
      ensures Valid() && View() == Apply(old(View()), UpdateState)
    {
      hide Coherent, TableOf, Links;
      ghost var c := View();
      size := 0;
      var rest := nodes.Keys;
      ghost var counted := {};
      while rest != {}
        invariant rest <= nodes.Keys && size == |counted|
        invariant counted == set n | n in nodes && n !in rest && nodes[n].master && SlotsOf(c, n) != {}
      {
        var n :| n in rest;
        CoherentCount(slots[..], bits, numslots, n, c);
        if nodes[n].master && numslots[n] != 0 {
          counted := counted + {n};
          size := size + 1;
        }
        rest := rest - {n};
      }
      assert counted == Serving(c);
    }
  }

  lemma SeeHeaderLinked(c: Cluster, h: Header)
    requires Linked(c) && h.sender != c.me
    ensures Linked(ClusterNode.SeeHeader(c, h)) && ClusterNode.SeeHeader(c, h).nodes.Keys == c.nodes.Keys
    ensures ClusterNode.SeeHeader(c, h).me == c.me
  {
  }

  lemma FixKeepsLinks(c: Cluster, n: Id)
    requires Linked(c) && n in c.nodes
    ensures Linked(ClusterNode.FixCollision(c, n))
  {
  }

  /** The same slots are bound to this node. */
  ghost predicate SameMine(c: Cluster, d: Cluster) {
    d.me == c.me && forall j :: (j in c.slots && c.slots[j] == c.me) <==> (j in d.slots && d.slots[j] == c.me)
  }

  lemma RoleKeepsMe(c: Cluster, h: Header)
    requires Linked(c) && h.sender != c.me && h.sender in c.nodes
    ensures h.sender in ClusterNode.SeeHeader(c, h).nodes && c.me in c.nodes
    ensures var d := ClusterNode.SeeRole(ClusterNode.SeeHeader(c, h), h);
      d.nodes.Keys == c.nodes.Keys && SameRole(c, d) && SameMine(c, d)
  {
  }

  lemma RoleIs(c: Cluster, h: Header)
    requires h.sender in c.nodes
    ensures h.slaveof.None? ==> ClusterNode.SeeRole(c, h) == ClusterNode.SetNodeAsMaster(c, h.sender)
    ensures h.slaveof.Some? ==>
      (var x := c.nodes[h.sender];
       var nodes := if x.master then c.nodes[h.sender := x.(master := false)] else c.nodes;
       var y := nodes[h.sender];
       ClusterNode.SeeRole(c, h) == (if x.master then WithoutSlots(c, h.sender) else c)
         .(nodes := if h.slaveof.value in c.nodes && x.slaveof != h.slaveof
                    then nodes[h.sender := y.(slaveof := h.slaveof)] else nodes))
  {
    if h.slaveof.Some? {
      var x := c.nodes[h.sender];
      var nodes := if x.master then c.nodes[h.sender := x.(master := false)] else c.nodes;
      assert ClusterNode.SeeRole(c, h).nodes ==
        if h.slaveof.value in c.nodes && x.slaveof != h.slaveof
        then nodes[h.sender := nodes[h.sender].(slaveof := h.slaveof)] else nodes;
    }
  }

  /** The configuration when the slots of a ping from a known sender are looked at. */
  ghost function BeforeClaim(c: Cluster, h: Header): (d: Cluster)
    requires Linked(c) && h.sender in c.nodes && h.sender != c.me
    ensures Linked(d) && h.sender in d.nodes
  {
    OnPingIs(c, h);
    ClusterNode.SeeRole(ClusterNode.SeeHeader(c, h), h)
  }

  lemma BeforeClaimIs(c: Cluster, h: Header)
    requires Linked(c) && h.sender in c.nodes && h.sender != c.me
    ensures Linked(ClusterNode.SeeHeader(c, h)) && h.sender in ClusterNode.SeeHeader(c, h).nodes
    ensures BeforeClaim(c, h) == ClusterNode.SeeRole(ClusterNode.SeeHeader(c, h), h)
  {
    hide Links, ClusterNode.SeeHeader, ClusterNode.SeeRole;
    OnPingIs(c, h);
  }

  /** The claim differs from what is known of the sender, and some slot of it then has a newer owner. */
  ghost predicate ClaimIsStale(c: Cluster, h: Header)
    requires Linked(c) && h.sender in c.nodes
  {
    ClusterNode.Dirty(c, h) && exists j :: IsStale(ClusterNode.SeeClaim(c, h), h, j)
  }

  lemma OnPingIs(c: Cluster, h: Header)
    requires Linked(c) && h.sender != c.me
    ensures h.sender !in c.nodes ==> ClusterNode.OnPing(c, h) == c
    ensures h.sender in c.nodes ==>
      (var c1 := ClusterNode.SeeHeader(c, h);
       && Linked(c1) && h.sender in c1.nodes
       && var c2 := ClusterNode.SeeRole(c1, h);
          && Linked(c2) && h.sender in c2.nodes
          && var c3 := ClusterNode.SeeClaim(c2, h);
             && Linked(c3) && h.sender in c3.nodes && c3.me in c3.nodes && c3.me == c.me
             && ClusterNode.OnPing(c, h) ==
                if c3.nodes[c3.me].master && c3.nodes[h.sender].master && h.configEpoch == c3.nodes[c3.me].configEpoch
                then ClusterNode.FixCollision(c3, h.sender) else c3)
  {
    hide Links, SlotsOf, ClusterNode.SeeHeader, ClusterNode.SeeRole, ClusterNode.SeeClaim, ClusterNode.FixCollision;
    SeeHeaderLinked(c, h);
    if h.sender in c.nodes {
      var c1 := ClusterNode.SeeHeader(c, h);
      SeeRoleLinked(c1, h);
      var c2 := ClusterNode.SeeRole(c1, h);
      UpdateSlotsLinked(c2, h.sender, h.configEpoch, h.slots);
      ClaimKeepsNodes(c2, h);
      LinkedMe(ClusterNode.SeeClaim(c2, h));
    }
  }

  lemma AboutItself(c: Cluster, epoch: nat, claimed: set<nat>)
    requires Linked(c) && c.me in c.nodes
    ensures ClusterNode.UpdateSlots(c, c.me, epoch, claimed) == c
  {
  }

  lemma LinkedSender(c: Cluster, n: Id)
    requires Linked(c) && n in c.nodes
    ensures c.nodes[n].slaveof.Some? ==> c.nodes[n].slaveof.value in c.nodes
  {
  }

  lemma OwnersKnown(c: Cluster)
    requires Linked(c)
    ensures forall j :: j in c.slots ==> c.slots[j] in c.nodes
  {
  }

  lemma TableIs(s: seq<Option<Id>>)
    ensures forall j: nat :: j in TableOf(s) <==> j < |s| && s[j].Some?
    ensures forall j: nat :: j < |s| && s[j].Some? ==> TableOf(s)[j] == s[j].value
  {
  }

  lemma RaiseLinked(c: Cluster, n: Id, epoch: nat)
    requires Linked(c) && n in c.nodes
    ensures n in ClusterNode.SetNodeAsMaster(c, n).nodes && ClusterNode.SetNodeAsMaster(c, n).nodes.Keys == c.nodes.Keys
    ensures var d := ClusterNode.SetNodeAsMaster(c, n); Linked(WithNode(d, n, d.nodes[n].(configEpoch := epoch)))
  {
  }

  lemma HeaderKeepsMe(c: Cluster, h: Header)
    requires Linked(c) && h.sender != c.me
    ensures c.me in c.nodes && c.me in ClusterNode.SeeHeader(c, h).nodes && ClusterNode.SeeHeader(c, h).me == c.me
    ensures ClusterNode.SeeHeader(c, h).nodes[c.me] == c.nodes[c.me] && ClusterNode.SeeHeader(c, h).slots == c.slots
  {
  }

  lemma RaiseKeepsMe(c: Cluster, n: Id)
    requires Linked(c) && n in c.nodes
    ensures c.me in c.nodes && c.me in ClusterNode.SetNodeAsMaster(c, n).nodes
    ensures ClusterNode.SetNodeAsMaster(c, n).nodes[c.me].master <==> c.nodes[c.me].master || c.me == n
    ensures n != c.me ==> ClusterNode.SetNodeAsMaster(c, n).nodes[c.me] == c.nodes[c.me]
    ensures ClusterNode.SetNodeAsMaster(c, n).slots == c.slots
  {
  }

  lemma RaiseMine(c: Cluster)
    requires Linked(c)
    ensures var x := c.nodes[c.me];
      c.nodes[c.me := x.(configEpoch := Max(x.configEpoch, c.auth.epoch))] ==
        (if x.configEpoch < c.auth.epoch then c.nodes[c.me := x.(configEpoch := c.auth.epoch)] else c.nodes)
      && Linked(WithNode(c, c.me, x.(configEpoch := Max(x.configEpoch, c.auth.epoch))))
  {
  }

  /** The configuration once a migration or an import of slot j is closed. */
  function Closed(c: Cluster, j: nat, n: Id, hasKeys: bool): Cluster
    requires c.me in c.nodes
  {
    var d := if !hasKeys then c.(migrating := c.migrating - {j}) else c;
    if n == c.me && j in c.importing then ClusterNode.BumpEpoch(d).(importing := c.importing - {j}) else d
  }

  lemma SetSlotNodeIs(c: Cluster, j: nat, n: Id, hasKeys: bool)
    requires Linked(c) && j < SLOTS
    ensures
      var mine := j in c.slots && c.slots[j] == c.me;
      var refused := !c.nodes[c.me].master || n !in c.nodes || (mine && n != c.me && hasKeys);
      var d := Apply(c, Command.SetSlotNode(j, n, hasKeys));
      && (refused ==> d == c)
      && (!refused ==> d == Closed(c, j, n, hasKeys).(slots := c.slots[j := n]) && Linked(d))
      && Closed(c, j, n, hasKeys).slots == c.slots
  {
    hide Links;
    if n in c.nodes {
      SetSlotLinked(c, j, n, hasKeys);
    }
  }

  /** Every argument is a slot in the right state, and none is repeated. */
  ghost predicate Accepts(slots: seq<Option<Id>>, args: seq<int>, del: bool) {
    && |slots| == SLOTS
    && (forall i :: 0 <= i < |args| ==> 0 <= args[i] < SLOTS && slots[args[i]].Some? == del)
    && (forall i, k :: 0 <= i < k < |args| ==> args[i] != args[k])
  }

  lemma AcceptsMarked(slots: seq<Option<Id>>, args: seq<int>, del: bool, marked: set<nat>)
    requires Accepts(slots, args, del) && marked == set a: nat | a in args
    ensures forall j :: j in marked ==> j < SLOTS && slots[j].Some? == del
  {
  }

  lemma InSlotsLess(m: map<nat, Id>, j: nat)
    requires InSlots(m)
    ensures InSlots(m - {j})
  {
  }

  lemma TableHas(s: seq<Option<Id>>, j: nat)
    requires j < |s|
    ensures j in TableOf(s) <==> s[j].Some?
    ensures s[j].Some? ==> TableOf(s)[j] == s[j].value
  {
  }

  lemma AppliesHere(c: Cluster, s: seq<Option<Id>>, args: seq<int>, del: bool)
    requires Linked(c) && c.slots == TableOf(s) && Accepts(s, args, del)
    ensures var js := set a: nat | a in args;
      var d := if del then Apply(c, DelSlots(js)) else Apply(c, AddSlots(js));
      && (del ==> d == c.(slots := c.slots - js, importing := c.importing - js))
      && (!del ==> d == c.(slots := c.slots + (map j | j in js :: c.me), importing := c.importing - js))
      && Linked(d)
  {
  }

  lemma SetSlotLinked(c: Cluster, j: nat, n: Id, hasKeys: bool)
    requires Linked(c) && j < SLOTS && n in c.nodes
    ensures Linked(SetSlot(c, j, n, hasKeys))
  {
  }

  lemma BumpKeys(c: Cluster)
    requires c.me in c.nodes
    ensures ClusterNode.BumpEpoch(c).nodes.Keys == c.nodes.Keys
    ensures var d := ClusterNode.BumpEpoch(c); d == c.(nodes := d.nodes, currentEpoch := d.currentEpoch)
  {
  }

  lemma CoherentHas(slots: seq<Option<Id>>, bits: map<Id, set<nat>>, numslots: map<Id, nat>, n: Id, j: nat)
    requires Coherent(slots, bits, numslots) && n in bits && j < SLOTS
    ensures j in bits[n] <==> slots[j] == Some(n)
  {
  }

  lemma WithoutBound(s: seq<Option<Id>>, n: Id)
    ensures TableOf(s) - Bound(s, n) == map j | j in TableOf(s) && TableOf(s)[j] != n :: TableOf(s)[j]
    ensures TableOf(s) - Bound(s, n) == Without(TableOf(s), n)
  {
  }

  function Taken(slots: map<nat, Id>, from: Id, to: Id): map<nat, Id> {
    map j | j in slots :: if slots[j] == from then to else slots[j]
  }

  lemma TakenBound(s: seq<Option<Id>>, from: Id, to: Id)
    ensures TableOf(s) + (map j | j in Bound(s, from) :: to) == Taken(TableOf(s), from, to)
    ensures forall j :: j in Bound(s, from) ==> j < |s|
  {
  }

  lemma TakeOverLinked(c: Cluster)
    requires Linked(c) && c.nodes[c.me].slaveof.Some?
    ensures Linked(TakeOver(c))
  {
  }

  /** The node table without n: replicas of n no longer know their master. */
  function Freed(nodes: map<Id, Node>, n: Id): map<Id, Node> {
    map x | x in nodes && x != n :: if nodes[x].slaveof == Some(n) then nodes[x].(slaveof := None) else nodes[x]
  }

  lemma FreedKeys(nodes: map<Id, Node>, n: Id)
    ensures Freed(nodes, n).Keys == nodes.Keys - {n}
  {
  }

  lemma DelNodeIs(c: Cluster, n: Id)
    ensures ClusterNode.DelNode(c, n) == c.(nodes := Freed(c.nodes, n),
      slots := Without(c.slots, n), migrating := Without(c.migrating, n), importing := Without(c.importing, n))
  {
  }

  lemma DelNodeLinked(c: Cluster, n: Id)
    requires Linked(c) && n != c.me && !(!c.nodes[c.me].master && c.nodes[c.me].slaveof == Some(n))
    ensures Linked(ClusterNode.DelNode(c, n))
  {
  }

  /** The entries below `upTo` that point to n have been removed. */
  ghost predicate Dropped(m: map<nat, Id>, m': map<nat, Id>, upTo: nat, n: Id) {
    && (forall j :: j in m' ==> j in m && m'[j] == m[j] && !(j < upTo && m[j] == n))
    && (forall j :: j in m && !(j < upTo && m[j] == n) ==> j in m')
  }

  lemma DropStart(m: map<nat, Id>, n: Id)
    ensures Dropped(m, m, 0, n)
  {
  }

  lemma DropNext(m: map<nat, Id>, m': map<nat, Id>, j: nat, n: Id)
    requires Dropped(m, m', j, n)
    ensures Dropped(m, if j in m' && m'[j] == n then m' - {j} else m', j + 1, n)
    ensures InSlots(m') ==> InSlots(m' - {j})
  {
  }

  lemma DroppedAll(m: map<nat, Id>, m': map<nat, Id>, n: Id)
    requires Dropped(m, m', SLOTS, n) && InSlots(m)
    ensures m' == Without(m, n)
  {
  }

  lemma FreeCoherent(slots: seq<Option<Id>>, bits: map<Id, set<nat>>, numslots: map<Id, nat>, n: Id,
                     table: map<nat, Id>)
    requires Coherent(slots, bits, numslots) && TableOf(slots) == Without(table, n)
    ensures Coherent(slots, bits - {n}, numslots - {n})
  {
    forall j: nat | j < SLOTS && slots[j].Some?
      ensures slots[j].value in bits - {n}
    {
      assert j in TableOf(slots);
    }
  }

  lemma SetMasterLinked(c: Cluster, n: Id)
    requires Linked(c) && n in c.nodes && n != c.me
    ensures Linked(ClusterNode.SetMaster(c, n)) && ClusterNode.SetMaster(c, n).nodes.Keys == c.nodes.Keys
  {
  }

  lemma NoSlots()
    ensures InSlots(map[])
  {
  }

  predicate SameRole(c: Cluster, d: Cluster)
    requires c.me in c.nodes && c.me in d.nodes
  {
    d.nodes[c.me].slaveof == c.nodes[c.me].slaveof && d.nodes[c.me].master == c.nodes[c.me].master
  }

  /** The slots whose keys are deleted when the configuration c becomes d: those this node lost,
      unless it started to follow another master, from which it will copy everything. */
  ghost function Cleared(c: Cluster, d: Cluster, hasKeys: set<nat>): set<nat>
    requires c.me in c.nodes && c.me in d.nodes
  {
    if !SameRole(c, d) then {} else hasKeys * (SlotsOf(c, c.me) - SlotsOf(d, c.me))
  }

  lemma DirtyIs(c: Cluster, s: seq<Option<Id>>, d: Cluster, t: seq<Option<Id>>, n: Id, chosen: set<nat>,
                hasKeys: set<nat>, dirty: set<nat>)
    requires c.slots == TableOf(s) && d.slots == TableOf(t) && n != c.me && |s| == SLOTS
    requires Moved(s, t, SLOTS, chosen, Some(n))
    requires forall k :: k in dirty <==> k in hasKeys && k < SLOTS && k in chosen && s[k] == Some(c.me)
    ensures dirty == hasKeys * (SlotsOf(c, c.me) - SlotsOf(d, c.me))
  {
    hide Moved;
    BoundIsSlotsOf(c, s, c.me);
    BoundIsSlotsOf(d, t, c.me);
    MovedAway(s, t, chosen, n, c.me);
  }

  lemma MovedAway(s: seq<Option<Id>>, t: seq<Option<Id>>, chosen: set<nat>, n: Id, m: Id)
    requires Moved(s, t, |s|, chosen, Some(n)) && n != m
    ensures forall k :: k in Bound(s, m) - Bound(t, m) <==> k in chosen && k < |s| && s[k] == Some(m)
  {
    forall k: nat
      ensures k in Bound(s, m) - Bound(t, m) <==> k in chosen && k < |s| && s[k] == Some(m)
    {
      if k < |s| {
        assert t[k] == if k in chosen then Some(n) else s[k];
      }
    }
  }

  /** A claim takes no slot from the node that makes it. */
  lemma NotFromItself(c: Cluster, n: Id, epoch: nat, claimed: set<nat>)
    requires Linked(c)
    ensures !Loses(c, n, epoch, claimed, n)
  {
    hide Links;
  }

  lemma FollowsAnother(c: Cluster, d: Cluster, n: Id)
    requires Linked(c) && Linked(d) && d.me == c.me && d.nodes == c.nodes
    requires n in d.nodes && n != d.me && n != MyMaster(c)
    ensures c.me in c.nodes && !SameRole(c, ClusterNode.SetMaster(d, n))
  {
  }

  /** Slot j is claimed in the header and bound to another node with a greater epoch. */
  predicate IsStale(c: Cluster, h: Header, j: nat) {
    && j in h.slots && j in c.slots && c.slots[j] != h.sender && c.slots[j] in c.nodes
    && c.nodes[c.slots[j]].configEpoch > h.configEpoch
  }

  lemma NothingCleared(c: Cluster, hasKeys: set<nat>)
    requires c.me in c.nodes
    ensures Cleared(c, c, hasKeys) == {}
  {
  }

  lemma SameSlotsCleared(c: Cluster, d: Cluster, hasKeys: set<nat>)
    requires c.me == d.me && c.me in c.nodes && c.me in d.nodes && c.slots == d.slots
    ensures Cleared(c, d, hasKeys) == {}
  {
  }

  /** Only this node's slots and its master decide what is cleared. */
  lemma SameCleared(c: Cluster, c2: Cluster, d: Cluster, hasKeys: set<nat>)
    requires c.me == c2.me && c.me in c.nodes && c.me in c2.nodes && c.me in d.nodes
    requires SameRole(c, c2) && SameMine(c, c2)
    ensures Cleared(c2, d, hasKeys) == Cleared(c, d, hasKeys)
  {
    assert SlotsOf(c, c.me) == SlotsOf(c2, c.me);
  }

  lemma SameClearedAfter(c: Cluster, d: Cluster, e: Cluster, hasKeys: set<nat>)
    requires c.me in c.nodes && c.me in d.nodes && c.me in e.nodes
    requires d.me == c.me && SameRole(d, e) && e.slots == d.slots
    ensures Cleared(c, e, hasKeys) == Cleared(c, d, hasKeys)
  {
    assert SlotsOf(e, c.me) == SlotsOf(d, c.me);
  }

  lemma ClaimKeepsNodes(c: Cluster, h: Header)
    requires Linked(c) && h.sender in c.nodes
    ensures var d := ClusterNode.SeeClaim(c, h); Linked(d) && d.nodes.Keys == c.nodes.Keys && d.me == c.me
  {
    hide Links, ClusterNode.UpdateSlots, SlotsOf;
    UpdateSlotsLinked(c, h.sender, h.configEpoch, h.slots);
  }

  /** Resolving a collision changes this node's epoch only. */
  lemma FixIsQuiet(c: Cluster, h: Header)
    requires Linked(c) && h.sender in c.nodes
    ensures var d := ClusterNode.FixCollision(c, h.sender);
      && Linked(d) && d.slots == c.slots && c.me in c.nodes && c.me in d.nodes && d.me == c.me && SameRole(c, d)
      && (c.nodes[c.me].configEpoch == h.configEpoch ==> forall j :: IsStale(c, h, j) ==> IsStale(d, h, j))
  {
  }

  /** Whether the claim takes a slot from `cur`. */
  ghost predicate Loses(c: Cluster, n: Id, epoch: nat, claimed: set<nat>, cur: Id)
    requires Linked(c)
  {
    exists j :: j in c.slots && Rebinds(c, n, epoch, claimed, j) && c.slots[j] == cur
  }

  lemma LosesHere(c: Cluster, s: seq<Option<Id>>, n: Id, epoch: nat, claimed: set<nat>, cur: Id)
    requires Linked(c) && c.slots == TableOf(s) && |s| == SLOTS
    ensures Loses(c, n, epoch, claimed, cur)
      <==> exists k :: 0 <= k < SLOTS && k in Rebinding(c, n, epoch, claimed) && s[k] == Some(cur)
  {
    hide Links;
    if k :| 0 <= k < SLOTS && k in Rebinding(c, n, epoch, claimed) && s[k] == Some(cur) {
      assert k in c.slots && Rebinds(c, n, epoch, claimed, k);
    }
  }

  lemma CoherentCount(slots: seq<Option<Id>>, bits: map<Id, set<nat>>, numslots: map<Id, nat>, n: Id, c: Cluster)
    requires Coherent(slots, bits, numslots) && n in bits && c.slots == TableOf(slots)
    ensures n in numslots && numslots[n] == |SlotsOf(c, n)| && bits[n] == SlotsOf(c, n)
  {
    BoundIsSlotsOf(c, slots, n);
  }

  lemma CoherentParts(slots: seq<Option<Id>>, bits: map<Id, set<nat>>, numslots: map<Id, nat>)
    requires Coherent(slots, bits, numslots)
    ensures |slots| == SLOTS && bits.Keys == numslots.Keys
    ensures forall j :: 0 <= j < SLOTS && slots[j].Some? ==> slots[j].value in bits
  {
  }

  // ---- the assertion of clusterSetMaster ----

  /** When a claim makes this node follow another master, the assertion that it serves no slot
      holds exactly when it is a master or the claim takes all of its own slots too. */
  lemma FollowsUnladen(c: Cluster, n: Id, epoch: nat, claimed: set<nat>)
    requires Linked(c) && n in c.nodes && n != c.me && Loses(c, n, epoch, claimed, MyMaster(c))
    requires SlotsOf(c.(slots := Rebound(c, n, epoch, claimed)), MyMaster(c)) == {}
    ensures var d := ClusterNode.UpdateSlots(c, n, epoch, claimed);
      && c.me in d.nodes && d.nodes[c.me].slaveof == Some(n)
      && (SlotsOf(d, c.me) == {} <==>
          c.nodes[c.me].master || forall j :: j in SlotsOf(c, c.me) ==> Rebinds(c, n, epoch, claimed, j))
  {
    hide Links, Rebinds;
    LinkedMe(c);
    var d := ClusterNode.UpdateSlots(c, n, epoch, claimed);
    if j :| j in SlotsOf(c, c.me) && !Rebinds(c, n, epoch, claimed, j) {
      assert j in SlotsOf(d, c.me);
    }
    if j :| j in SlotsOf(d, c.me) {
      assert j in SlotsOf(c, c.me) && !Rebinds(c, n, epoch, claimed, j);
    }
  }

  ghost predicate ReplicateAccepted(c: Cluster, n: Id, hasKeys: bool)
    requires Linked(c)
  {
    && n in c.nodes && n != c.me && c.nodes[n].master
    && !(c.nodes[c.me].master && (SlotsOf(c, c.me) != {} || hasKeys))
  }

  /** When CLUSTER REPLICATE is accepted, the assertion holds exactly when the node is a master or a
      replica that was never given slots of its own. */
  lemma ReplicatesUnladen(c: Cluster, n: Id, hasKeys: bool)
    requires Linked(c) && ReplicateAccepted(c, n, hasKeys)
    ensures var d := Apply(c, Command.Replicate(n, hasKeys));
      && c.me in d.nodes && !d.nodes[c.me].master && d.nodes[c.me].slaveof == Some(n)
      && (SlotsOf(d, c.me) == {} <==> c.nodes[c.me].master || forall j :: j in c.slots ==> c.slots[j] != c.me)
  {
    hide Links;
    LinkedMe(c);
    ReplicateKeepsSlots(c, n, hasKeys);
    if j :| j in c.slots && c.slots[j] == c.me {
      assert j in SlotsOf(c, c.me);
    }
  }

  /** Node 1 replicates node 2, which serves slot 1; node 3 is a master with epoch 1. */
  function Plain(): Cluster {
    Cluster(1, 1, 0, 1,
      map[1 := Node(0, false, Some(2), false), 2 := Node(0, true, None, false), 3 := Node(1, true, None, false)],
      map[1 := 2], map[], map[], Auth(0, 0, false, 0, 0))
  }

  /** The same after CLUSTER ADDSLOTS 0. */
  function Laden(): Cluster { Plain().(slots := map[0 := 1, 1 := 2]) }

  lemma LadenIs()
    ensures Linked(Plain()) && Linked(Laden()) && Apply(Plain(), AddSlots({0})) == Laden() && SlotsOf(Laden(), 1) == {0}
  {
    assert Apply(Plain(), AddSlots({0})).slots == map[0 := 1, 1 := 2];
    assert 0 in SlotsOf(Laden(), 1);
  }

  lemma LadenRebound()
    requires Linked(Laden())
    ensures Rebound(Laden(), 3, 1, {1}) == map[0 := 1, 1 := 3] && Loses(Laden(), 3, 1, {1}, 2)
  {
    hide Links;
    assert Rebinds(Laden(), 3, 1, {1}, 1);
  }

  /** A replica may be given slots by CLUSTER ADDSLOTS, and then the assertion fails when a claim
      takes the last slot of its master. */
  lemma LadenReplica()
    ensures Linked(Plain()) && Linked(Laden()) && Apply(Plain(), AddSlots({0})) == Laden()
    ensures var e := ClusterNode.UpdateSlots(Laden(), 3, 1, {1});
      1 in e.nodes && e.nodes[1].slaveof == Some(3) && SlotsOf(e, 1) == {0}
  {
    hide Links, Rebinds, Rebound, Apply;
    LadenIs();
    LadenRebound();
    var e := Laden().(slots := map[0 := 1, 1 := 3]);
    assert SlotsOf(e, 2) == {};
    assert 0 in SlotsOf(e, 1);
  }

  /** The same replica, told to replicate node 3, follows it while still serving its slot. */
  lemma LadenReplicate()
    ensures Linked(Plain()) && Linked(Laden()) && Apply(Plain(), AddSlots({0})) == Laden()
    ensures ReplicateAccepted(Laden(), 3, true)
    ensures var e := Apply(Laden(), Command.Replicate(3, true));
      1 in e.nodes && e.nodes[1].slaveof == Some(3) && SlotsOf(e, 1) == {0}
  {
    hide Links, SlotsOf;
    LadenIs();
    ReplicateKeepsSlots(Laden(), 3, true);
  }

  lemma ReplicateKeepsSlots(c: Cluster, n: Id, hasKeys: bool)
    requires Linked(c)
    ensures var d := Apply(c, Command.Replicate(n, hasKeys)); SlotsOf(d, c.me) == SlotsOf(c, c.me)
  {
    assert Apply(c, Command.Replicate(n, hasKeys)).slots == c.slots;
  }

  /** The last step of a replica's migration to an orphaned master that serves slots, however it was chosen. */
  ghost predicate MayMigrate(c: Cluster, target: Id)
    requires Linked(c)
  {
    && c.me in c.nodes && !c.nodes[c.me].master && target in c.nodes && target != c.me
    && c.nodes[target].master && !c.nodes[target].failed && SlotsOf(c, target) != {}
  }

  /** A replica migrates to another master with the assertion holding exactly when it serves no slot. */
  lemma MigratesUnladen(c: Cluster, target: Id)
    requires Linked(c) && MayMigrate(c, target)
    ensures var d := ClusterNode.SetMaster(c, target);
      && c.me in d.nodes && d.nodes[c.me].slaveof == Some(target)
      && (SlotsOf(d, c.me) == {} <==> forall j :: j in c.slots ==> c.slots[j] != c.me)
  {
    var d := ClusterNode.SetMaster(c, target);
    assert d.slots == c.slots;
    if j :| j in c.slots && c.slots[j] == c.me {
      assert j in SlotsOf(d, c.me);
    }
  }

  /** The replica with a slot of its own, once node 3 serves slot 2, migrates to node 3 and fails the assertion. */
  lemma LadenMigrates()
    ensures var c := Laden().(slots := map[0 := 1, 1 := 2, 2 := 3]);
      && Linked(c) && MayMigrate(c, 3)
      && var d := ClusterNode.SetMaster(c, 3); 1 in d.nodes && d.nodes[1].slaveof == Some(3) && 0 in SlotsOf(d, 1)
  {
    assert 2 in SlotsOf(Laden().(slots := map[0 := 1, 1 := 2, 2 := 3]), 3);
  }
}
