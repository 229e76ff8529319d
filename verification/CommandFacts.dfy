/** What the administrator's commands do to the configuration of a node, slot by slot. */
module CommandFacts {
  import opened Wrappers
  import opened ClusterNode
  import opened ClusterFacts

  /** The current epoch is not above this node's own, which is not zero. */
  ghost predicate Tops(c: Cluster) {
    c.me in c.nodes && 0 < c.nodes[c.me].configEpoch && c.currentEpoch <= c.nodes[c.me].configEpoch
  }

  /** d is c with a configEpoch of its node that tops the current epoch: the next one, unless it had such. */
  ghost predicate Bumped(c: Cluster, d: Cluster) {
    && Tops(d) && c.me in c.nodes
    && (d == c || d == c.(nodes := c.nodes[c.me := c.nodes[c.me].(configEpoch := c.currentEpoch + 1)],
                          currentEpoch := c.currentEpoch + 1))
  }

  lemma BumpIs(c: Cluster)
    requires c.me in c.nodes
    ensures Bumped(c, BumpEpoch(c))
  {
  }

  /** SETSLOT NODE gives one slot away unless this master still holds keys of a slot of its own. The slot is no
      longer migrating once it holds no keys; a slot taken that was being imported is closed, and makes this
      node take a new epoch unless it has the greatest one already. */
  lemma Given(c: Cluster, j: nat, n: Id, hasKeys: bool)
    requires Linked(c)
    ensures var d := Apply(c, SetSlotNode(j, n, hasKeys));
      var ok := c.nodes[c.me].master && j < SLOTS && n in c.nodes && !(Serves(c, c.me, j) && n != c.me && hasKeys);
      var closes := n == c.me && j in c.importing;
      && (!ok ==> d == c)
      && (ok ==>
            && d.slots == c.slots[j := n]
            && d.migrating == (if hasKeys then c.migrating else c.migrating - {j})
            && d.importing == (if closes then c.importing - {j} else c.importing)
            && var e := d.(slots := c.slots, migrating := c.migrating, importing := c.importing);
               if closes then Bumped(c, e) else e == c)
  {
    hide SetSlot, Bumped, Links;
    LinkedMe(c);
    if n in c.nodes {
      GivenSlot(c, j, n, hasKeys);
    }
  }

  lemma GivenSlot(c: Cluster, j: nat, n: Id, hasKeys: bool)
    requires c.me in c.nodes && n in c.nodes
    ensures var d := SetSlot(c, j, n, hasKeys); var closes := n == c.me && j in c.importing;
      && d.slots == c.slots[j := n]
      && d.migrating == (if hasKeys then c.migrating else c.migrating - {j})
      && d.importing == (if closes then c.importing - {j} else c.importing)
      && var e := d.(slots := c.slots, migrating := c.migrating, importing := c.importing);
         if closes then Bumped(c, e) else e == c
  {
    hide BumpEpoch;
    BumpIs(if !hasKeys then c.(migrating := c.migrating - {j}) else c);
  }

  /** FORGET removes a node, with its slots and every link to it, except this node and its master. */
  lemma Forgotten(c: Cluster, n: Id)
    requires Linked(c)
    ensures var d, x := Apply(c, Forget(n)), c.nodes[c.me];
      var ok := n in c.nodes && n != c.me && (x.master || x.slaveof != Some(n));
      && (!ok ==> d == c)
      && (ok ==>
            && SameElection(c, d) && d.currentEpoch == c.currentEpoch && d.nodes.Keys == c.nodes.Keys - {n}
            && (forall m, j: nat :: Serves(d, m, j) <==> Serves(c, m, j) && m != n)
            && (forall j, m :: Opened(d.migrating, j, m) <==> Opened(c.migrating, j, m) && m != n)
            && (forall j, m :: Opened(d.importing, j, m) <==> Opened(c.importing, j, m) && m != n)
            && forall m :: m in d.nodes ==> d.nodes[m] == Unlinked(c.nodes[m], n))
  {
  }

  function Unlinked(x: Node, n: Id): Node { if x.slaveof == Some(n) then x.(slaveof := None) else x }

  predicate Opened(m: map<nat, Id>, j: nat, n: Id) { j in m && m[j] == n }

  /** REPLICATE makes this node a replica of a known master, unless it is itself a master with slots or keys;
      a former master closes its migrations. */
  lemma Replicates(c: Cluster, n: Id, hasKeys: bool)
    requires Linked(c)
    ensures var d, x := Apply(c, Replicate(n, hasKeys)), c.nodes[c.me];
      var ok := n in c.nodes && n != c.me && c.nodes[n].master
                && (x.master ==> !hasKeys && forall j: nat :: !Serves(c, c.me, j));
      && (!ok ==> d == c)
      && (ok ==>
            && SameElection(c, d) && d.currentEpoch == c.currentEpoch && d.slots == c.slots
            && d.nodes == c.nodes[c.me := x.(master := false, slaveof := Some(n))]
            && d.migrating == (if x.master then map[] else c.migrating)
            && d.importing == (if x.master then map[] else c.importing))
  {
    ServesSome(c, c.me);
  }

  /** ADDSLOTS takes all the slots or none: all when each is free. They are no longer imported. */
  lemma Added(c: Cluster, js: set<nat>)
    requires Linked(c)
    ensures var d := Apply(c, AddSlots(js)); var ok := forall j: nat :: j in js ==> j < SLOTS && j !in c.slots;
      && d == c.(slots := d.slots, importing := d.importing)
      && (forall n, j: nat :: Serves(d, n, j) <==> Serves(c, n, j) || (ok && n == c.me && j in js))
      && (forall j, n :: Opened(d.importing, j, n) <==> Opened(c.importing, j, n) && !(ok && j in js))
  {
  }

  /** DELSLOTS frees all the slots or none: all when each has an owner, whoever that is. */
  lemma Deleted(c: Cluster, js: set<nat>)
    requires Linked(c)
    ensures var d := Apply(c, DelSlots(js)); var ok := forall j: nat :: j in js ==> j < SLOTS && j in c.slots;
      && d == c.(slots := d.slots, importing := d.importing)
      && (forall n, j: nat :: Serves(d, n, j) <==> Serves(c, n, j) && !(ok && j in js))
      && (forall j, n :: Opened(d.importing, j, n) <==> Opened(c.importing, j, n) && !(ok && j in js))
  {
  }

  /** SETSLOT MIGRATING, IMPORTING and STABLE: a master opens a slot of its own towards a known node, or one that
      is not its own from a known node, and closes a slot in both tables. */
  lemma Openings(c: Cluster, j: nat, n: Id)
    requires Linked(c)
    ensures var m, i := Apply(c, SetSlotMigrating(j, n)), Apply(c, SetSlotImporting(j, n));
      var t := Apply(c, SetSlotStable(j));
      var may := c.nodes[c.me].master && j < SLOTS;
      && m == c.(migrating := m.migrating) && i == c.(importing := i.importing)
      && t == c.(migrating := t.migrating, importing := t.importing)
      && (may && n in c.nodes && Serves(c, c.me, j) ==> m.migrating == c.migrating[j := n])
      && (!(may && n in c.nodes && Serves(c, c.me, j)) ==> m == c)
      && (may && n in c.nodes && !Serves(c, c.me, j) ==> i.importing == c.importing[j := n])
      && (!(may && n in c.nodes && !Serves(c, c.me, j)) ==> i == c)
      && (forall k, x :: Opened(t.migrating, k, x) <==> Opened(c.migrating, k, x) && !(may && k == j))
      && (forall k, x :: Opened(t.importing, k, x) <==> Opened(c.importing, k, x) && !(may && k == j))
  {
  }

  /** SET-CONFIG-EPOCH works once, on a node that knows no other. */
  lemma EpochSet(c: Cluster, epoch: nat)
    requires Linked(c)
    ensures var d, x := Apply(c, SetConfigEpoch(epoch)), c.nodes[c.me];
      var ok := x.configEpoch == 0 && forall n :: n in c.nodes ==> n == c.me;
      && (!ok ==> d == c)
      && (ok ==> d == c.(nodes := map[c.me := x.(configEpoch := epoch)],
                         currentEpoch := if c.currentEpoch < epoch then epoch else c.currentEpoch))
  {
    assert c.nodes.Keys == {c.me} <==> forall n :: n in c.nodes ==> n == c.me;
  }

  /** A replica speaks for its master: its packets carry the slots and the epoch of its master, under its own
      name. */
  lemma SpeaksFor(c: Cluster, forceAck: bool)
    requires Linked(c)
    ensures var h, m := BuildHeader(c, forceAck), Seat(c);
      && m in c.nodes && (c.nodes[c.me].master <==> m == c.me)
      && h.sender == c.me && h.slaveof == c.nodes[c.me].slaveof && h.forceAck == forceAck
      && h.currentEpoch == c.currentEpoch && h.configEpoch == c.nodes[m].configEpoch
      && forall j: nat :: j in h.slots <==> Serves(c, m, j)
  {
  }
}
