/** What the handlers and commands of one node do, field by field and slot by slot, said without their own
    helpers. */
module ClusterFacts {
  import opened Wrappers
  import opened ClusterNode

  /** Node n serves slot j. */
  predicate Serves(c: Cluster, n: Id, j: nat) { j in c.slots && c.slots[j] == n }

  lemma ServesSome(c: Cluster, n: Id)
    ensures SlotsOf(c, n) != {} <==> exists j: nat :: Serves(c, n, j)
  {
    if j :| Serves(c, n, j) {
      assert j in SlotsOf(c, n);
    }
    if SlotsOf(c, n) != {} {
      var j :| j in SlotsOf(c, n);
      assert Serves(c, n, j);
    }
  }

  /** Everything but what the header of a known sender says is as before. */
  ghost predicate Heard(c: Cluster, d: Cluster, h: Header)
    requires h.sender in c.nodes
  {
    && d.me == c.me && d.size == c.size && d.slots == c.slots
    && d.migrating == c.migrating && d.importing == c.importing
    && d.currentEpoch == (if c.currentEpoch < h.currentEpoch then h.currentEpoch else c.currentEpoch)
    && d.nodes.Keys == c.nodes.Keys
    && (forall n :: n in c.nodes && n != h.sender ==> d.nodes[n] == c.nodes[n])
    && var s := c.nodes[h.sender];
       d.nodes[h.sender] == s.(configEpoch := if s.configEpoch < h.configEpoch then h.configEpoch else s.configEpoch)
  }

  lemma HeardIs(c: Cluster, h: Header)
    requires h.sender in c.nodes
    ensures var d := SeeHeader(c, h); Heard(c, d, h) && d.lastVoteEpoch == c.lastVoteEpoch && d.auth == c.auth
  {
  }

  // ---- votes ----

  /** The conditions under which a vote is given: this node is a master that serves a slot, the request is of
      an epoch that is not behind and in which it has not voted, and it comes from a known replica whose
      master is held to have failed, or under force, of which no claimed slot has a newer owner. */
  ghost predicate MayVote(c: Cluster, h: Header, tooSoon: bool) {
    && c.me in c.nodes && c.nodes[c.me].master && (exists j: nat :: Serves(c, c.me, j))
    && c.currentEpoch <= h.currentEpoch && c.lastVoteEpoch != h.currentEpoch
    && h.sender in c.nodes && !c.nodes[h.sender].master && c.nodes[h.sender].slaveof.Some?
    && (h.forceAck || HeldFailed(c, c.nodes[h.sender].slaveof.value))
    && !tooSoon
    && forall j: nat :: j in h.slots && j in c.slots && c.slots[j] in c.nodes ==>
         c.nodes[c.slots[j]].configEpoch <= h.configEpoch
  }

  predicate HeldFailed(c: Cluster, n: Id) { n in c.nodes && c.nodes[n].failed }

  /** A vote is given if and only if the conditions hold of the state and the header, and then at the epoch of
      the request; nothing else changes. */
  lemma VoteExactly(c: Cluster, h: Header, tooSoon: bool)
    requires Linked(c) && h.sender != c.me
    ensures var (d, granted) := OnRequest(c, h, tooSoon);
      && (granted <==> MayVote(c, h, tooSoon))
      && (h.sender !in c.nodes ==> d == c)
      && (h.sender in c.nodes ==> Heard(c, d, h))
      && d.auth == c.auth && d.lastVoteEpoch == if granted then h.currentEpoch else c.lastVoteEpoch
  {
    if h.sender in c.nodes {
      HeardIs(c, h);
      var c1 := SeeHeader(c, h);
      ServesSome(c1, c.me);
      assert forall j: nat :: Serves(c1, c.me, j) <==> Serves(c, c.me, j);
    }
  }

  /** A vote received counts when it comes from a known master that serves a slot, at the epoch of the election
      or a later one. */
  ghost predicate Counts(c: Cluster, h: Header) {
    && h.sender in c.nodes && c.nodes[h.sender].master && (exists j: nat :: Serves(c, h.sender, j))
    && c.auth.epoch <= h.currentEpoch
  }

  /** A vote received is counted if and only if it counts, and changes nothing else but what its header says. */
  lemma AckExactly(c: Cluster, h: Header)
    requires Linked(c)
    ensures var d := OnAck(c, h);
      && (h.sender !in c.nodes ==> d == c)
      && (h.sender in c.nodes ==> Heard(c, d, h))
      && d.lastVoteEpoch == c.lastVoteEpoch && d.auth == c.auth.(count := c.auth.count + if Counts(c, h) then 1 else 0)
  {
    if h.sender in c.nodes {
      HeardIs(c, h);
      var c1 := SeeHeader(c, h);
      ServesSome(c1, h.sender);
      assert forall j: nat :: Serves(c1, h.sender, j) <==> Serves(c, h.sender, j);
    }
  }

  // ---- taking over ----

  /** d is c after its node, a replica of `old_`, has become a master in the place of it. */
  ghost predicate Succeeds(c: Cluster, d: Cluster, old_: Id)
    requires c.me in c.nodes
  {
    && d.me == c.me && d.currentEpoch == c.currentEpoch && d.lastVoteEpoch == c.lastVoteEpoch && d.auth == c.auth
    && d.migrating == c.migrating && d.importing == c.importing
    && d.nodes == c.nodes[c.me := c.nodes[c.me].(master := true, slaveof := None)]
    && d.slots.Keys == c.slots.Keys
    && (forall j: nat :: Serves(d, c.me, j) <==> Serves(c, c.me, j) || Serves(c, old_, j))
    && (forall j: nat :: !Serves(d, old_, j))
    && (forall n, j: nat :: n != c.me && n != old_ ==> (Serves(d, n, j) <==> Serves(c, n, j)))
  }

  ghost function ServingMasters(c: Cluster): set<Id> {
    set n | n in c.nodes && c.nodes[n].master && exists j: nat :: Serves(c, n, j)
  }

  lemma ServingIs(c: Cluster)
    ensures Serving(c) == ServingMasters(c)
  {
    forall n
      ensures n in Serving(c) <==> n in ServingMasters(c)
    {
      ServesSome(c, n);
    }
  }

  /** A promoted replica has every slot of its master, and the size is counted anew unless the node has just
      started. */
  lemma TakesOver(c: Cluster, rejoining: bool)
    requires Linked(c)
    ensures var x, d := c.nodes[c.me], ReplaceMaster(c, rejoining);
      if x.master || x.slaveof.None? then d == c
      else
        && Succeeds(c, d, x.slaveof.value)
        && d.size == if rejoining then c.size else |ServingMasters(d)|
  {
    hide Serving, ServingMasters;
    var x := c.nodes[c.me];
    if !x.master && x.slaveof.Some? {
      TakeOverIs(c);
      ServingIs(TakeOver(c));
      SizeAside(TakeOver(c));
    }
  }

  lemma TakeOverIs(c: Cluster)
    requires Linked(c) && !c.nodes[c.me].master && c.nodes[c.me].slaveof.Some?
    ensures Succeeds(c, TakeOver(c), c.nodes[c.me].slaveof.value)
  {
  }

  lemma SizeAside(c: Cluster)
    ensures ServingMasters(CountSize(c)) == ServingMasters(c)
    ensures forall n, j: nat :: Serves(CountSize(c), n, j) <==> Serves(c, n, j)
  {
    assert forall n, j: nat :: Serves(CountSize(c), n, j) <==> Serves(c, n, j);
  }

  // ---- failing over ----

  /** This node is a replica of a master that serves a slot and has failed, or is replaced by hand, and its
      data is recent enough. */
  ghost predicate MayReplace(c: Cluster, e: Env) {
    && c.me in c.nodes && !c.nodes[c.me].master && c.nodes[c.me].slaveof.Some?
    && var m := c.nodes[c.me].slaveof.value;
       (e.manual || HeldFailed(c, m)) && (exists j: nat :: Serves(c, m, j)) && (e.dataTooOld ==> e.manual)
  }

  /** When the request for votes is due: later by a second for every rank lost since it was planned. */
  function DueTime(c: Cluster, e: Env): int {
    if !c.auth.sent && !e.mfEnd && c.auth.rank < e.rank then c.auth.time + 1000 * (e.rank - c.auth.rank)
    else c.auth.time
  }

  /** The election may go on: it is due, and not too old. */
  ghost predicate MayProceed(c: Cluster, e: Env) {
    && MayReplace(c, e) && DueTime(c, e) <= e.now
    && (e.now - c.auth.time <= 2000 || e.now - c.auth.time <= 2 * e.nodeTimeout)
  }

  /** Nothing but the plan of the election differs. */
  ghost predicate OnlyPlanned(c: Cluster, d: Cluster) { d == c.(auth := d.auth) }

  /** The outcome of a failover attempt and its whole effect. An election is planned anew when the last one is
      older than two timeouts; it is started under a new epoch, or won by a majority, only while it is due. */
  lemma FailoverExactly(c: Cluster, e: Env)
    requires Linked(c)
    ensures var (d, o) := HandleFailover(c, e); var a := c.auth;
      var old_ := e.now - a.time > 4000 && e.now - a.time > 4 * e.nodeTimeout;
      && (o == Reset <==> MayReplace(c, e) && old_)
      && (o == Started <==> MayProceed(c, e) && !a.sent)
      && (o == Won <==> MayProceed(c, e) && a.sent && 2 * a.count > c.size)
      && (!MayReplace(c, e) ==> d == c)
      && (o == Reset ==> OnlyPlanned(c, d) && d.auth == Planned(a, e))
      && (o == Idle && MayReplace(c, e) ==> OnlyPlanned(c, d) && d.auth == Delayed(c, e))
      && (o == Started ==> d == c.(currentEpoch := c.currentEpoch + 1, auth := d.auth)
                           && d.auth == Delayed(c, e).(epoch := c.currentEpoch + 1, sent := true))
  {
    hide ReplaceMaster;
    LinkedMe(c);
    if c.nodes[c.me].slaveof.Some? {
      ServesSome(c, c.nodes[c.me].slaveof.value);
    }
    Majority(c.auth.count, c.size);
  }

  lemma Majority(n: nat, size: nat)
    ensures n >= size / 2 + 1 <==> 2 * n > size
  {
  }

  /** A new plan: after the delay and a second for every replica ahead, or at once by hand. */
  function Planned(a: Auth, e: Env): Auth {
    if e.mfEnd then Auth(a.epoch, 0, false, e.now, 0)
    else Auth(a.epoch, 0, false, e.now + e.delay + 1000 * e.rank, e.rank)
  }

  function Delayed(c: Cluster, e: Env): Auth {
    c.auth.(time := DueTime(c, e), rank := if DueTime(c, e) != c.auth.time then e.rank else c.auth.rank)
  }

  /** d is c after its node, a replica, has won an election: it is a master under at least the epoch of the
      election, with every slot of its old master, of which there was one. */
  ghost predicate TookOver(c: Cluster, d: Cluster) {
    && c.me in c.nodes && c.nodes[c.me].slaveof.Some?
    && var x := c.nodes[c.me];
       var top := if x.configEpoch < c.auth.epoch then c.auth.epoch else x.configEpoch;
       && Succeeds(c.(nodes := c.nodes[c.me := x.(configEpoch := top)]), d, x.slaveof.value)
       && exists j: nat :: Serves(c, x.slaveof.value, j) && Serves(d, c.me, j)
  }

  lemma WinExactly(c: Cluster, e: Env)
    requires Linked(c) && HandleFailover(c, e).1 == Won
    ensures var d := HandleFailover(c, e).0;
      TookOver(c, d) && d.size == if e.rejoining then c.size else |ServingMasters(d)|
  {
    hide ReplaceMaster, ServingMasters;
    FailoverExactly(c, e);
    var x := c.nodes[c.me];
    var y := x.(configEpoch := Max(x.configEpoch, c.auth.epoch));
    var c1 := WithNode(c, c.me, y);
    assert Linked(c1);
    TakesOver(c1, e.rejoining);
    var j :| Serves(c, x.slaveof.value, j);
    assert Serves(c1, x.slaveof.value, j);
  }

  lemma OutcomeExactly(c: Cluster, e: Env)
    requires Linked(c)
    ensures var (d, o) := HandleFailover(c, e);
      && (o == Started <==> MayProceed(c, e) && !c.auth.sent)
      && (o == Won <==> MayProceed(c, e) && c.auth.sent && 2 * c.auth.count > c.size)
      && (o == Won ==> TookOver(c, d))
  {
    hide HandleFailover, MayProceed, TookOver;
    FailoverExactly(c, e);
    if HandleFailover(c, e).1 == Won {
      WinExactly(c, e);
    }
  }

  // ---- claims on slots ----

  /** The slots of d are those of c after n has claimed some under an epoch: a claimed slot that is not being
      imported goes to n if it is free or its owner's epoch is older, and nothing else changes. */
  ghost predicate ClaimApplied(c: Cluster, d: Cluster, n: Id, epoch: nat, claimed: set<nat>) {
    && c.slots.Keys <= d.slots.Keys
    && (forall j: nat :: j in claimed && j < SLOTS && j !in c.importing ==>
          || Serves(d, n, j)
          || (j in c.slots && Serves(d, c.slots[j], j) && c.slots[j] in d.nodes
              && epoch <= d.nodes[c.slots[j]].configEpoch))
    && (forall j: nat :: Serves(d, n, j) ==>
          || Serves(c, n, j)
          || (j in claimed && j < SLOTS && j !in c.importing
              && (j in c.slots ==> c.slots[j] in d.nodes && d.nodes[c.slots[j]].configEpoch < epoch)))
    && (forall m, j: nat :: m != n && Serves(d, m, j) ==> Serves(c, m, j))
    && (forall j: nat :: j in d.slots && !(j in claimed && j < SLOTS && j !in c.importing) ==> Serves(c, d.slots[j], j))
  }

  /** The node whose slots this one answers for: itself, or its master. */
  function Seat(c: Cluster): Id
    requires c.me in c.nodes
  {
    if !c.nodes[c.me].master && c.nodes[c.me].slaveof.Some? then c.nodes[c.me].slaveof.value else c.me
  }

  /** A node follows the claimant exactly when the claim took a slot from it, or from its master, and left
      that one none. */
  ghost predicate Unseated(c: Cluster, d: Cluster, n: Id)
    requires c.me in c.nodes
  {
    var cur := Seat(c);
    && (exists j: nat :: Serves(c, cur, j) && Serves(d, n, j) && cur != n)
    && forall j: nat :: !Serves(d, cur, j)
  }

  /** The role of this node, and its open migrations, after the claim. */
  ghost predicate RoleAfterClaim(c: Cluster, d: Cluster, n: Id)
    requires c.me in c.nodes
  {
    c.me in d.nodes &&
    if Unseated(c, d, n) then
      && !d.nodes[c.me].master && d.nodes[c.me].slaveof == Some(n)
      && d.migrating == (if c.nodes[c.me].master then map[] else c.migrating)
      && d.importing == (if c.nodes[c.me].master then map[] else c.importing)
    else
      && d.nodes[c.me].master == c.nodes[c.me].master && d.nodes[c.me].slaveof == c.nodes[c.me].slaveof
      && d.migrating == c.migrating && d.importing == c.importing
  }

  /** The node table differs in this node's role only. */
  ghost predicate OthersStay(c: Cluster, d: Cluster)
    requires c.me in c.nodes
  {
    && d.nodes.Keys == c.nodes.Keys
    && (forall n :: n in c.nodes && n != c.me ==> d.nodes[n] == c.nodes[n])
    && d.nodes[c.me].configEpoch == c.nodes[c.me].configEpoch && d.nodes[c.me].failed == c.nodes[c.me].failed
  }

  /** Nothing of the election or the epochs changes. */
  predicate SameElection(c: Cluster, d: Cluster) {
    d.me == c.me && d.lastVoteEpoch == c.lastVoteEpoch && d.auth == c.auth && d.size == c.size
  }

  lemma ReboundIs(c: Cluster, n: Id, epoch: nat, claimed: set<nat>)
    requires Linked(c) && n in c.nodes
    ensures ClaimApplied(c, c.(slots := Rebound(c, n, epoch, claimed)), n, epoch, claimed)
  {
  }

  lemma ClaimExactly(c: Cluster, n: Id, epoch: nat, claimed: set<nat>)
    requires Linked(c) && n in c.nodes && n != c.me
    ensures var d := UpdateSlots(c, n, epoch, claimed);
      && ClaimApplied(c, d, n, epoch, claimed) && RoleAfterClaim(c, d, n)
      && OthersStay(c, d) && SameElection(c, d) && d.currentEpoch == c.currentEpoch
  {
    hide Rebound, Links, ClaimApplied, Rebinds, Serves, Unseated, RoleAfterClaim, OthersStay;
    LinkedMe(c);
    ReboundIs(c, n, epoch, claimed);
    ReboundLinked(c, n, epoch, claimed);
    var cur := MyMaster(c);
    var d := c.(slots := Rebound(c, n, epoch, claimed));
    var e := UpdateSlots(c, n, epoch, claimed);
    LostIs(c, e, n, epoch, claimed, cur);
    ServesSome(e, cur);
    assert SlotsOf(e, cur) == SlotsOf(d, cur);
    var lost := exists j: nat :: j in c.slots && Rebinds(c, n, epoch, claimed, j) && c.slots[j] == cur;
    UnseatedIs(c, e, n, cur);
    assert e == if Unseated(c, e, n) then SetMaster(d, n) else d;
    RoleIs(c, d, e, n);
    SameClaim(c, d, e, n, epoch, claimed);
  }

  lemma UnseatedIs(c: Cluster, d: Cluster, n: Id, cur: Id)
    requires Linked(c) && cur == MyMaster(c)
    ensures Unseated(c, d, n) <==>
      && (exists j: nat :: Serves(c, cur, j) && Serves(d, n, j) && cur != n) && !(exists j: nat :: Serves(d, cur, j))
  {
    hide Serves;
  }

  lemma RoleIs(c: Cluster, d: Cluster, e: Cluster, n: Id)
    requires Linked(c) && n in c.nodes && n != c.me && d == c.(slots := d.slots) && Linked(d)
    requires e == if Unseated(c, e, n) then SetMaster(d, n) else d
    ensures RoleAfterClaim(c, e, n) && OthersStay(c, e)
  {
    hide Unseated;
  }

  lemma LostIs(c: Cluster, d: Cluster, n: Id, epoch: nat, claimed: set<nat>, cur: Id)
    requires Linked(c) && d.slots == Rebound(c, n, epoch, claimed)
    ensures
      (exists j: nat :: j in c.slots && Rebinds(c, n, epoch, claimed, j) && c.slots[j] == cur) <==>
      (exists j: nat :: Serves(c, cur, j) && Serves(d, n, j) && cur != n)
  {
    hide Links;
    if j :| j in c.slots && Rebinds(c, n, epoch, claimed, j) && c.slots[j] == cur {
      assert Serves(c, cur, j) && Serves(d, n, j);
    }
    if j :| Serves(c, cur, j) && Serves(d, n, j) && cur != n {
      assert j in c.slots && Rebinds(c, n, epoch, claimed, j) && c.slots[j] == cur;
    }
  }

  lemma SameClaim(c: Cluster, d: Cluster, e: Cluster, n: Id, epoch: nat, claimed: set<nat>)
    requires ClaimApplied(c, d, n, epoch, claimed) && e.slots == d.slots && e.nodes.Keys == d.nodes.Keys
    requires forall m :: m in d.nodes ==> e.nodes[m].configEpoch == d.nodes[m].configEpoch
    ensures ClaimApplied(c, e, n, epoch, claimed)
  {
    assert forall m, j: nat :: Serves(e, m, j) <==> Serves(d, m, j);
  }

  // ---- UPDATE packets ----

  /** The epoch known of a node once the header has been read. */
  function KnownEpoch(c: Cluster, h: Header, n: Id): nat
    requires n in c.nodes
  {
    if n == h.sender && c.nodes[n].configEpoch < h.configEpoch then h.configEpoch else c.nodes[n].configEpoch
  }

  /** An UPDATE packet tells news when its sender and its subject are known and it has a newer epoch. */
  predicate IsNews(c: Cluster, h: Header, about: Id, epoch: nat) {
    h.sender in c.nodes && about in c.nodes && KnownEpoch(c, h, about) < epoch
  }

  /** After the news the subject is a master under exactly that epoch, and every other node is as the header
      leaves it, but for the role of this one. */
  ghost predicate Informed(c: Cluster, d: Cluster, h: Header, about: Id, epoch: nat)
    requires c.me in c.nodes && h.sender in c.nodes && about in c.nodes
  {
    && d.me == c.me && d.nodes.Keys == c.nodes.Keys
    && d.currentEpoch == (if c.currentEpoch < h.currentEpoch then h.currentEpoch else c.currentEpoch)
    && d.nodes[about].master && d.nodes[about].configEpoch == epoch
    && d.nodes[about].slaveof == (if c.nodes[about].master then c.nodes[about].slaveof else None)
    && (forall n :: n in c.nodes && n != about ==> d.nodes[n].configEpoch == KnownEpoch(c, h, n))
    && (forall n :: n in c.nodes && n != about && n != c.me ==>
          d.nodes[n] == c.nodes[n].(configEpoch := KnownEpoch(c, h, n)))
    && (forall n :: n in c.nodes ==> d.nodes[n].failed == c.nodes[n].failed)
  }

  /** The news of an UPDATE packet, and what the node makes of the slots it reports; no news, no change beyond
      the header. */
  lemma UpdateExactly(c: Cluster, h: Header, about: Id, epoch: nat, claimed: set<nat>)
    requires Linked(c) && h.sender != c.me
    ensures var d := OnUpdate(c, h, about, epoch, claimed);
      && SameElection(c, d)
      && (h.sender !in c.nodes ==> d == c)
      && (h.sender in c.nodes && !IsNews(c, h, about, epoch) ==> Heard(c, d, h))
      && (IsNews(c, h, about, epoch) ==> Informed(c, d, h, about, epoch))
      && (IsNews(c, h, about, epoch) && about == c.me ==>
            d.slots == c.slots && d.migrating == c.migrating && d.importing == c.importing)
      && (IsNews(c, h, about, epoch) && about != c.me ==>
            ClaimApplied(c, d, about, epoch, claimed) && RoleAfterClaim(c, d, about))
  {
    hide OnUpdate, ClaimApplied, RoleAfterClaim, Informed, Heard;
    if IsNews(c, h, about, epoch) {
      NewsExactly(c, h, about, epoch, claimed);
    } else {
      NoNews(c, h, about, epoch, claimed);
    }
  }

  lemma NoNews(c: Cluster, h: Header, about: Id, epoch: nat, claimed: set<nat>)
    requires Linked(c) && h.sender != c.me && !IsNews(c, h, about, epoch)
    ensures var d := OnUpdate(c, h, about, epoch, claimed);
      SameElection(c, d) && (h.sender !in c.nodes ==> d == c) && (h.sender in c.nodes ==> Heard(c, d, h))
  {
    hide UpdateSlots, Links, SeeHeader, SetNodeAsMaster;
    if h.sender in c.nodes {
      HeardIs(c, h);
    } else {
      Unheeded(c, h);
    }
  }

  lemma Unheeded(c: Cluster, h: Header)
    requires h.sender !in c.nodes
    ensures SeeHeader(c, h) == c
  {
  }

  lemma NewsExactly(c: Cluster, h: Header, about: Id, epoch: nat, claimed: set<nat>)
    requires Linked(c) && h.sender != c.me && IsNews(c, h, about, epoch)
    ensures var d := OnUpdate(c, h, about, epoch, claimed);
      && SameElection(c, d) && Informed(c, d, h, about, epoch)
      && (about == c.me ==> d.slots == c.slots && d.migrating == c.migrating && d.importing == c.importing)
      && (about != c.me ==> ClaimApplied(c, d, about, epoch, claimed) && RoleAfterClaim(c, d, about))
  {
    hide UpdateSlots, ClaimApplied, RoleAfterClaim, Links, SeeHeader, SetNodeAsMaster, Raised;
    var e := Raised(c, h, about, epoch);
    LinkedMe(c);
    RaisedLinked(c, h, about, epoch);
    RaisedIs(c, h, about, epoch);
    UpdateIs(c, h, about, epoch, claimed);
    OwnUpdate(e, epoch, claimed);
    if about != c.me {
      ClaimExactly(e, about, epoch, claimed);
      SameClaimant(c, e, UpdateSlots(e, about, epoch, claimed), about, epoch, claimed);
    }
  }

  lemma UpdateIs(c: Cluster, h: Header, about: Id, epoch: nat, claimed: set<nat>)
    requires Linked(c) && h.sender != c.me && IsNews(c, h, about, epoch)
    ensures Linked(Raised(c, h, about, epoch)) && about in Raised(c, h, about, epoch).nodes
    ensures OnUpdate(c, h, about, epoch, claimed) == UpdateSlots(Raised(c, h, about, epoch), about, epoch, claimed)
  {
    hide UpdateSlots, Links, SetNodeAsMaster;
    RaisedLinked(c, h, about, epoch);
  }

  /** The state in which the claim of an UPDATE packet is judged. */
  function Raised(c: Cluster, h: Header, about: Id, epoch: nat): Cluster
    requires h.sender in c.nodes && about in c.nodes
  {
    var d := SetNodeAsMaster(SeeHeader(c, h), about);
    WithNode(d, about, d.nodes[about].(configEpoch := epoch))
  }

  lemma RaisedLinked(c: Cluster, h: Header, about: Id, epoch: nat)
    requires Linked(c) && h.sender != c.me && h.sender in c.nodes && about in c.nodes
    ensures Linked(Raised(c, h, about, epoch))
  {
    assert Linked(SeeHeader(c, h));
    assert Linked(SetNodeAsMaster(SeeHeader(c, h), about));
  }

  lemma RaisedIs(c: Cluster, h: Header, about: Id, epoch: nat)
    requires c.me in c.nodes && h.sender != c.me && h.sender in c.nodes && about in c.nodes
    ensures var e := Raised(c, h, about, epoch);
      && Informed(c, e, h, about, epoch) && SameElection(c, e)
      && e.slots == c.slots && e.migrating == c.migrating && e.importing == c.importing
      && (about != c.me ==> e.nodes[c.me] == c.nodes[c.me])
  {
    hide Raised;
    RaisedAside(c, h, about, epoch);
    forall n | n in c.nodes
      ensures Raised(c, h, about, epoch).nodes[n] == RaisedRecord(c, h, about, epoch, n)
    {
      RaisedNode(c, h, about, epoch, n);
    }
  }

  lemma RaisedAside(c: Cluster, h: Header, about: Id, epoch: nat)
    requires h.sender in c.nodes && about in c.nodes
    ensures var e := Raised(c, h, about, epoch);
      && SameElection(c, e) && e.slots == c.slots && e.migrating == c.migrating && e.importing == c.importing
      && e.currentEpoch == (if c.currentEpoch < h.currentEpoch then h.currentEpoch else c.currentEpoch)
      && e.nodes.Keys == c.nodes.Keys
  {
  }

  function RaisedRecord(c: Cluster, h: Header, about: Id, epoch: nat, n: Id): Node
    requires n in c.nodes
  {
    var x := c.nodes[n];
    if n == about then Node(epoch, true, if x.master then x.slaveof else None, x.failed)
    else x.(configEpoch := KnownEpoch(c, h, n))
  }

  lemma RaisedNode(c: Cluster, h: Header, about: Id, epoch: nat, n: Id)
    requires h.sender in c.nodes && about in c.nodes && n in c.nodes
    ensures var e := Raised(c, h, about, epoch);
      n in e.nodes && e.nodes[n] == RaisedRecord(c, h, about, epoch, n)
  {
  }

  lemma OwnUpdate(c: Cluster, epoch: nat, claimed: set<nat>)
    requires Linked(c)
    ensures UpdateSlots(c, c.me, epoch, claimed) == c
  {
  }

  /** A claim is judged by slots, imports and this node's role only. */
  lemma SameClaimant(c: Cluster, e: Cluster, d: Cluster, n: Id, epoch: nat, claimed: set<nat>)
    requires c.me in c.nodes && e.me == c.me && e.me in e.nodes && e.nodes[c.me] == c.nodes[c.me]
    requires e.slots == c.slots && e.migrating == c.migrating && e.importing == c.importing
    ensures ClaimApplied(e, d, n, epoch, claimed) ==> ClaimApplied(c, d, n, epoch, claimed)
    ensures RoleAfterClaim(e, d, n) <==> RoleAfterClaim(c, d, n)
  {
    assert forall m, j: nat :: Serves(e, m, j) <==> Serves(c, m, j);
    assert Seat(e) == Seat(c);
  }

  // ---- pings ----

  /** A ping of a replica: a former master of ours loses its slots, and its new master is taken down if known. */
  lemma ReplicaPing(c: Cluster, h: Header)
    requires Linked(c) && h.sender in c.nodes && h.sender != c.me && h.slaveof.Some?
    ensures var d, x := OnPing(c, h), c.nodes[h.sender];
      && SameElection(c, d) && d.migrating == c.migrating && d.importing == c.importing
      && d.currentEpoch == (if c.currentEpoch < h.currentEpoch then h.currentEpoch else c.currentEpoch)
      && d.nodes == c.nodes[h.sender := Node(KnownEpoch(c, h, h.sender), false,
                              if h.slaveof.value in c.nodes then h.slaveof else x.slaveof, x.failed)]
      && forall n, j: nat :: Serves(d, n, j) <==> Serves(c, n, j) && !(x.master && n == h.sender)
  {
  }

  /** This master and the sender have one configEpoch, and its own name is the smaller one. */
  ghost predicate Yields(c: Cluster, d: Cluster, h: Header)
    requires c.me in c.nodes && c.me in d.nodes && h.sender in c.nodes
  {
    && d.nodes[c.me].master && h.configEpoch == c.nodes[c.me].configEpoch && c.me < h.sender
    && KnownEpoch(c, h, h.sender) == c.nodes[c.me].configEpoch
  }

  /** A ping of a master: it is taken for one, its claim is applied, and a collision of epochs is resolved. */
  lemma MasterPing(c: Cluster, h: Header)
    requires Linked(c) && h.sender in c.nodes && h.sender != c.me && h.slaveof.None?
    requires c.nodes[c.me].configEpoch <= c.currentEpoch
    ensures var d, x := OnPing(c, h), c.nodes[h.sender];
      var top := if c.currentEpoch < h.currentEpoch then h.currentEpoch else c.currentEpoch;
      && SameElection(c, d) && d.nodes.Keys == c.nodes.Keys
      && ClaimApplied(c, d, h.sender, h.configEpoch, h.slots) && RoleAfterClaim(c, d, h.sender)
      && d.nodes[h.sender] == Node(KnownEpoch(c, h, h.sender), true, if x.master then x.slaveof else None, x.failed)
      && (forall n :: n in c.nodes && n != c.me && n != h.sender ==> d.nodes[n] == c.nodes[n])
      && d.nodes[c.me].failed == c.nodes[c.me].failed
      && d.nodes[c.me].configEpoch == (if Yields(c, d, h) then top + 1 else c.nodes[c.me].configEpoch)
      && d.currentEpoch == (if Yields(c, d, h) then top + 1 else top)
  {
    hide ClaimApplied, RoleAfterClaim, Links, SeeHeader, SeeRole, SeeClaim, FixCollision;
    LinkedMe(c);
    ClaimPing(c, h);
    var c3 := SeeClaim(SeeRole(SeeHeader(c, h), h), h);
    Collided(c3, h.sender);
    var d := OnPing(c, h);
    RaisedClaim(c, c3, d, h.sender, h.configEpoch, h.slots);
  }

  /** The ping up to the resolution of collisions. */
  lemma ClaimPing(c: Cluster, h: Header)
    requires Linked(c) && h.sender in c.nodes && h.sender != c.me && h.slaveof.None?
    ensures Linked(SeeHeader(c, h)) && h.sender in SeeHeader(c, h).nodes && Linked(SeeRole(SeeHeader(c, h), h))
    ensures h.sender in SeeRole(SeeHeader(c, h), h).nodes
    ensures var d, x := SeeClaim(SeeRole(SeeHeader(c, h), h), h), c.nodes[h.sender];
      && SameElection(c, d) && d.nodes.Keys == c.nodes.Keys
      && d.currentEpoch == (if c.currentEpoch < h.currentEpoch then h.currentEpoch else c.currentEpoch)
      && ClaimApplied(c, d, h.sender, h.configEpoch, h.slots) && RoleAfterClaim(c, d, h.sender)
      && d.nodes[h.sender] == Node(KnownEpoch(c, h, h.sender), true, if x.master then x.slaveof else None, x.failed)
      && (forall n :: n in c.nodes && n != c.me && n != h.sender ==> d.nodes[n] == c.nodes[n])
      && d.nodes[c.me].failed == c.nodes[c.me].failed
      && d.nodes[c.me].configEpoch == c.nodes[c.me].configEpoch
  {
    hide UpdateSlots, ClaimApplied, RoleAfterClaim, Unseated, SlotsOf, Links, SetNodeAsMaster, SeeHeader;
    HeardIs(c, h);
    var c1 := SeeHeader(c, h);
    SeenLinked(c, h);
    var c2 := SeeRole(c1, h);
    SeeRoleLinked(c1, h);
    MadeMaster(c1, h.sender);
    LinkedMe(c);
    ClaimExactly(c2, h.sender, h.configEpoch, h.slots);
    if SlotsOf(c2, h.sender) == h.slots {
      NothingNew(c2, h.sender, h.configEpoch, h.slots);
    }
    SameClaimant(c, c2, SeeClaim(c2, h), h.sender, h.configEpoch, h.slots);
  }

  lemma SeenLinked(c: Cluster, h: Header)
    requires Linked(c)
    ensures Linked(SeeHeader(c, h))
  {
  }

  lemma MadeMaster(c: Cluster, n: Id)
    requires n in c.nodes
    ensures var x, d := c.nodes[n], SetNodeAsMaster(c, n);
      d == c.(nodes := c.nodes[n := Node(x.configEpoch, true, if x.master then x.slaveof else None, x.failed)])
  {
  }

  /** A claim of what the claimant already has. */
  lemma NothingNew(c: Cluster, n: Id, epoch: nat, claimed: set<nat>)
    requires Linked(c) && n in c.nodes && n != c.me && SlotsOf(c, n) == claimed
    ensures ClaimApplied(c, c, n, epoch, claimed) && RoleAfterClaim(c, c, n) && OthersStay(c, c)
  {
    assert forall j: nat :: j in claimed ==> Serves(c, n, j);
  }

  lemma Collided(c: Cluster, n: Id)
    requires c.me in c.nodes && n in c.nodes
    ensures var x, d := c.nodes[c.me], FixCollision(c, n);
      if x.master && c.nodes[n].master && c.nodes[n].configEpoch == x.configEpoch && c.me < n then
        d == c.(nodes := c.nodes[c.me := x.(configEpoch := c.currentEpoch + 1)], currentEpoch := c.currentEpoch + 1)
      else d == c
  {
  }

  /** This node's own epoch may rise after the claim, when the claim is of that epoch. */
  lemma RaisedClaim(c: Cluster, d: Cluster, e: Cluster, n: Id, epoch: nat, claimed: set<nat>)
    requires c.me in c.nodes && d.me == c.me && c.me in d.nodes && n != c.me
    requires ClaimApplied(c, d, n, epoch, claimed) && RoleAfterClaim(c, d, n)
    requires
      || e == d
      || (&& d.nodes[c.me].configEpoch == epoch <= d.currentEpoch
          && e == d.(nodes := d.nodes[c.me := d.nodes[c.me].(configEpoch := d.currentEpoch + 1)],
                     currentEpoch := d.currentEpoch + 1))
    ensures ClaimApplied(c, e, n, epoch, claimed) && RoleAfterClaim(c, e, n)
  {
    assert forall m, j: nat :: Serves(e, m, j) <==> Serves(d, m, j);
  }
}
