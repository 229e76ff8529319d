/** One cluster node as its own configuration sees it, and how bus messages, timers and
    administrator commands change that configuration. */
module ClusterNode {
  import opened Wrappers

  const SLOTS: nat := 16384

  /** Node names are fixed-length strings compared byte by byte; only their order matters. */
  type Id = nat

  datatype Node = Node(configEpoch: nat, master: bool, slaveof: Option<Id>, failed: bool)

  /** The election this node is running, if it is a replica. */
  datatype Auth = Auth(epoch: nat, count: nat, sent: bool, time: int, rank: nat)

  datatype Cluster = Cluster(
    me: Id,
    currentEpoch: nat,
    lastVoteEpoch: nat,
    size: nat,
    nodes: map<Id, Node>,
    slots: map<nat, Id>,
    migrating: map<nat, Id>,
    importing: map<nat, Id>,
    auth: Auth)

  /** The part of a packet header that the receiver acts on. */
  datatype Header = Header(
    sender: Id,
    currentEpoch: nat,
    configEpoch: nat,
    slots: set<nat>,
    slaveof: Option<Id>,
    forceAck: bool)

  datatype Body =
    | Ping                                              // PING, PONG and MEET
    | AuthRequest
    | AuthAck
    | Update(about: Id, epoch: nat, claimed: set<nat>)
    | Plain                                             // FAIL, PUBLISH, MFSTART

  datatype Message = Message(hdr: Header, body: Body)

  function Max(a: nat, b: nat): nat { if a < b then b else a }

  /** The slots a node serves. */
  function SlotsOf(c: Cluster, n: Id): set<nat> {
    set j | j in c.slots && c.slots[j] == n
  }

  /** Pointers between node structures stay inside the node table. */
  ghost predicate Links(me: Id, nodes: map<Id, Node>, slots: map<nat, Id>) {
    && me in nodes
    && (forall n :: n in nodes && nodes[n].slaveof.Some? ==> nodes[n].slaveof.value in nodes)
    && (forall j :: j in slots ==> j < SLOTS && slots[j] in nodes)
    && (!nodes[me].master ==> nodes[me].slaveof.Some? && nodes[me].slaveof.value != me)
  }

  ghost predicate Linked(c: Cluster) { Links(c.me, c.nodes, c.slots) }

  lemma LinkedMe(c: Cluster)
    requires Linked(c)
    ensures c.me in c.nodes && (!c.nodes[c.me].master ==> c.nodes[c.me].slaveof.Some?)
    ensures c.nodes[c.me].slaveof.Some? ==> c.nodes[c.me].slaveof.value in c.nodes
  {
  }

  // ---- headers ----

  function MyMaster(c: Cluster): Id
    requires Linked(c)
  {
    if !c.nodes[c.me].master then c.nodes[c.me].slaveof.value else c.me
  }

  function BuildHeader(c: Cluster, forceAck: bool): Header
    requires Linked(c)
  {
    var m := MyMaster(c);
    Header(c.me, c.currentEpoch, c.nodes[m].configEpoch, SlotsOf(c, m), c.nodes[c.me].slaveof, forceAck)
  }

  function WithNode(c: Cluster, n: Id, x: Node): Cluster { c.(nodes := c.nodes[n := x]) }

  /** Every packet from a known sender first raises the epochs. */
  function SeeHeader(c: Cluster, h: Header): Cluster {
    if h.sender !in c.nodes then c
    else
      WithNode(c, h.sender, c.nodes[h.sender].(configEpoch := Max(c.nodes[h.sender].configEpoch, h.configEpoch)))
        .(currentEpoch := Max(c.currentEpoch, h.currentEpoch))
  }

  // ---- slots ----

  function WithoutSlots(c: Cluster, n: Id): Cluster {
    c.(slots := map j | j in c.slots && c.slots[j] != n :: c.slots[j])
  }

  /** A claimed slot is rebound when it is unassigned or its owner has an older epoch, unless
      it is being imported or already bound to the claimant. */
  predicate Rebinds(c: Cluster, n: Id, epoch: nat, claimed: set<nat>, j: nat)
    requires Linked(c)
  {
    && j in claimed && j < SLOTS && j !in c.importing
    && (j !in c.slots || (c.slots[j] != n && c.nodes[c.slots[j]].configEpoch < epoch))
  }

  function Rebound(c: Cluster, n: Id, epoch: nat, claimed: set<nat>): map<nat, Id>
    requires Linked(c)
  {
    map j | j in c.slots.Keys + claimed && (j in c.slots || Rebinds(c, n, epoch, claimed, j)) ::
      if Rebinds(c, n, epoch, claimed, j) then n else c.slots[j]
  }

  lemma ReboundLinked(c: Cluster, n: Id, epoch: nat, claimed: set<nat>)
    requires Linked(c) && n in c.nodes
    ensures Linked(c.(slots := Rebound(c, n, epoch, claimed)))
  {
  }

  /** Become a replica of n. */
  function SetMaster(c: Cluster, n: Id): Cluster
    requires Linked(c) && n in c.nodes && n != c.me
  {
    var d := if c.nodes[c.me].master then c.(migrating := map[], importing := map[]) else c;
    WithNode(d, c.me, c.nodes[c.me].(master := false, slaveof := Some(n)))
  }

  /** clusterUpdateSlotsConfigWith: rebind the slots that n claims under `epoch`, and follow n
      when our master, or this master node itself, loses its last slot to it. */
  function UpdateSlots(c: Cluster, n: Id, epoch: nat, claimed: set<nat>): Cluster
    requires Linked(c) && n in c.nodes
  {
    if n == c.me then c
    else
      var cur := MyMaster(c);
      var lost := exists j :: j in c.slots && Rebinds(c, n, epoch, claimed, j) && c.slots[j] == cur;
      var d := c.(slots := Rebound(c, n, epoch, claimed));
      ReboundLinked(c, n, epoch, claimed);
      if lost && SlotsOf(d, cur) == {} then SetMaster(d, n) else d
  }

  // ---- packets ----

  function SetNodeAsMaster(c: Cluster, n: Id): Cluster
    requires n in c.nodes
  {
    if c.nodes[n].master then c else WithNode(c, n, c.nodes[n].(master := true, slaveof := None))
  }

  /** The sender's header says whether it is a master or a replica, and of whom. */
  function SeeRole(c: Cluster, h: Header): Cluster
    requires h.sender in c.nodes
  {
    if h.slaveof.None? then SetNodeAsMaster(c, h.sender)
    else
      var x := c.nodes[h.sender];
      var d := if x.master then WithoutSlots(c, h.sender) else c;
      WithNode(d, h.sender, x.(master := false,
        slaveof := if h.slaveof.value in c.nodes then h.slaveof else x.slaveof))
  }

  /** Of two masters with the same configEpoch, the one with the smaller name takes a new one. */
  function FixCollision(c: Cluster, n: Id): Cluster
    requires c.me in c.nodes && n in c.nodes
  {
    if c.nodes[n].configEpoch != c.nodes[c.me].configEpoch || !c.nodes[n].master || !c.nodes[c.me].master || n <= c.me
    then c
    else WithNode(c, c.me, c.nodes[c.me].(configEpoch := c.currentEpoch + 1)).(currentEpoch := c.currentEpoch + 1)
  }

  lemma SeeRoleLinked(c: Cluster, h: Header)
    requires Linked(c) && h.sender in c.nodes && h.sender != c.me
    ensures Linked(SeeRole(c, h)) && SeeRole(c, h).nodes.Keys == c.nodes.Keys && SeeRole(c, h).me == c.me
  {
  }

  lemma UpdateSlotsLinked(c: Cluster, n: Id, epoch: nat, claimed: set<nat>)
    requires Linked(c) && n in c.nodes
    ensures var d := UpdateSlots(c, n, epoch, claimed);
      Linked(d) && d.nodes.Keys == c.nodes.Keys && d.me == c.me && d.currentEpoch == c.currentEpoch
      && forall x :: x in c.nodes ==> d.nodes[x].configEpoch == c.nodes[x].configEpoch
  {
    ReboundLinked(c, n, epoch, claimed);
  }

  /** The slots claimed in the header are not those bound to the sender, or to its master. */
  predicate Dirty(c: Cluster, h: Header)
    requires h.sender in c.nodes
  {
    var s := c.nodes[h.sender];
    var owner := if s.master then Some(h.sender) else s.slaveof;
    owner.Some? && SlotsOf(c, owner.value) != h.slots
  }

  function SeeClaim(c: Cluster, h: Header): Cluster
    requires Linked(c) && h.sender in c.nodes
  {
    if c.nodes[h.sender].master && Dirty(c, h) then UpdateSlots(c, h.sender, h.configEpoch, h.slots) else c
  }

  function OnPing(c: Cluster, h: Header): Cluster
    requires Linked(c) && h.sender != c.me
  {
    if h.sender !in c.nodes then c
    else
      var c1 := SeeHeader(c, h);
      var c2 := SeeRole(c1, h);
      SeeRoleLinked(c1, h);
      var c3 := SeeClaim(c2, h);
      UpdateSlotsLinked(c2, h.sender, h.configEpoch, h.slots);
      if c3.nodes[c3.me].master && c3.nodes[h.sender].master && h.configEpoch == c3.nodes[c3.me].configEpoch
      then FixCollision(c3, h.sender) else c3
  }

  function OnUpdate(c: Cluster, h: Header, about: Id, epoch: nat, claimed: set<nat>): Cluster
    requires Linked(c) && h.sender != c.me
  {
    var c1 := SeeHeader(c, h);
    if h.sender !in c.nodes || about !in c.nodes || c1.nodes[about].configEpoch >= epoch then c1
    else
      var c2 := SetNodeAsMaster(c1, about);
      var c3 := WithNode(c2, about, c2.nodes[about].(configEpoch := epoch));
      UpdateSlots(c3, about, epoch, claimed)
  }

  /** Whether this node grants its vote; `tooSoon` says that it voted for a replica of the
      same master less than two node timeouts ago. Assumes the header has been seen. */
  predicate GrantsVote(c: Cluster, h: Header, tooSoon: bool)
    requires Linked(c) && h.sender in c.nodes
  {
    var x := c.nodes[h.sender];
    && c.nodes[c.me].master && SlotsOf(c, c.me) != {}
    && h.currentEpoch >= c.currentEpoch
    && c.lastVoteEpoch != c.currentEpoch
    && !x.master && x.slaveof.Some? && (c.nodes[x.slaveof.value].failed || h.forceAck)
    && !tooSoon
    && forall j :: j in h.slots && j in c.slots ==> c.nodes[c.slots[j]].configEpoch <= h.configEpoch
  }

  function OnRequest(c: Cluster, h: Header, tooSoon: bool): (r: (Cluster, bool))
    requires Linked(c) && h.sender != c.me
  {
    if h.sender !in c.nodes then (c, false)
    else
      var c1 := SeeHeader(c, h);
      if GrantsVote(c1, h, tooSoon) then (c1.(lastVoteEpoch := c1.currentEpoch), true) else (c1, false)
  }

  /** A vote counts when it comes from a master serving slots, at the epoch of the election
      or a later one. */
  predicate CountsVote(c: Cluster, h: Header) {
    && h.sender in c.nodes && c.nodes[h.sender].master && SlotsOf(c, h.sender) != {}
    && h.currentEpoch >= c.auth.epoch
  }

  function OnAck(c: Cluster, h: Header): Cluster {
    var c1 := SeeHeader(c, h);
    if CountsVote(c1, h) then c1.(auth := c1.auth.(count := c1.auth.count + 1)) else c1
  }

  // ---- failover ----

  /** Clock readings, configuration and replication state consulted by a failover attempt. */
  datatype Env = Env(
    now: int, nodeTimeout: int, delay: int, rank: nat, manual: bool, mfEnd: bool, dataTooOld: bool,
    rejoining: bool)   // too soon after the start for a master to evaluate the cluster state

  datatype Outcome = Idle | Reset | Started | Won

  /** Become a master and take the slots of the old one. */
  function TakeOver(c: Cluster): Cluster
    requires Linked(c) && c.nodes[c.me].slaveof.Some?
  {
    var x := c.nodes[c.me];
    WithNode(c, c.me, x.(master := true, slaveof := None))
      .(slots := map j | j in c.slots :: if c.slots[j] == x.slaveof.value then c.me else c.slots[j])
  }

  /** clusterFailoverReplaceYourMaster. */
  function ReplaceMaster(c: Cluster, rejoining: bool): Cluster
    requires Linked(c)
  {
    var x := c.nodes[c.me];
    if x.master || x.slaveof.None? then c
    else if rejoining then TakeOver(c)
    else CountSize(TakeOver(c))
  }

  /** The rest of a failover attempt, once an election is planned; `recent` says that it is not too old. */
  function Proceed(c: Cluster, e: Env, recent: bool): (r: (Cluster, Outcome))
    requires Linked(c)
  {
    var x := c.nodes[c.me];
    var late := !c.auth.sent && !e.mfEnd && e.rank > c.auth.rank;
    var a := if late then c.auth.(time := c.auth.time + (e.rank - c.auth.rank) * 1000, rank := e.rank) else c.auth;
    var d := c.(auth := a);
    if e.now < a.time || !recent then (d, Idle)
    else if !a.sent then
      (d.(currentEpoch := c.currentEpoch + 1, auth := a.(epoch := c.currentEpoch + 1, sent := true)), Started)
    else if a.count >= c.size / 2 + 1 then
      var y := x.(configEpoch := Max(x.configEpoch, a.epoch));
      (ReplaceMaster(WithNode(d, c.me, y), e.rejoining), Won)
    else (d, Idle)
  }

  /** clusterHandleSlaveFailover. */
  function HandleFailover(c: Cluster, e: Env): (r: (Cluster, Outcome))
    requires Linked(c)
  {
    var x := c.nodes[c.me];
    var age := e.now - c.auth.time;
    var timeout := if e.nodeTimeout * 2 < 2000 then 2000 else e.nodeTimeout * 2;
    if x.master || x.slaveof.None? || (!c.nodes[x.slaveof.value].failed && !e.manual)
       || SlotsOf(c, x.slaveof.value) == {} then (c, Idle)
    else if e.dataTooOld && !e.manual then (c, Idle)
    else if age > timeout * 2 then
      (c.(auth := c.auth.(time := if e.mfEnd then e.now else e.now + e.delay + e.rank * 1000,
                          count := 0, sent := false, rank := if e.mfEnd then 0 else e.rank)), Reset)
    else Proceed(c, e, age <= timeout)
  }

  // ---- epochs and commands ----

  /** No epoch this node has heard of exceeds its own configEpoch. */
  predicate OwnsMaxEpoch(c: Cluster)
    requires c.me in c.nodes
  {
    var e := c.nodes[c.me].configEpoch;
    c.currentEpoch <= e && forall n :: n in c.nodes ==> c.nodes[n].configEpoch <= e
  }

  /** clusterBumpConfigEpochWithoutConsensus. */
  function BumpEpoch(c: Cluster): Cluster
    requires c.me in c.nodes
  {
    var x := c.nodes[c.me];
    if x.configEpoch == 0 || !OwnsMaxEpoch(c) then
      WithNode(c, c.me, x.(configEpoch := c.currentEpoch + 1)).(currentEpoch := c.currentEpoch + 1)
    else c
  }

  /** The masters serving at least one slot. */
  function Serving(c: Cluster): set<Id> {
    set n | n in c.nodes && c.nodes[n].master && SlotsOf(c, n) != {}
  }

  function CountSize(c: Cluster): Cluster { c.(size := |Serving(c)|) }

  datatype Command =
    | AddSlots(js: set<nat>)
    | DelSlots(js: set<nat>)
    | SetSlotMigrating(j: nat, n: Id)
    | SetSlotImporting(j: nat, n: Id)
    | SetSlotStable(j: nat)
    | SetSlotNode(j: nat, n: Id, hasKeys: bool)   // hasKeys: this node still holds keys of slot j
    | BumpConfigEpoch
    | SetConfigEpoch(epoch: nat)
    | Learn(n: Id, master: bool)                  // a handshake completed
    | Forget(n: Id)
    | Replicate(n: Id, hasKeys: bool)
    | MarkFailed(n: Id, failed: bool)
    | UpdateState

  function Without(m: map<nat, Id>, n: Id): map<nat, Id> {
    map j | j in m && m[j] != n :: m[j]
  }

  function SetSlot(c: Cluster, j: nat, n: Id, hasKeys: bool): Cluster
    requires c.me in c.nodes && n in c.nodes
  {
    var d := if !hasKeys then c.(migrating := c.migrating - {j}) else c;
    var e := if n == c.me && j in c.importing then BumpEpoch(d).(importing := c.importing - {j}) else d;
    e.(slots := c.slots[j := n])
  }

  function DelNode(c: Cluster, n: Id): Cluster {
    c.(nodes := map x | x in c.nodes && x != n ::
         if c.nodes[x].slaveof == Some(n) then c.nodes[x].(slaveof := None) else c.nodes[x],
       slots := Without(c.slots, n), migrating := Without(c.migrating, n), importing := Without(c.importing, n))
  }

  /** A command that is refused leaves the configuration unchanged. */
  function Apply(c: Cluster, cmd: Command): Cluster
    requires Linked(c)
  {
    var x := c.nodes[c.me];
    match cmd
    case AddSlots(js) =>
      if (forall j :: j in js ==> j < SLOTS && j !in c.slots) then
        c.(slots := c.slots + (map j | j in js :: c.me), importing := c.importing - js) else c
    case DelSlots(js) =>
      if (forall j :: j in js ==> j < SLOTS && j in c.slots) then
        c.(slots := c.slots - js, importing := c.importing - js) else c
    case SetSlotMigrating(j, n) =>
      if x.master && j < SLOTS && j in c.slots && c.slots[j] == c.me && n in c.nodes then
        c.(migrating := c.migrating[j := n]) else c
    case SetSlotImporting(j, n) =>
      if x.master && j < SLOTS && !(j in c.slots && c.slots[j] == c.me) && n in c.nodes then
        c.(importing := c.importing[j := n]) else c
    case SetSlotStable(j) =>
      if x.master && j < SLOTS then c.(importing := c.importing - {j}, migrating := c.migrating - {j}) else c
    case SetSlotNode(j, n, hasKeys) =>
      if x.master && j < SLOTS && n in c.nodes
         && !(j in c.slots && c.slots[j] == c.me && n != c.me && hasKeys) then SetSlot(c, j, n, hasKeys) else c
    case BumpConfigEpoch => BumpEpoch(c)
    case SetConfigEpoch(e) =>
      if c.nodes.Keys == {c.me} && x.configEpoch == 0 then
        WithNode(c, c.me, x.(configEpoch := e)).(currentEpoch := Max(c.currentEpoch, e)) else c
    case Learn(n, master) =>
      if n !in c.nodes then WithNode(c, n, Node(0, master, None, false)) else c
    case Forget(n) =>
      if n in c.nodes && n != c.me && !(!x.master && x.slaveof == Some(n)) then DelNode(c, n) else c
    case Replicate(n, hasKeys) =>
      if n in c.nodes && n != c.me && c.nodes[n].master && !(x.master && (SlotsOf(c, c.me) != {} || hasKeys)) then
        SetMaster(c, n) else c
    case MarkFailed(n, failed) =>
      if n in c.nodes then WithNode(c, n, c.nodes[n].(failed := failed)) else c
    case UpdateState => CountSize(c)
  }
}
