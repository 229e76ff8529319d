/** Nodes exchanging packets over a bus that delays, loses and reorders them: the epoch bound
    and the safety of failover elections, over every run. */
module ClusterBus {
  import opened Wrappers
  import opened ClusterNode

  datatype Packet = Packet(dst: Id, msg: Message)

  /** A vote granted, whether or not its acknowledgement is ever delivered. */
  datatype Vote = Vote(voter: Id, epoch: nat, candidate: Id)

  /** An election won: the voters counted since it started, the tally it started with and
      the cluster size its quorum was computed from. */
  datatype Win = Win(epoch: nat, node: Id, voters: set<Id>, carried: nat, size: nat)

  /** `net` holds every packet ever sent, None once delivered or lost. The last four fields
      record history; no node reads them. */
  datatype World = World(
    nodes: map<Id, Cluster>,
    net: seq<Option<Packet>>,
    votes: set<Vote>,
    counted: map<Id, set<Id>>,
    carried: map<Id, nat>,
    wins: set<Win>)

  datatype Kind = SendPing | SendPlain | SendUpdate(about: Id)

  datatype Event =
    | Deliver(i: nat, tooSoon: bool, linked: bool)
    | Drop(i: nat)
    | Send(src: Id, dst: Id, kind: Kind)
    | Failover(n: Id, env: Env, reached: seq<Id>)   // reached: nodes with a connected link
    | Admin(n: Id, cmd: Command)

  // ---- what a node keeps ----

  ghost predicate Below(nodes: map<Id, Node>, epoch: nat) {
    forall n :: n in nodes ==> nodes[n].configEpoch <= epoch
  }

  /** The epoch bound: no epoch a node knows of exceeds its currentEpoch. */
  ghost predicate EpochsBounded(c: Cluster) {
    && Below(c.nodes, c.currentEpoch)
    && c.auth.epoch <= c.currentEpoch && c.lastVoteEpoch <= c.currentEpoch
  }

  ghost predicate NodeOk(c: Cluster) { Linked(c) && EpochsBounded(c) }

  predicate HeaderOk(h: Header) { h.configEpoch <= h.currentEpoch }

  predicate MessageOk(m: Message) {
    HeaderOk(m.hdr) && (m.body.Update? ==> m.body.epoch <= m.hdr.currentEpoch)
  }

  /** A change that concerns no election. */
  predicate Quiet(c: Cluster, d: Cluster) {
    d.me == c.me && d.auth == c.auth && d.lastVoteEpoch == c.lastVoteEpoch && c.currentEpoch <= d.currentEpoch
  }

  lemma HeaderIsOk(c: Cluster, forceAck: bool)
    requires NodeOk(c)
    ensures HeaderOk(BuildHeader(c, forceAck))
    ensures BuildHeader(c, forceAck).sender == c.me && BuildHeader(c, forceAck).currentEpoch == c.currentEpoch
  {
  }

  lemma SeeHeaderOk(c: Cluster, h: Header)
    requires NodeOk(c) && HeaderOk(h)
    ensures NodeOk(SeeHeader(c, h)) && Quiet(c, SeeHeader(c, h))
    ensures h.sender in c.nodes ==> h.currentEpoch <= SeeHeader(c, h).currentEpoch
    ensures SeeHeader(c, h).currentEpoch == c.currentEpoch || SeeHeader(c, h).currentEpoch == h.currentEpoch
    ensures SeeHeader(c, h).nodes.Keys == c.nodes.Keys
  {
  }

  lemma OnPingOk(c: Cluster, h: Header)
    requires NodeOk(c) && HeaderOk(h) && h.sender != c.me
    ensures NodeOk(OnPing(c, h)) && Quiet(c, OnPing(c, h))
  {
    hide FixCollision, SeeRole, UpdateSlots, SeeHeader, Below, Links, SlotsOf;
    if h.sender in c.nodes {
      SeeHeaderOk(c, h);
      var c1 := SeeHeader(c, h);
      SeeRoleLinked(c1, h);
      var c2 := SeeRole(c1, h);
      SeeRoleBounded(c1, h);
      UpdateSlotsLinked(c2, h.sender, h.configEpoch, h.slots);
      UpdateSlotsQuiet(c2, h.sender, h.configEpoch, h.slots);
      FixCollisionOk(c2, h.sender);
      FixCollisionOk(UpdateSlots(c2, h.sender, h.configEpoch, h.slots), h.sender);
    }
  }

  lemma SeeRoleBounded(c: Cluster, h: Header)
    requires NodeOk(c) && h.sender in c.nodes && h.sender != c.me
    ensures EpochsBounded(SeeRole(c, h)) && Quiet(c, SeeRole(c, h))
  {
  }

  lemma UpdateSlotsQuiet(c: Cluster, n: Id, epoch: nat, claimed: set<nat>)
    requires NodeOk(c) && n in c.nodes
    ensures NodeOk(UpdateSlots(c, n, epoch, claimed)) && Quiet(c, UpdateSlots(c, n, epoch, claimed))
  {
    UpdateSlotsLinked(c, n, epoch, claimed);
  }

  lemma FixCollisionOk(c: Cluster, n: Id)
    requires NodeOk(c) && n in c.nodes
    ensures NodeOk(FixCollision(c, n)) && Quiet(c, FixCollision(c, n))
  {
  }

  lemma RaiseOk(c: Cluster, n: Id, epoch: nat)
    requires NodeOk(c) && n in c.nodes && epoch <= c.currentEpoch
    ensures n in SetNodeAsMaster(c, n).nodes
    ensures var d := SetNodeAsMaster(c, n);
      var e := WithNode(d, n, d.nodes[n].(configEpoch := epoch));
      NodeOk(e) && Quiet(c, e) && n in e.nodes
  {
  }

  lemma OnUpdateOk(c: Cluster, h: Header, about: Id, epoch: nat, claimed: set<nat>)
    requires NodeOk(c) && HeaderOk(h) && epoch <= h.currentEpoch && h.sender != c.me
    ensures NodeOk(OnUpdate(c, h, about, epoch, claimed)) && Quiet(c, OnUpdate(c, h, about, epoch, claimed))
  {
    hide UpdateSlots, SeeHeader, Below, Links, SetNodeAsMaster, WithNode;
    SeeHeaderOk(c, h);
    var c1 := SeeHeader(c, h);
    if h.sender in c.nodes && about in c.nodes && c1.nodes[about].configEpoch < epoch {
      RaiseOk(c1, about, epoch);
      var c2 := SetNodeAsMaster(c1, about);
      UpdateSlotsQuiet(WithNode(c2, about, c2.nodes[about].(configEpoch := epoch)), about, epoch, claimed);
    }
  }

  lemma BumpEpochOk(c: Cluster)
    requires NodeOk(c)
    ensures NodeOk(BumpEpoch(c)) && Quiet(c, BumpEpoch(c)) && BumpEpoch(c).slots == c.slots
    ensures BumpEpoch(c).nodes.Keys == c.nodes.Keys
  {
  }

  lemma SetSlotOk(c: Cluster, j: nat, n: Id, hasKeys: bool)
    requires NodeOk(c) && j < SLOTS && n in c.nodes
    ensures NodeOk(SetSlot(c, j, n, hasKeys)) && Quiet(c, SetSlot(c, j, n, hasKeys))
  {
    hide BumpEpoch, Links, Below;
    var d := if !hasKeys then c.(migrating := c.migrating - {j}) else c;
    BumpEpochOk(d);
    LinkedMe(c);
    OneSlotLinked(d, j, n);
    OneSlotLinked(BumpEpoch(d), j, n);
  }

  lemma OneSlotLinked(c: Cluster, j: nat, n: Id)
    requires Linked(c) && j < SLOTS && n in c.nodes
    ensures Links(c.me, c.nodes, c.slots[j := n])
  {
  }

  lemma SetMasterOk(c: Cluster, n: Id)
    requires NodeOk(c) && n in c.nodes && n != c.me
    ensures NodeOk(SetMaster(c, n)) && Quiet(c, SetMaster(c, n))
  {
  }

  lemma DelNodeOk(c: Cluster, n: Id)
    requires NodeOk(c) && n != c.me && !(!c.nodes[c.me].master && c.nodes[c.me].slaveof == Some(n))
    ensures NodeOk(DelNode(c, n)) && Quiet(c, DelNode(c, n))
  {
  }

  /** Changing the slot tables keeps everything as long as owners are known nodes. */
  lemma NewTablesOk(c: Cluster, slots: map<nat, Id>, migrating: map<nat, Id>, importing: map<nat, Id>)
    requires NodeOk(c) && forall j :: j in slots ==> j < SLOTS && slots[j] in c.nodes
    ensures var d := c.(slots := slots, migrating := migrating, importing := importing); NodeOk(d) && Quiet(c, d)
  {
  }

  lemma ApplySlotsOk(c: Cluster, cmd: Command)
    requires NodeOk(c)
    requires
      || cmd.AddSlots? || cmd.DelSlots?
      || cmd.SetSlotMigrating? || cmd.SetSlotImporting? || cmd.SetSlotStable? || cmd.SetSlotNode?
    ensures NodeOk(Apply(c, cmd)) && Quiet(c, Apply(c, cmd))
  {
    hide SetSlot, SlotsOf, Serving, Below;
    var d := Apply(c, cmd);
    match cmd
    case AddSlots(js) => NewTablesOk(c, d.slots, d.migrating, d.importing);
    case DelSlots(js) => NewTablesOk(c, d.slots, d.migrating, d.importing);
    case SetSlotMigrating(j, n) => NewTablesOk(c, d.slots, d.migrating, d.importing);
    case SetSlotImporting(j, n) => NewTablesOk(c, d.slots, d.migrating, d.importing);
    case SetSlotStable(j) => NewTablesOk(c, d.slots, d.migrating, d.importing);
    case SetSlotNode(j, n, hasKeys) =>
      if j < SLOTS && n in c.nodes {
        SetSlotOk(c, j, n, hasKeys);
      }
  }

  lemma WithNodeOk(c: Cluster, n: Id, x: Node, epoch: nat)
    requires NodeOk(c) && c.currentEpoch <= epoch && x.configEpoch <= epoch
    requires if n in c.nodes then x.slaveof == c.nodes[n].slaveof && x.master == c.nodes[n].master else x.slaveof.None?
    ensures NodeOk(WithNode(c, n, x).(currentEpoch := epoch)) && Quiet(c, WithNode(c, n, x).(currentEpoch := epoch))
  {
  }

  lemma ApplyOk(c: Cluster, cmd: Command)
    requires NodeOk(c)
    ensures NodeOk(Apply(c, cmd)) && Quiet(c, Apply(c, cmd))
  {
    hide BumpEpoch, SetSlot, SetMaster, DelNode, SlotsOf, Serving, WithNode;
    var x := c.nodes[c.me];
    match cmd
    case BumpConfigEpoch => BumpEpochOk(c);
    case SetConfigEpoch(e) => WithNodeOk(c, c.me, x.(configEpoch := e), Max(c.currentEpoch, e));
    case Learn(n, master) =>
      if n !in c.nodes {
        LearnOk(c, n, master);
      }
    case Forget(n) =>
      if n != c.me && !(!x.master && x.slaveof == Some(n)) {
        DelNodeOk(c, n);
      }
    case Replicate(n, hasKeys) =>
      if n in c.nodes && n != c.me {
        SetMasterOk(c, n);
      }
    case MarkFailed(n, failed) =>
      if n in c.nodes {
        MarkOk(c, n, failed);
      }
    case UpdateState =>
    case _ => ApplySlotsOk(c, cmd);
  }

  lemma LearnOk(c: Cluster, n: Id, master: bool)
    requires NodeOk(c) && n !in c.nodes
    ensures NodeOk(WithNode(c, n, Node(0, master, None, false)))
    ensures Quiet(c, WithNode(c, n, Node(0, master, None, false)))
  {
  }

  lemma MarkOk(c: Cluster, n: Id, failed: bool)
    requires NodeOk(c) && n in c.nodes
    ensures NodeOk(WithNode(c, n, c.nodes[n].(failed := failed)))
    ensures Quiet(c, WithNode(c, n, c.nodes[n].(failed := failed)))
  {
  }

  /** A vote is granted at the voter's current epoch, which is the request's, and only once. */
  lemma OnRequestOk(c: Cluster, h: Header, tooSoon: bool)
    requires NodeOk(c) && HeaderOk(h) && h.sender != c.me
    ensures var (d, granted) := OnRequest(c, h, tooSoon);
      && NodeOk(d) && d.me == c.me && d.auth == c.auth && c.currentEpoch <= d.currentEpoch
      && (!granted ==> d.lastVoteEpoch == c.lastVoteEpoch)
      && (granted ==> d.lastVoteEpoch == d.currentEpoch == h.currentEpoch && c.lastVoteEpoch < h.currentEpoch)
  {
    hide SeeHeader, Links, Below;
    SeeHeaderOk(c, h);
  }

  lemma OnAckOk(c: Cluster, h: Header)
    requires NodeOk(c) && HeaderOk(h)
    ensures var d := OnAck(c, h);
      && NodeOk(d) && d.me == c.me && d.lastVoteEpoch == c.lastVoteEpoch && c.currentEpoch <= d.currentEpoch
      && d.auth == c.auth.(count := c.auth.count + if CountsVote(SeeHeader(c, h), h) then 1 else 0)
  {
    hide SeeHeader, Links, Below, CountsVote;
    SeeHeaderOk(c, h);
  }

  lemma TakeOverOk(c: Cluster)
    requires NodeOk(c) && c.nodes[c.me].slaveof.Some?
    ensures NodeOk(TakeOver(c)) && Quiet(c, TakeOver(c))
  {
  }

  lemma ReplaceMasterOk(c: Cluster, rejoining: bool)
    requires NodeOk(c)
    ensures NodeOk(ReplaceMaster(c, rejoining)) && Quiet(c, ReplaceMaster(c, rejoining))
  {
    hide TakeOver, Serving, Links, Below;
    LinkedMe(c);
    if c.nodes[c.me].slaveof.Some? {
      TakeOverOk(c);
    }
  }

  /** How one call of the failover handler can change the election state. */
  lemma HandleFailoverOk(c: Cluster, e: Env)
    requires NodeOk(c)
    ensures var (d, o) := HandleFailover(c, e);
      && NodeOk(d) && d.me == c.me && d.lastVoteEpoch == c.lastVoteEpoch && c.currentEpoch <= d.currentEpoch
      && match o
         case Idle => d.auth.epoch == c.auth.epoch && d.auth.count == c.auth.count && d.auth.sent == c.auth.sent
         case Reset => d.auth.epoch == c.auth.epoch && d.auth.count == 0 && !d.auth.sent
         case Started =>
           (!c.auth.sent && d.auth.sent && d.auth.count == c.auth.count
            && d.auth.epoch == d.currentEpoch == c.currentEpoch + 1)
         case Won =>
           (d.auth.epoch == c.auth.epoch && d.auth.count == c.auth.count && c.auth.sent && d.auth.sent
            && c.auth.count >= c.size / 2 + 1)
  {
    hide ReplaceMaster, SlotsOf, Links, Below, WithNode;
    LinkedMe(c);
    var x := c.nodes[c.me];
    var late := !c.auth.sent && !e.mfEnd && e.rank > c.auth.rank;
    var a := if late then c.auth.(time := c.auth.time + (e.rank - c.auth.rank) * 1000, rank := e.rank) else c.auth;
    RaiseMineOk(c.(auth := a), a.epoch);
    ReplaceMasterOk(WithNode(c.(auth := a), c.me, x.(configEpoch := Max(x.configEpoch, a.epoch))), e.rejoining);
    BelowMore(c);
  }

  lemma BelowMore(c: Cluster)
    requires Below(c.nodes, c.currentEpoch)
    ensures Below(c.nodes, c.currentEpoch + 1)
  {
  }

  lemma RaiseMineOk(c: Cluster, epoch: nat)
    requires NodeOk(c) && epoch <= c.currentEpoch
    ensures var x := c.nodes[c.me]; var d := WithNode(c, c.me, x.(configEpoch := Max(x.configEpoch, epoch)));
      NodeOk(d) && Quiet(c, d)
  {
  }

  // ---- the world ----

  predicate Enabled(w: World, ev: Event) {
    match ev
    case Deliver(i, _, _) => i < |w.net| && w.net[i].Some?
    case Drop(i) => i < |w.net| && w.net[i].Some?
    case Send(src, dst, kind) =>
      src in w.nodes && dst in w.nodes && src != dst && (kind.SendUpdate? ==> kind.about in w.nodes[src].nodes)
    case Failover(n, _, reached) => n in w.nodes && forall d :: d in reached ==> d in w.nodes && d != n
    case Admin(n, _) => n in w.nodes
  }

  function Post(w: World, ps: seq<Packet>): World {
    w.(net := w.net + seq(|ps|, k requires 0 <= k < |ps| => Some(ps[k])))
  }

  function SentMessage(c: Cluster, kind: Kind): Message
    requires Linked(c) && (kind.SendUpdate? ==> kind.about in c.nodes)
  {
    Message(BuildHeader(c, false),
      match kind
      case SendPing => Ping
      case SendPlain => Plain
      case SendUpdate(n) => Update(n, c.nodes[n].configEpoch, SlotsOf(c, n)))
  }

  /** Processing a packet at its destination. */
  function Receive(w: World, p: Packet, tooSoon: bool, linked: bool): World
    requires p.dst in w.nodes && Linked(w.nodes[p.dst]) && p.msg.hdr.sender != w.nodes[p.dst].me
  {
    var c, h := w.nodes[p.dst], p.msg.hdr;
    match p.msg.body
    case Ping => w.(nodes := w.nodes[p.dst := OnPing(c, h)])
    case Plain => w.(nodes := w.nodes[p.dst := SeeHeader(c, h)])
    case Update(n, e, s) => w.(nodes := w.nodes[p.dst := OnUpdate(c, h, n, e, s)])
    case AuthRequest =>
      var (d, granted) := OnRequest(c, h, tooSoon);
      var w1 := w.(nodes := w.nodes[p.dst := d]);
      if !granted then w1
      else
        var w2 := w1.(votes := w1.votes + {Vote(p.dst, d.currentEpoch, h.sender)});
        OnRequestLinked(c, h, tooSoon);
        if linked then Post(w2, [Packet(h.sender, Message(BuildHeader(d, false), AuthAck))]) else w2
    case AuthAck =>
      var w1 := w.(nodes := w.nodes[p.dst := OnAck(c, h)]);
      if CountsVote(SeeHeader(c, h), h) && c.auth.sent && p.dst in w.counted then
        w1.(counted := w1.counted[p.dst := w1.counted[p.dst] + {h.sender}])
      else w1
  }

  lemma OnRequestLinked(c: Cluster, h: Header, tooSoon: bool)
    requires Linked(c) && h.sender != c.me
    ensures Linked(OnRequest(c, h, tooSoon).0)
  {
  }

  function RunFailover(w: World, n: Id, env: Env, reached: seq<Id>): World
    requires n in w.nodes && Linked(w.nodes[n]) && n in w.counted && n in w.carried
  {
    var c := w.nodes[n];
    var (d, o) := HandleFailover(c, env);
    var w1 := w.(nodes := w.nodes[n := d]);
    match o
    case Idle => w1
    case Reset => w1
    case Started =>
      FailoverLinked(c, env);
      var m := Message(BuildHeader(d, env.mfEnd), AuthRequest);
      Post(w1.(counted := w.counted[n := {}], carried := w.carried[n := c.auth.count]),
           seq(|reached|, k requires 0 <= k < |reached| => Packet(reached[k], m)))
    case Won => w1.(wins := w.wins + {Win(c.auth.epoch, n, w.counted[n], w.carried[n], c.size)})
  }

  lemma FailoverLinked(c: Cluster, env: Env)
    requires Linked(c)
    ensures HandleFailover(c, env).1.Started? ==> Linked(HandleFailover(c, env).0)
  {
  }

  // ---- the epoch bound over nodes and packets ----

  ghost predicate PacketOk(nodes: map<Id, Cluster>, p: Packet) {
    p.dst in nodes && p.msg.hdr.sender in nodes && p.msg.hdr.sender != p.dst && MessageOk(p.msg)
  }

  ghost predicate NodesOk(nodes: map<Id, Cluster>) {
    forall n :: n in nodes ==> nodes[n].me == n && NodeOk(nodes[n])
  }

  ghost predicate NetOk(nodes: map<Id, Cluster>, net: seq<Option<Packet>>) {
    forall i :: 0 <= i < |net| && net[i].Some? ==> PacketOk(nodes, net[i].value)
  }

  ghost predicate EpochBound(w: World) {
    NodesOk(w.nodes) && NetOk(w.nodes, w.net) && w.counted.Keys == w.nodes.Keys == w.carried.Keys
  }

  function Take(w: World, i: nat): World
    requires i < |w.net|
  {
    w.(net := w.net[i := None])
  }

  /** One step of the world. */
  ghost function Next(w: World, ev: Event): World
    requires EpochBound(w) && Enabled(w, ev)
  {
    match ev
    case Deliver(i, tooSoon, linked) =>
      var p := w.net[i].value;
      assert PacketOk(w.nodes, p);
      Receive(Take(w, i), p, tooSoon, linked)
    case Drop(i) => Take(w, i)
    case Send(src, dst, kind) => Post(w, [Packet(dst, SentMessage(w.nodes[src], kind))])
    case Failover(n, env, reached) => RunFailover(w, n, env, reached)
    case Admin(n, cmd) => w.(nodes := w.nodes[n := Apply(w.nodes[n], cmd)])
  }

  // ---- elections ----

  /** Votes stay below what their voter and their candidate have reached, and no voter votes
      twice in an epoch. */
  ghost predicate VotesOk(nodes: map<Id, Cluster>, votes: set<Vote>) {
    && (forall v :: v in votes ==>
          && v.voter in nodes && v.candidate in nodes
          && v.epoch <= nodes[v.voter].lastVoteEpoch && v.epoch <= nodes[v.candidate].auth.epoch)
    && OneVoteEach(votes)
  }

  ghost predicate OneVoteEach(votes: set<Vote>) {
    forall u, v :: u in votes && v in votes && u.voter == v.voter && u.epoch == v.epoch ==> u == v
  }

  predicate RequestOk(nodes: map<Id, Cluster>, p: Packet) {
    p.msg.body.AuthRequest? ==>
      p.msg.hdr.sender in nodes && p.msg.hdr.currentEpoch <= nodes[p.msg.hdr.sender].auth.epoch
  }

  /** A request in flight never runs ahead of its candidate's latest election. */
  ghost predicate RequestsOk(nodes: map<Id, Cluster>, net: seq<Option<Packet>>) {
    forall i :: 0 <= i < |net| && net[i].Some? ==> RequestOk(nodes, net[i].value)
  }

  predicate IsAck(o: Option<Packet>, v: Vote) {
    o.Some? && o.value.msg.body.AuthAck? && o.value.dst == v.candidate
    && o.value.msg.hdr.sender == v.voter && o.value.msg.hdr.currentEpoch == v.epoch
  }

  /** Every acknowledgement in flight carries a vote, and no vote is carried twice. */
  ghost predicate AcksOk(net: seq<Option<Packet>>, votes: set<Vote>) {
    && (forall i, v :: 0 <= i < |net| && IsAck(net[i], v) ==> v in votes)
    && (forall i, j, v :: 0 <= i < j < |net| && IsAck(net[i], v) ==> !IsAck(net[j], v))
  }

  ghost predicate InFlight(net: seq<Option<Packet>>, v: Vote) {
    exists i :: 0 <= i < |net| && IsAck(net[i], v)
  }

  /** While an election is open its tally is what it started with plus one for each counted
      voter; the votes counted were cast for it and are no longer in flight. */
  ghost predicate TallyOk(n: Id, a: Auth, net: seq<Option<Packet>>, votes: set<Vote>, counted: set<Id>, carried: nat) {
    a.sent ==>
      && a.count == carried + |counted|
      && forall x :: x in counted ==> Vote(x, a.epoch, n) in votes && !InFlight(net, Vote(x, a.epoch, n))
  }

  ghost predicate TalliesOk(w: World)
    requires w.counted.Keys == w.nodes.Keys == w.carried.Keys
  {
    forall n :: n in w.nodes ==> TallyOk(n, w.nodes[n].auth, w.net, w.votes, w.counted[n], w.carried[n])
  }

  ghost predicate WinOk(x: Win, votes: set<Vote>) {
    && x.carried + |x.voters| >= x.size / 2 + 1
    && forall v :: v in x.voters ==> Vote(v, x.epoch, x.node) in votes
  }

  ghost predicate Honest(w: World)
    requires EpochBound(w)
  {
    && VotesOk(w.nodes, w.votes) && RequestsOk(w.nodes, w.net) && AcksOk(w.net, w.votes)
    && TalliesOk(w)
    && forall x :: x in w.wins ==> WinOk(x, w.votes)
  }

  ghost predicate Init(w: World) {
    && NodesOk(w.nodes) && w.net == [] && w.votes == {} && w.wins == {}
    && w.counted.Keys == w.nodes.Keys == w.carried.Keys
    && forall n :: n in w.nodes ==> !w.nodes[n].auth.sent
  }

  lemma InitHonest(w: World)
    requires Init(w)
    ensures EpochBound(w) && Honest(w)
  {
  }
}
