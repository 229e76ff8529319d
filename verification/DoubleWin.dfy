/** A run in which two replicas of one master both win epoch 2. The first replica gave up an
    election, counted its late vote while no election was open, and carried it into the next. */
module DoubleWin {
  import opened Wrappers
  import opened ClusterNode
  import opened ClusterBus
  import opened Election

  // Node 1 is the only master and serves slot 0; nodes 2 and 3 replicate it.

  function Table(): map<Id, Node> {
    map[1 := Node(0, true, None, false), 2 := Node(0, false, Some(1), false), 3 := Node(0, false, Some(1), false)]
  }

  function At(me: Id, epoch: nat, voted: nat, auth: Auth): Cluster {
    Cluster(me, epoch, voted, 1, Table(), map[0 := 1], map[], map[], auth)
  }

  function Manual(now: int): Env { Env(now, 1000, 0, 0, true, true, false, false) }

  lemma SlotsHere(c: Cluster)
    requires c.slots == map[0 := 1]
    ensures SlotsOf(c, 1) == {0}
  {
    assert 0 in SlotsOf(c, 1);
  }

  lemma LinkedHere(me: Id, epoch: nat, voted: nat, auth: Auth)
    requires me in {1, 2, 3}
    ensures Linked(At(me, epoch, voted, auth))
  {
  }

  lemma SeesNothingNew(me: Id, epoch: nat, voted: nat, auth: Auth, h: Header)
    requires me in {1, 2, 3} && h.sender in {1, 2, 3} && h.configEpoch == 0
    ensures SeeHeader(At(me, epoch, voted, auth), h) == At(me, Max(epoch, h.currentEpoch), voted, auth)
  {
    assert SeeHeader(At(me, epoch, voted, auth), h).nodes == Table();
  }

  lemma Starts(me: Id, epoch: nat, e: nat, count: nat, t: int)
    requires me in {2, 3}
    ensures Linked(At(me, epoch, 0, Auth(e, count, false, t, 0)))
    ensures HandleFailover(At(me, epoch, 0, Auth(e, count, false, t, 0)), Manual(t))
      == (At(me, epoch + 1, 0, Auth(epoch + 1, count, true, t, 0)), Started)
  {
    hide Links;
    LinkedHere(me, epoch, 0, Auth(e, count, false, t, 0));
    SlotsHere(At(me, epoch, 0, Auth(e, count, false, t, 0)));
  }

  lemma Resets(me: Id, epoch: nat, e: nat, count: nat, t: int)
    requires me in {2, 3}
    ensures Linked(At(me, epoch, 0, Auth(e, count, true, t, 0)))
    ensures HandleFailover(At(me, epoch, 0, Auth(e, count, true, t, 0)), Manual(t + 5000))
      == (At(me, epoch, 0, Auth(e, 0, false, t + 5000, 0)), Reset)
  {
    hide Links;
    LinkedHere(me, epoch, 0, Auth(e, count, true, t, 0));
    SlotsHere(At(me, epoch, 0, Auth(e, count, true, t, 0)));
  }

  lemma Wins(me: Id, epoch: nat, e: nat, t: int)
    requires me in {2, 3}
    ensures Linked(At(me, epoch, 0, Auth(e, 1, true, t, 0)))
    ensures HandleFailover(At(me, epoch, 0, Auth(e, 1, true, t, 0)), Manual(t)).1 == Won
  {
    hide Links, ReplaceMaster;
    LinkedHere(me, epoch, 0, Auth(e, 1, true, t, 0));
    SlotsHere(At(me, epoch, 0, Auth(e, 1, true, t, 0)));
  }

  /** The header of a replica's vote request and of the master's acknowledgement. */
  function Asking(me: Id, epoch: nat): Header { Header(me, epoch, 0, {0}, Some(1), true) }

  function Granting(epoch: nat): Header { Header(1, epoch, 0, {0}, None, false) }

  lemma Headers(me: Id, epoch: nat, voted: nat, auth: Auth)
    requires me in {1, 2, 3}
    ensures Linked(At(me, epoch, voted, auth))
    ensures me != 1 ==> BuildHeader(At(me, epoch, voted, auth), true) == Asking(me, epoch)
    ensures me == 1 ==> BuildHeader(At(me, epoch, voted, auth), false) == Granting(epoch)
  {
    LinkedHere(me, epoch, voted, auth);
    SlotsHere(At(me, epoch, voted, auth));
  }

  lemma Grants(me: Id, epoch: nat, asked: nat, auth: Auth)
    requires me in {2, 3} && epoch < asked
    ensures Linked(At(1, epoch, epoch, auth))
    ensures OnRequest(At(1, epoch, epoch, auth), Asking(me, asked), false) == (At(1, asked, asked, auth), true)
  {
    hide Links, SeeHeader;
    LinkedHere(1, epoch, epoch, auth);
    LinkedHere(1, asked, epoch, auth);
    SeesNothingNew(1, epoch, epoch, auth, Asking(me, asked));
    SlotsHere(At(1, asked, epoch, auth));
    assert GrantsVote(At(1, asked, epoch, auth), Asking(me, asked), false);
  }

  lemma Counts(me: Id, epoch: nat, auth: Auth, granted: nat)
    requires me in {2, 3} && auth.epoch <= granted <= epoch
    ensures var h := Granting(granted); var c := At(me, epoch, 0, auth);
      CountsVote(SeeHeader(c, h), h) && OnAck(c, h) == At(me, epoch, 0, auth.(count := auth.count + 1))
  {
    hide SeeHeader;
    SeesNothingNew(me, epoch, 0, auth, Granting(granted));
    SlotsHere(At(me, epoch, 0, auth));
  }

  lemma AtParts(me: Id, epoch: nat, voted: nat, auth: Auth)
    ensures At(me, epoch, voted, auth).currentEpoch == epoch && At(me, epoch, voted, auth).me == me
    ensures At(me, epoch, voted, auth).auth == auth && At(me, epoch, voted, auth).size == 1
  {
  }

  // ---- runs that start with nothing sent ----

  function Unasked(t: int): Auth { Auth(0, 0, false, t, 0) }

  function Start(): World {
    World(Three(At(1, 0, 0, Unasked(0)), At(2, 0, 0, Unasked(0)), At(3, 0, 0, Unasked(5000))),
          [], {}, Three({}, {}, {}), Three(0, 0, 0), {})
  }

  function Three<T>(x: T, y: T, z: T): map<Id, T> { map[1 := x, 2 := y, 3 := z] }

  lemma ThreeKeys<T>(x: T, y: T, z: T)
    ensures Three(x, y, z).Keys == {1, 2, 3}
    ensures Three(x, y, z)[1] == x && Three(x, y, z)[2] == y && Three(x, y, z)[3] == z
  {
  }

  lemma StartIsInit()
    ensures Init(Start()) && AllFresh(Start())
  {
    hide NodeOk, At, Three;
    ThreeKeys(At(1, 0, 0, Unasked(0)), At(2, 0, 0, Unasked(0)), At(3, 0, 0, Unasked(5000)));
    ThreeKeys<set<Id>>({}, {}, {});
    ThreeKeys<nat>(0, 0, 0);
    UnaskedOk(1, 0);
    UnaskedOk(2, 0);
    UnaskedOk(3, 5000);
  }

  lemma UnaskedOk(me: Id, t: int)
    requires me in {1, 2, 3}
    ensures var c := At(me, 0, 0, Unasked(t)); NodeOk(c) && c.me == me && c.auth == Unasked(t)
  {
    hide Links;
    LinkedHere(me, 0, 0, Unasked(t));
  }

  // ---- everyone sees one master ----

  ghost predicate SeesOne(c: Cluster) { c.slots == map[0 := 1] && c.nodes == Table() && c.size == 1 }

  /** Every node sees one master serving slots, except a node that has won its election. */
  ghost predicate OneMaster(w: World) {
    forall n :: n in w.nodes ==> SeesOne(w.nodes[n]) || HasWon(w.wins, n, w.nodes[n].auth.epoch)
  }

  lemma AtSeesOne(me: Id, epoch: nat, voted: nat, auth: Auth)
    ensures SeesOne(At(me, epoch, voted, auth))
  {
  }

  lemma OnlyServing(c: Cluster)
    requires SeesOne(c)
    ensures Serving(c) <= {1}
  {
  }

  lemma OneMasterAgreed(w: World, epoch: nat)
    requires OneMaster(w)
    ensures Agreed(w, epoch, {1})
  {
    hide SeesOne, Serving;
    forall n | n in w.nodes && Open(w.wins, n, w.nodes[n].auth, epoch)
      ensures Serving(w.nodes[n]) <= {1} && |{1}| <= w.nodes[n].size
    {
      OnlyServing(w.nodes[n]);
      SizeOne(w.nodes[n]);
    }
  }

  lemma SizeOne(c: Cluster)
    requires SeesOne(c)
    ensures c.size == 1
  {
  }

  lemma StaysOne(w: World, w': World, me: Id)
    requires OneMaster(w) && me in w'.nodes && w'.nodes == w.nodes[me := w'.nodes[me]] && w.wins <= w'.wins
    requires SeesOne(w'.nodes[me]) || HasWon(w'.wins, me, w'.nodes[me].auth.epoch)
    ensures OneMaster(w')
  {
    hide SeesOne;
    forall n | n in w'.nodes && n != me
      ensures SeesOne(w'.nodes[n]) || HasWon(w'.wins, n, w'.nodes[n].auth.epoch)
    {
      assert SeesOne(w.nodes[n]) || HasWon(w.wins, n, w.nodes[n].auth.epoch);
    }
  }

  datatype Trace = Trace(ws: seq<World>, evs: seq<Event>)

  /** The world that a run from Start has reached. */
  ghost predicate Reached(r: Trace, w: World) {
    && Run(r.ws, r.evs) && r.ws[0] == Start() && r.ws[|r.evs|] == w && EpochBound(w)
    && forall i :: 0 <= i < |r.ws| ==> OneMaster(r.ws[i])
  }

  lemma ReachedBound(r: Trace, w: World)
    requires Reached(r, w)
    ensures EpochBound(w) && OneMaster(w)
  {
    hide OneMaster, EpochBound;
  }

  lemma Begin() returns (r: Trace)
    ensures Reached(r, Start())
  {
    hide EpochBound, Init, Start, OneMaster;
    StartIsInit();
    StartOne();
    InitHonest(Start());
    r := Trace([Start()], []);
  }

  lemma StartOne()
    ensures OneMaster(Start())
  {
    hide At, SeesOne;
    AtSeesOne(1, 0, 0, Unasked(0));
    AtSeesOne(2, 0, 0, Unasked(0));
    AtSeesOne(3, 0, 0, Unasked(5000));
  }

  lemma Extend(r: Trace, w: World, ev: Event) returns (r': Trace)
    requires Reached(r, w) && EpochBound(w) && Enabled(w, ev) && OneMaster(Next(w, ev))
    ensures Reached(r', Next(w, ev))
  {
    hide OneMaster, EpochBound, Honest, Init, Enabled, Next;
    RunHonest(r.ws, r.evs, |r.evs|);
    NextHonest(w, ev);
    r' := Trace(r.ws + [Next(w, ev)], r.evs + [ev]);
    assert forall i :: 0 <= i < |r.ws| ==> r'.ws[i] == r.ws[i];
  }

  // ---- the steps ----

  /** A replica whose timer has expired opens an election. */
  lemma StartStep(r: Trace, w: World, me: Id, epoch: nat, e: nat, count: nat, t: int, reached: seq<Id>)
    returns (r': Trace, w': World)
    requires Reached(r, w) && me in {2, 3} && me in w.nodes && (reached == [] || (reached == [1] && 1 in w.nodes))
    requires w.nodes[me] == At(me, epoch, 0, Auth(e, count, false, t, 0))
    ensures Reached(r', w')
    ensures w'.nodes == w.nodes[me := At(me, epoch + 1, 0, Auth(epoch + 1, count, true, t, 0))]
    ensures w'.net == w.net +
      (if reached == [] then [] else [Some(Packet(1, Message(Asking(me, epoch + 1), AuthRequest)))])
    ensures w'.wins == w.wins && w'.counted == w.counted[me := {}] && w'.carried == w.carried[me := count]
  {
    hide Reached, OneMaster, SeesOne, NodesOk, NetOk, HandleFailover, BuildHeader, Links, At;
    ReachedBound(r, w);
    NodeFacts(w, me);
    Starts(me, epoch, e, count, t);
    Headers(me, epoch + 1, 0, Auth(epoch + 1, count, true, t, 0));
    AtParts(me, epoch, 0, Auth(e, count, false, t, 0));
    w' := Next(w, Failover(me, Manual(t), reached));
    AtSeesOne(me, epoch + 1, 0, Auth(epoch + 1, count, true, t, 0));
    StaysOne(w, w', me);
    r' := Extend(r, w, Failover(me, Manual(t), reached));
  }

  /** A replica gives up an election that went on for too long. */
  lemma ResetStep(r: Trace, w: World, me: Id, epoch: nat, e: nat, count: nat, t: int)
    returns (r': Trace, w': World)
    requires Reached(r, w) && me in {2, 3} && me in w.nodes
    requires w.nodes[me] == At(me, epoch, 0, Auth(e, count, true, t, 0))
    ensures Reached(r', w') && w' == w.(nodes := w.nodes[me := At(me, epoch, 0, Auth(e, 0, false, t + 5000, 0))])
  {
    hide Reached, OneMaster, SeesOne, NodesOk, NetOk, HandleFailover, BuildHeader, Links, At;
    ReachedBound(r, w);
    NodeFacts(w, me);
    Resets(me, epoch, e, count, t);
    w' := Next(w, Failover(me, Manual(t + 5000), []));
    AtSeesOne(me, epoch, 0, Auth(e, 0, false, t + 5000, 0));
    StaysOne(w, w', me);
    r' := Extend(r, w, Failover(me, Manual(t + 5000), []));
  }

  /** A replica with one vote wins. */
  lemma WinStep(r: Trace, w: World, me: Id, epoch: nat, e: nat, t: int)
    returns (r': Trace, w': World)
    requires Reached(r, w) && me in {2, 3} && me in w.nodes && me in w.counted && me in w.carried
    requires w.nodes[me] == At(me, epoch, 0, Auth(e, 1, true, t, 0))
    ensures Reached(r', w')
    ensures w'.wins == w.wins + {Win(e, me, w.counted[me], w.carried[me], 1)}
    ensures w'.net == w.net && w'.counted == w.counted && w'.carried == w.carried
    ensures me in w'.nodes && w'.nodes == w.nodes[me := w'.nodes[me]]
  {
    hide Reached, OneMaster, SeesOne, NodesOk, NetOk, HandleFailover, BuildHeader, Links, At;
    ReachedBound(r, w);
    NodeFacts(w, me);
    Wins(me, epoch, e, t);
    AtParts(me, epoch, 0, Auth(e, 1, true, t, 0));
    w' := Next(w, Failover(me, Manual(t), []));
    HandleFailoverOk(w.nodes[me], Manual(t));
    assert Win(e, me, w.counted[me], w.carried[me], 1) in w'.wins;
    StaysOne(w, w', me);
    r' := Extend(r, w, Failover(me, Manual(t), []));
  }

  /** The master grants request i and acknowledges it. */
  lemma GrantStep(r: Trace, w: World, i: nat, me: Id, epoch: nat, asked: nat, auth: Auth)
    returns (r': Trace, w': World)
    requires Reached(r, w) && me in {2, 3} && 1 in w.nodes && epoch < asked
    requires w.nodes[1] == At(1, epoch, epoch, auth)
    requires i < |w.net| && w.net[i] == Some(Packet(1, Message(Asking(me, asked), AuthRequest)))
    ensures Reached(r', w')
    ensures w'.nodes == w.nodes[1 := At(1, asked, asked, auth)]
    ensures w'.net == w.net[i := None] + [Some(Packet(me, Message(Granting(asked), AuthAck)))]
    ensures w'.wins == w.wins && w'.counted == w.counted && w'.carried == w.carried
  {
    hide Reached, OneMaster, SeesOne, NodesOk, NetOk, OnRequest, BuildHeader, Links, At;
    ReachedBound(r, w);
    PacketIsOk(w, i);
    NodeFacts(w, 1);
    Grants(me, epoch, asked, auth);
    Headers(1, asked, asked, auth);
    AtParts(1, asked, asked, auth);
    w' := Next(w, Deliver(i, false, true));
    AtSeesOne(1, asked, asked, auth);
    StaysOne(w, w', 1);
    r' := Extend(r, w, Deliver(i, false, true));
  }

  /** A replica counts acknowledgement i, whether or not an election is open. */
  lemma CountStep(r: Trace, w: World, i: nat, me: Id, epoch: nat, auth: Auth, granted: nat)
    returns (r': Trace, w': World)
    requires Reached(r, w) && me in {2, 3} && me in w.nodes && me in w.counted && auth.epoch <= granted <= epoch
    requires w.nodes[me] == At(me, epoch, 0, auth)
    requires i < |w.net| && w.net[i] == Some(Packet(me, Message(Granting(granted), AuthAck)))
    ensures Reached(r', w')
    ensures w'.nodes == w.nodes[me := At(me, epoch, 0, auth.(count := auth.count + 1))]
    ensures w'.net == w.net[i := None] && w'.wins == w.wins && w'.carried == w.carried
    ensures w'.counted == if auth.sent then w.counted[me := w.counted[me] + {1}] else w.counted
  {
    hide Reached, OneMaster, SeesOne, NodesOk, NetOk, OnAck, CountsVote, SeeHeader, Links, At;
    ReachedBound(r, w);
    PacketIsOk(w, i);
    NodeFacts(w, me);
    Counts(me, epoch, auth, granted);
    AtParts(me, epoch, 0, auth);
    w' := Next(w, Deliver(i, false, true));
    AtSeesOne(me, epoch, 0, auth.(count := auth.count + 1));
    StaysOne(w, w', me);
    r' := Extend(r, w, Deliver(i, false, true));
  }

  // ---- the run ----

  /** Node 2 has been granted epoch 1, given up, and then counted that late vote. Node 3 has
      given up an election of its own in epoch 1. */
  ghost predicate Halfway(w: World) {
    && 1 in w.nodes && 2 in w.nodes && 3 in w.nodes
    && w.nodes[1] == At(1, 1, 1, Unasked(0)) && w.nodes[2] == At(2, 1, 0, Auth(1, 1, false, 5000, 0))
    && w.nodes[3] == At(3, 1, 0, Auth(1, 0, false, 10000, 0))
    && w.net == [None, None]
  }

  lemma FirstHalf() returns (r: Trace, w: World)
    ensures Reached(r, w) && Halfway(w)
  {
    hide Reached, At;
    r := Begin();
    w := Start();
    r, w := StartStep(r, w, 2, 0, 0, 0, 0, [1]);
    r, w := GrantStep(r, w, 0, 2, 0, 1, Unasked(0));
    r, w := StartStep(r, w, 3, 0, 0, 0, 5000, []);
    r, w := ResetStep(r, w, 3, 1, 1, 0, 5000);
    r, w := ResetStep(r, w, 2, 1, 1, 0, 0);
    r, w := CountStep(r, w, 1, 2, 1, Auth(1, 0, false, 5000, 0), 1);
  }

  /** Both replicas win epoch 2 of a cluster whose one master voted once in that epoch, although
      whoever had an open election saw no other master at any time. */
  lemma TwoWinners() returns (ws: seq<World>, evs: seq<Event>, a: Win, b: Win)
    ensures Run(ws, evs) && AllFresh(ws[0]) && a in ws[|evs|].wins && b in ws[|evs|].wins
    ensures a.epoch == b.epoch && a.node != b.node && a.voters + b.voters <= {1} && a.size == b.size == 1
    ensures forall i :: 0 <= i < |ws| ==> Agreed(ws[i], a.epoch, {1})
  {
    hide Run, EpochBound, At, AllFresh, OneMaster, Agreed;
    var r, w := FirstHalf();
    r, w := StartStep(r, w, 2, 1, 1, 1, 5000, []);
    r, w := WinStep(r, w, 2, 2, 2, 5000);
    r, w := StartStep(r, w, 3, 1, 1, 0, 10000, [1]);
    r, w := GrantStep(r, w, 2, 3, 1, 2, Unasked(0));
    r, w := CountStep(r, w, 3, 3, 2, Auth(2, 0, true, 10000, 0), 2);
    assert w.counted[3] == {1};
    r, w := WinStep(r, w, 3, 2, 2, 10000);
    ws, evs, a, b := r.ws, r.evs, Win(2, 2, {}, 1, 1), Win(2, 3, {1}, 0, 1);
    StartIsInit();
    forall i | 0 <= i < |ws|
      ensures Agreed(ws[i], a.epoch, {1})
    {
      OneMasterAgreed(ws[i], a.epoch);
    }
  }
}
