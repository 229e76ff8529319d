/** Slot claims spread by pings of the claimants and by UPDATE packets about them: whatever the order and
    repetition in which the claims of a set of masters arrive, each slot ends up with the claimant of greatest
    epoch. */
module SlotClaims {
  import opened Wrappers
  import opened ClusterNode
  import opened ClusterFacts
  import opened ClusterBus

  /** What one master serves, and under which epoch. */
  datatype Claim = Claim(epoch: nat, slots: set<nat>)

  type Claims = map<Id, Claim>

  predicate DistinctEpochs(claims: Claims) {
    forall m, n :: m in claims && n in claims && m != n ==> claims[m].epoch != claims[n].epoch
  }

  predicate InRange(claims: Claims) {
    forall n, j :: n in claims && j in claims[n].slots ==> j < SLOTS
  }

  /** A ping in which its sender states its claim. */
  predicate States(claims: Claims, h: Header) {
    && h.sender in claims && h.slaveof.None?
    && h.configEpoch == claims[h.sender].epoch && h.slots == claims[h.sender].slots
  }

  /** Of the masters heard of, n is the claimant of j with the greatest epoch. */
  ghost predicate Greatest(claims: Claims, heard: set<Id>, n: Id, j: nat)
    requires heard <= claims.Keys
  {
    && n in heard && j in claims[n].slots
    && forall m :: m in heard && j in claims[m].slots ==> claims[m].epoch <= claims[n].epoch
  }

  ghost predicate OwnersOk(claims: Claims, heard: set<Id>, slots: map<nat, Id>)
    requires heard <= claims.Keys
  {
    && (forall j :: j in slots ==> Greatest(claims, heard, slots[j], j))
    && (forall j, m :: m in heard && j in claims[m].slots ==> j in slots)
  }

  ghost predicate EpochsOk(claims: Claims, heard: set<Id>, nodes: map<Id, Node>)
    requires heard <= claims.Keys
  {
    && claims.Keys <= nodes.Keys
    && (forall n :: n in claims ==> nodes[n].configEpoch <= claims[n].epoch)
    && (forall n :: n in heard ==> nodes[n].configEpoch == claims[n].epoch)
  }

  /** The node has heard the claims of `heard`, itself included, and follows them. */
  ghost predicate Follows(c: Cluster, claims: Claims, heard: set<Id>) {
    && Linked(c) && heard <= claims.Keys && c.me in heard && c.importing == map[]
    && OwnersOk(claims, heard, c.slots) && EpochsOk(claims, heard, c.nodes)
  }

  // ---- one packet ----

  /** What the claim of n does to the slot table, judged by the epochs the node then knows. */
  ghost predicate Effect(c: Cluster, d: Cluster, n: Id, epoch: nat, claimed: set<nat>) {
    && (forall j :: j in d.slots <==> j in c.slots || j in claimed)
    && (forall j :: j in c.slots && c.slots[j] in d.nodes ==>
          d.slots[j] == if j in claimed && d.nodes[c.slots[j]].configEpoch < epoch then n else c.slots[j])
    && (forall j :: j in claimed && j !in c.slots ==> d.slots[j] == n)
  }

  lemma ClaimEffect(c: Cluster, d: Cluster, n: Id, epoch: nat, claimed: set<nat>)
    requires ClaimApplied(c, d, n, epoch, claimed) && c.importing == map[] && forall j :: j in claimed ==> j < SLOTS
    ensures Effect(c, d, n, epoch, claimed)
  {
    forall j: nat
      ensures j in d.slots <==> j in c.slots || j in claimed
      ensures j in c.slots && c.slots[j] in d.nodes ==>
        d.slots[j] == if j in claimed && d.nodes[c.slots[j]].configEpoch < epoch then n else c.slots[j]
      ensures j in claimed && j !in c.slots ==> d.slots[j] == n
    {
      if j in d.slots {
        assert Serves(d, d.slots[j], j);
      }
      if j in c.slots {
        assert Serves(c, c.slots[j], j);
      }
    }
  }

  lemma SeeMaster(c: Cluster, h: Header)
    requires Linked(c) && h.sender in c.nodes && h.sender != c.me && h.slaveof.None?
    ensures var d := SeeRole(SeeHeader(c, h), h);
      && d.nodes.Keys == c.nodes.Keys && d.me == c.me && d.slots == c.slots && d.importing == c.importing
      && d.currentEpoch == Max(c.currentEpoch, h.currentEpoch) && d.nodes[h.sender].master
      && d.nodes[h.sender].configEpoch == Max(c.nodes[h.sender].configEpoch, h.configEpoch)
      && (forall n :: n in c.nodes ==> d.nodes[n].configEpoch == SeeHeader(c, h).nodes[n].configEpoch)
      && (forall n :: n in c.nodes && n != h.sender ==> d.nodes[n] == c.nodes[n])
  {
  }

  /** A ping of a master with another epoch: the epochs it makes known, and its claim. */
  lemma PingEffect(c: Cluster, h: Header)
    requires Linked(c) && h.sender in c.nodes && h.sender != c.me && h.slaveof.None? && c.importing == map[]
    requires c.nodes[c.me].configEpoch != h.configEpoch && forall j :: j in h.slots ==> j < SLOTS
    ensures var d := OnPing(c, h);
      && d.importing == map[] && d.nodes.Keys == c.nodes.Keys
      && Effect(c, d, h.sender, h.configEpoch, h.slots)
      && forall n :: n in c.nodes ==> d.nodes[n].configEpoch == KnownEpoch(c, h, n)
  {
    hide SeeHeader, SeeRole, SeeClaim, Effect, FixCollision, Links, ClaimApplied, Unseated;
    LinkedMe(c);
    ClaimPing(c, h);
    ClaimEffect(c, OnPing(c, h), h.sender, h.configEpoch, h.slots);
  }

  /** An UPDATE packet that tells news: the epochs it makes known, and the claim it reports. */
  lemma UpdateEffect(c: Cluster, h: Header, about: Id, epoch: nat, claimed: set<nat>)
    requires Linked(c) && h.sender != c.me && about != c.me && IsNews(c, h, about, epoch) && c.importing == map[]
    requires forall j :: j in claimed ==> j < SLOTS
    ensures var d := OnUpdate(c, h, about, epoch, claimed);
      && d.importing == map[] && d.nodes.Keys == c.nodes.Keys
      && Effect(c, d, about, epoch, claimed)
      && forall n :: n in c.nodes ==> d.nodes[n].configEpoch == if n == about then epoch else KnownEpoch(c, h, n)
  {
    hide OnUpdate, Effect, Links, ClaimApplied, Unseated;
    LinkedMe(c);
    UpdateExactly(c, h, about, epoch, claimed);
    ClaimEffect(c, OnUpdate(c, h, about, epoch, claimed), about, epoch, claimed);
  }

  lemma SeenMine(c: Cluster, h: Header)
    requires Linked(c) && h.sender in c.nodes && h.sender != c.me
    ensures c.me in c.nodes && Linked(SeeHeader(c, h)) && SeeHeader(c, h).me == c.me
    ensures SeeHeader(c, h).nodes.Keys == c.nodes.Keys
    ensures SeeHeader(c, h).nodes[c.me] == c.nodes[c.me] && SeeHeader(c, h).importing == c.importing
    ensures SeeHeader(c, h).slots == c.slots && SeeHeader(c, h).nodes[h.sender].configEpoch >= h.configEpoch
  {
  }

  // ---- following the claims ----

  /** The claim of one more master, judged by epochs known of the others. */
  lemma OwnersAfter(c: Cluster, d: Cluster, claims: Claims, heard: set<Id>, n: Id)
    requires heard <= claims.Keys && DistinctEpochs(claims) && n in claims
    requires OwnersOk(claims, heard, c.slots) && EpochsOk(claims, heard, d.nodes)
    requires Effect(c, d, n, claims[n].epoch, claims[n].slots)
    ensures OwnersOk(claims, heard + {n}, d.slots)
  {
    hide Greatest, DistinctEpochs;
    forall j | j in d.slots
      ensures Greatest(claims, heard + {n}, d.slots[j], j)
    {
      if j in c.slots {
        GreatestAfter(claims, heard, c.slots[j], n, j);
      } else {
        FirstClaim(claims, heard, n, j);
      }
    }
  }

  lemma GreatestAfter(claims: Claims, heard: set<Id>, o: Id, s: Id, j: nat)
    requires heard <= claims.Keys && s in claims && Greatest(claims, heard, o, j)
    ensures o in heard
    ensures Greatest(claims, heard + {s}, if j in claims[s].slots && claims[o].epoch < claims[s].epoch then s else o, j)
  {
  }

  lemma FirstClaim(claims: Claims, heard: set<Id>, s: Id, j: nat)
    requires heard <= claims.Keys && s in claims && j in claims[s].slots
    requires forall m :: m in heard ==> j !in claims[m].slots
    ensures Greatest(claims, heard + {s}, s, j)
  {
  }

  lemma LinkedAfter(c: Cluster, h: Header)
    requires Linked(c) && h.sender != c.me
    ensures Linked(OnPing(c, h)) && OnPing(c, h).me == c.me && OnPing(c, h).nodes.Keys == c.nodes.Keys
  {
    hide SeeHeader, SeeRole, UpdateSlots, FixCollision, Links, SlotsOf;
    if h.sender in c.nodes {
      var c1 := SeeHeader(c, h);
      SeenMine(c, h);
      SeeRoleLinked(c1, h);
      var c2 := SeeRole(c1, h);
      UpdateSlotsLinked(c2, h.sender, h.configEpoch, h.slots);
      FixLinked(c2, h.sender);
      FixLinked(UpdateSlots(c2, h.sender, h.configEpoch, h.slots), h.sender);
    }
  }

  lemma FixLinked(c: Cluster, n: Id)
    requires Linked(c) && n in c.nodes
    ensures Linked(FixCollision(c, n)) && FixCollision(c, n).me == c.me && FixCollision(c, n).nodes.Keys == c.nodes.Keys
  {
  }

  /** One more claim heard from the claimant, new or repeated. */
  lemma PingFollows(c: Cluster, claims: Claims, heard: set<Id>, h: Header)
    requires Follows(c, claims, heard) && DistinctEpochs(claims)
    requires InRange(claims) && States(claims, h) && h.sender != c.me
    ensures Follows(OnPing(c, h), claims, heard + {h.sender}) && OnPing(c, h).me == c.me
  {
    hide SeeHeader, OnPing, Effect, Links, OwnersOk;
    PingEffect(c, h);
    LinkedAfter(c, h);
    OwnersAfter(c, OnPing(c, h), claims, heard, h.sender);
  }

  /** An UPDATE packet reports the claim of its subject; its header is truthful if its sender is a claimant. */
  predicate Reports(claims: Claims, h: Header, about: Id, epoch: nat, claimed: set<nat>) {
    Truthful(claims, h) && about in claims && epoch == claims[about].epoch && claimed == claims[about].slots
  }

  predicate Truthful(claims: Claims, h: Header) { h.sender in claims ==> h.configEpoch == claims[h.sender].epoch }

  /** One more claim reported by another node: it is followed when it is news, and else nothing is lost. */
  lemma UpdateFollows(c: Cluster, claims: Claims, heard: set<Id>, h: Header, about: Id, epoch: nat, claimed: set<nat>)
    requires Follows(c, claims, heard) && DistinctEpochs(claims)
    requires InRange(claims) && Reports(claims, h, about, epoch, claimed) && h.sender != c.me
    ensures var d := OnUpdate(c, h, about, epoch, claimed);
      && Follows(d, claims, if IsNews(c, h, about, epoch) then heard + {about} else heard) && d.me == c.me
  {
    hide OnUpdate, Effect, Links, OwnersOk, ClaimApplied, Unseated;
    UpdateExactly(c, h, about, epoch, claimed);
    UpdateLinked(c, h, about, epoch, claimed);
    if IsNews(c, h, about, epoch) {
      UpdateEffect(c, h, about, epoch, claimed);
      OwnersAfter(c, OnUpdate(c, h, about, epoch, claimed), claims, heard, about);
    }
  }

  lemma UpdateLinked(c: Cluster, h: Header, about: Id, epoch: nat, claimed: set<nat>)
    requires Linked(c) && h.sender != c.me
    ensures Linked(OnUpdate(c, h, about, epoch, claimed))
  {
    hide Links, SeeHeader, SetNodeAsMaster, UpdateSlots;
    SeenLinked(c, h);
    if h.sender in c.nodes {
      HeardIs(c, h);
    }
    if IsNews(c, h, about, epoch) {
      RaisedLinked(c, h, about, epoch);
      UpdateSlotsLinked(Raised(c, h, about, epoch), about, epoch, claimed);
    }
  }

  // ---- any order, any repetition ----

  /** A packet in which its sender states its claim, reports the claim of another node, or only shows its header. */
  predicate Says(claims: Claims, m: Message) {
    match m.body
    case Ping => States(claims, m.hdr)
    case Update(n, e, s) => Reports(claims, m.hdr, n, e, s)
    case Plain => Truthful(claims, m.hdr)
    case _ => false
  }

  function Hear(c: Cluster, m: Message): (d: Cluster)
    requires Linked(c) && m.hdr.sender != c.me
    ensures Linked(d) && d.me == c.me
  {
    match m.body
    case Ping => LinkedAfter(c, m.hdr); OnPing(c, m.hdr)
    case Update(n, e, s) => UpdateLinked(c, m.hdr, n, e, s); UpdateExactly(c, m.hdr, n, e, s);
      OnUpdate(c, m.hdr, n, e, s)
    case _ => SeenLinked(c, m.hdr); SeeHeader(c, m.hdr)
  }

  /** Whose claim a packet makes the node follow. */
  function News(c: Cluster, m: Message): set<Id> {
    match m.body
    case Ping => {m.hdr.sender}
    case Update(n, e, _) => if IsNews(c, m.hdr, n, e) then {n} else {}
    case _ => {}
  }

  lemma HearFollows(c: Cluster, claims: Claims, heard: set<Id>, m: Message)
    requires Follows(c, claims, heard) && DistinctEpochs(claims)
    requires InRange(claims) && Says(claims, m) && m.hdr.sender != c.me
    ensures var d := Hear(c, m);
      && Follows(d, claims, heard + News(c, m)) && d.nodes.Keys == c.nodes.Keys
      && forall n :: n in claims && n !in heard + News(c, m) ==>
           d.nodes[n].configEpoch == if n == m.hdr.sender then claims[n].epoch else c.nodes[n].configEpoch
  {
    hide OnPing, OnUpdate, SeeHeader, Effect, Links, OwnersOk, ClaimApplied, Unseated, DistinctEpochs, InRange;
    var h := m.hdr;
    if m.body.Ping? {
      PingFollows(c, claims, heard, h);
      LinkedMe(c);
      PingKeeps(c, claims, heard, h);
    } else if m.body.Update? {
      var n, e, s := m.body.about, m.body.epoch, m.body.claimed;
      UpdateFollows(c, claims, heard, h, n, e, s);
      UpdateExactly(c, h, n, e, s);
      assert !IsNews(c, h, n, e) ==> heard + News(c, m) == heard;
    } else {
      HeaderFollows(c, claims, heard, h);
      assert heard + News(c, m) == heard;
    }
  }

  /** The header alone changes no owner. */
  lemma HeaderFollows(c: Cluster, claims: Claims, heard: set<Id>, h: Header)
    requires Follows(c, claims, heard) && Truthful(claims, h)
    ensures var d := SeeHeader(c, h);
      && Follows(d, claims, heard) && d.nodes.Keys == c.nodes.Keys
      && forall n :: n in claims && n !in heard ==>
           d.nodes[n].configEpoch == if n == h.sender then claims[n].epoch else c.nodes[n].configEpoch
  {
    hide Links, OwnersOk;
    SeenLinked(c, h);
  }

  lemma PingKeeps(c: Cluster, claims: Claims, heard: set<Id>, h: Header)
    requires Follows(c, claims, heard) && DistinctEpochs(claims)
    requires InRange(claims) && States(claims, h) && h.sender != c.me
    ensures var d := OnPing(c, h);
      d.nodes.Keys == c.nodes.Keys && forall n :: n in c.nodes ==> d.nodes[n].configEpoch == KnownEpoch(c, h, n)
  {
    hide OnPing, Effect, Links, OwnersOk;
    PingEffect(c, h);
  }

  /** Packets delivered one after the other. */
  function Deliver(c: Cluster, ms: seq<Message>): (d: Cluster)
    requires Linked(c) && forall m :: m in ms ==> m.hdr.sender != c.me
    ensures Linked(d) && d.me == c.me
    decreases |ms|
  {
    if ms == [] then c else Hear(Deliver(c, ms[..|ms| - 1]), ms[|ms| - 1])
  }

  predicate Spoke(ms: seq<Message>, n: Id) { exists i :: 0 <= i < |ms| && ms[i].hdr.sender == n }

  /** Packet i tells the claim of n: n pings, or another known node reports on n while the epoch of the claim
      is not known, neither from the start nor from a packet of n. */
  predicate TellsAt(c: Cluster, claims: Claims, ms: seq<Message>, i: nat, n: Id)
    requires i < |ms| && n in claims && n in c.nodes
  {
    match ms[i].body
    case Ping => ms[i].hdr.sender == n
    case Update(a, _, _) =>
      a == n && ms[i].hdr.sender in c.nodes && c.nodes[n].configEpoch < claims[n].epoch && !Spoke(ms[..i + 1], n)
    case _ => false
  }

  predicate Told(c: Cluster, claims: Claims, ms: seq<Message>, n: Id)
    requires n in claims && n in c.nodes
  {
    exists i :: 0 <= i < |ms| && TellsAt(c, claims, ms, i, n)
  }

  /** The masters whose claims the packets tell, this node itself included. */
  function Learned(c: Cluster, claims: Claims, ms: seq<Message>): set<Id>
    requires claims.Keys <= c.nodes.Keys
  {
    set n | n in claims && (n == c.me || Told(c, claims, ms, n))
  }

  lemma SpokeMore(ms: seq<Message>, m: Message, n: Id)
    ensures Spoke(ms + [m], n) <==> Spoke(ms, n) || m.hdr.sender == n
  {
    var ns := ms + [m];
    if Spoke(ms, n) {
      var i :| 0 <= i < |ms| && ms[i].hdr.sender == n;
      assert ns[i].hdr.sender == n;
    }
    assert ns[|ms|].hdr.sender == m.hdr.sender;
  }

  lemma ToldMore(c: Cluster, claims: Claims, ms: seq<Message>, m: Message, n: Id)
    requires n in claims && n in c.nodes
    ensures Told(c, claims, ms + [m], n) <==> Told(c, claims, ms, n) || TellsAt(c, claims, ms + [m], |ms|, n)
  {
    hide Spoke;
    var ns := ms + [m];
    forall i | 0 <= i < |ms|
      ensures TellsAt(c, claims, ns, i, n) <==> TellsAt(c, claims, ms, i, n)
    {
      assert ns[..i + 1] == ms[..i + 1];
    }
    if Told(c, claims, ms, n) {
      var i :| 0 <= i < |ms| && TellsAt(c, claims, ms, i, n);
      assert TellsAt(c, claims, ns, i, n);
    }
  }

  /** The epoch known of a master whose claim is not told: its claim's once it has spoken, else what it was. */
  ghost predicate Unheard(c: Cluster, d: Cluster, claims: Claims, ms: seq<Message>, n: Id)
    requires n in claims && n in c.nodes && n in d.nodes
  {
    d.nodes[n].configEpoch == if Spoke(ms, n) then claims[n].epoch else c.nodes[n].configEpoch
  }

  lemma NothingTold(c: Cluster, claims: Claims)
    requires claims.Keys <= c.nodes.Keys && c.me in claims
    ensures Learned(c, claims, []) == {c.me} && forall n :: !Spoke([], n)
  {
  }

  /** One more packet tells a claim exactly when it is news to the node. */
  lemma LearnedMore(c: Cluster, d: Cluster, claims: Claims, ms: seq<Message>, m: Message, n: Id)
    requires claims.Keys <= c.nodes.Keys == d.nodes.Keys && d.me == c.me && n in claims && Says(claims, m)
    requires c.nodes[n].configEpoch <= claims[n].epoch
    requires n in Learned(c, claims, ms) ==> d.nodes[n].configEpoch == claims[n].epoch
    requires n !in Learned(c, claims, ms) ==> Unheard(c, d, claims, ms, n)
    ensures n in Learned(c, claims, ms + [m]) <==> n in Learned(c, claims, ms) || n in News(d, m)
  {
    hide Spoke, Told;
    ToldMore(c, claims, ms, m, n);
    SpokeMore(ms, m, n);
    assert (ms + [m])[..|ms| + 1] == ms + [m];
  }

  /** After any delivery the node follows exactly the claims that the packets tell. */
  lemma {:induction false} DeliverFollows(c: Cluster, claims: Claims, ms: seq<Message>)
    requires Follows(c, claims, {c.me}) && DistinctEpochs(claims) && InRange(claims)
    requires forall m :: m in ms ==> m.hdr.sender != c.me && Says(claims, m)
    ensures claims.Keys <= c.nodes.Keys && Deliver(c, ms).nodes.Keys == c.nodes.Keys
    ensures Follows(Deliver(c, ms), claims, Learned(c, claims, ms))
    ensures forall n :: n in claims && n !in Learned(c, claims, ms) ==> Unheard(c, Deliver(c, ms), claims, ms, n)
  {
    hide OwnersOk, DistinctEpochs, InRange, Says, Hear, Links, Told, Spoke;
    if ms == [] {
      NothingTold(c, claims);
    } else {
      var k := |ms| - 1;
      var m := ms[k];
      assert ms == ms[..k] + [m];
      DeliverFollows(c, claims, ms[..k]);
      var d := Deliver(c, ms[..k]);
      HearFollows(d, claims, Learned(c, claims, ms[..k]), m);
      forall n | n in claims
        ensures n in Learned(c, claims, ms) <==> n in Learned(c, claims, ms[..k]) + News(d, m)
        ensures Spoke(ms, n) <==> Spoke(ms[..k], n) || m.hdr.sender == n
      {
        SpokeMore(ms[..k], m, n);
        LearnedMore(c, d, claims, ms[..k], m, n);
      }
      assert Learned(c, claims, ms) == Learned(c, claims, ms[..k]) + News(d, m);
    }
  }

  /** Confluence: from a table holding only this node's own slots, every delivery that tells the claim of each
      master ends with each slot bound to its claimant of greatest epoch, and with no other slot bound. */
  lemma Confluence(c: Cluster, claims: Claims, ms: seq<Message>)
    requires Follows(c, claims, {c.me}) && DistinctEpochs(claims) && InRange(claims)
    requires forall m :: m in ms ==> m.hdr.sender != c.me && Says(claims, m)
    requires Learned(c, claims, ms) == claims.Keys
    ensures OwnersOk(claims, claims.Keys, Deliver(c, ms).slots)
  {
    DeliverFollows(c, claims, ms);
  }

  // ---- passing claims on ----

  predicate Disjoint(claims: Claims) {
    forall m, n :: m in claims && n in claims && m != n ==> claims[m].slots !! claims[n].slots
  }

  /** A master that follows claims on disjoint slots passes them on: its pings state its own, and its UPDATE packets
      report those it has heard. */
  lemma PassesOn(c: Cluster, claims: Claims, heard: set<Id>, kind: Kind)
    requires Follows(c, claims, heard) && Disjoint(claims) && c.nodes[c.me].master && c.nodes[c.me].slaveof.None?
    requires kind.SendUpdate? ==> kind.about in heard
    ensures kind.SendUpdate? ==> kind.about in c.nodes
    ensures Says(claims, SentMessage(c, kind))
  {
    hide Links;
    LinkedMe(c);
    HasItsClaim(claims, heard, c, c.me);
    if kind.SendUpdate? {
      HasItsClaim(claims, heard, c, kind.about);
    }
  }

  lemma HasItsClaim(claims: Claims, heard: set<Id>, c: Cluster, n: Id)
    requires heard <= claims.Keys && OwnersOk(claims, heard, c.slots) && Disjoint(claims) && n in heard
    ensures SlotsOf(c, n) == claims[n].slots
  {
    forall j: nat
      ensures j in SlotsOf(c, n) <==> j in claims[n].slots
    {
      if j in c.slots {
        assert Greatest(claims, heard, c.slots[j], j);
      }
    }
  }

  /** A told claim with a greater epoch stands over the claim of n on slot j. */
  ghost predicate Outdone(claims: Claims, told: set<Id>, n: Id, j: nat)
    requires told <= claims.Keys && n in claims
  {
    exists m :: m in told && j in claims[m].slots && claims[n].epoch < claims[m].epoch
  }

  /** The same holds exactly when every slot claimed by a master whose claim is not told has a greater claimant
      whose claim is. */
  lemma ConfluenceExactly(c: Cluster, claims: Claims, ms: seq<Message>)
    requires Follows(c, claims, {c.me}) && DistinctEpochs(claims) && InRange(claims)
    requires forall m :: m in ms ==> m.hdr.sender != c.me && Says(claims, m)
    ensures claims.Keys <= c.nodes.Keys
    ensures OwnersOk(claims, claims.Keys, Deliver(c, ms).slots) <==>
      forall n, j :: n in claims && n !in Learned(c, claims, ms) && j in claims[n].slots ==>
        Outdone(claims, Learned(c, claims, ms), n, j)
  {
    hide Says, Links, Deliver, Learned;
    DeliverFollows(c, claims, ms);
    OutdoneExactly(claims, Learned(c, claims, ms), Deliver(c, ms).slots);
  }

  lemma OutdoneExactly(claims: Claims, told: set<Id>, slots: map<nat, Id>)
    requires told <= claims.Keys && DistinctEpochs(claims) && OwnersOk(claims, told, slots)
    ensures OwnersOk(claims, claims.Keys, slots) <==>
      forall n, j :: n in claims && n !in told && j in claims[n].slots ==> Outdone(claims, told, n, j)
  {
    if OwnersOk(claims, claims.Keys, slots) {
      forall n, j | n in claims && n !in told && j in claims[n].slots
        ensures Outdone(claims, told, n, j)
      {
        assert Greatest(claims, told, slots[j], j) && Greatest(claims, claims.Keys, slots[j], j);
      }
    } else if forall n, j :: n in claims && n !in told && j in claims[n].slots ==> Outdone(claims, told, n, j) {
      forall j | j in slots
        ensures Greatest(claims, claims.Keys, slots[j], j)
      {
        assert Greatest(claims, told, slots[j], j);
      }
    }
  }

  /** Node 1, which knows two other masters, none of them with slots. */
  function Newcomer(): Cluster {
    var n := Node(0, true, None, false);
    Cluster(1, 0, 0, 0, map[1 := n, 2 := n, 3 := n], map[], map[], map[], Auth(0, 0, false, 0, 0))
  }

  /** A packet of node 2 that carries no claim, and one in which node 3 reports the claim of node 2. */
  function Shown(): Message { Message(Header(2, 2, 2, {7}, None, false), Plain) }

  function Reported(): Message { Message(Header(3, 3, 3, {}, None, false), Update(2, 2, {7})) }

  /** An UPDATE packet about a master that has already shown its epoch is lost: after the packet of node 2 it
      leaves the slot that node 2 claims without owner. */
  lemma UpdateTooLate()
    ensures Linked(Newcomer())
    ensures var claims := map[1 := Claim(0, {}), 2 := Claim(2, {7}), 3 := Claim(3, {})];
      && Follows(Newcomer(), claims, {1}) && DistinctEpochs(claims) && InRange(claims)
      && Says(claims, Shown()) && Says(claims, Reported())
    ensures Deliver(Newcomer(), [Shown(), Reported()]).slots == map[]
    ensures Deliver(Newcomer(), [Reported(), Shown()]).slots == map[7 := 2]
  {
    hide Deliver, Follows, DistinctEpochs, InRange, Says, Links, Newcomer, Shown, Reported;
    NewcomerHears();
    ShownFirst();
    ReportedFirst();
  }

  lemma NewcomerHears()
    ensures var claims := map[1 := Claim(0, {}), 2 := Claim(2, {7}), 3 := Claim(3, {})];
      && Follows(Newcomer(), claims, {1}) && DistinctEpochs(claims) && InRange(claims)
      && Says(claims, Shown()) && Says(claims, Reported())
  {
    hide OwnersOk;
    var claims := map[1 := Claim(0, {}), 2 := Claim(2, {7}), 3 := Claim(3, {})];
    NothingOwned(claims);
  }

  lemma NothingOwned(claims: Claims)
    requires 1 in claims && claims[1].slots == {}
    ensures OwnersOk(claims, {1}, map[])
  {
  }

  lemma ShownFirst()
    ensures Linked(Newcomer()) && Deliver(Newcomer(), [Shown(), Reported()]).slots == map[]
  {
    hide Deliver, OnUpdate, SeeHeader;
    var c := Newcomer();
    TwoPackets(c, Shown(), Reported());
    HeardIs(c, Shown().hdr);
    UpdateExactly(Hear(c, Shown()), Reported().hdr, 2, 2, {7});
  }

  lemma ReportedFirst()
    ensures Linked(Newcomer()) && Deliver(Newcomer(), [Reported(), Shown()]).slots == map[7 := 2]
  {
    hide Deliver, OnUpdate, SeeHeader;
    var c := Newcomer();
    TwoPackets(c, Reported(), Shown());
    UpdateEffect(c, Reported().hdr, 2, 2, {7});
    HeardIs(Hear(c, Reported()), Shown().hdr);
  }

  lemma TwoPackets(c: Cluster, m: Message, n: Message)
    requires Linked(c) && m.hdr.sender != c.me && n.hdr.sender != c.me
    ensures Deliver(c, [m, n]) == Hear(Hear(c, m), n)
  {
    hide Hear, Links;
    assert Deliver(c, [m]) == Hear(c, m) by {
      assert [m][..0] == [];
    }
    assert [m, n][..1] == [m];
  }

  lemma OneTable(claims: Claims, s: map<nat, Id>, t: map<nat, Id>)
    requires DistinctEpochs(claims) && OwnersOk(claims, claims.Keys, s) && OwnersOk(claims, claims.Keys, t)
    ensures s == t
  {
    forall j | j in s
      ensures j in t && s[j] == t[j]
    {
      assert Greatest(claims, claims.Keys, s[j], j);
      assert Greatest(claims, claims.Keys, t[j], j);
    }
    forall j | j in t
      ensures j in s
    {
      assert Greatest(claims, claims.Keys, t[j], j);
    }
  }

  /** Two nodes that hear the same claims in different orders agree on every slot. */
  lemma SameTable(c: Cluster, d: Cluster, claims: Claims, ms: seq<Message>, ns: seq<Message>)
    requires Follows(c, claims, {c.me}) && Follows(d, claims, {d.me}) && DistinctEpochs(claims) && InRange(claims)
    requires forall m :: m in ms ==> m.hdr.sender != c.me && Says(claims, m)
    requires forall m :: m in ns ==> m.hdr.sender != d.me && Says(claims, m)
    requires Learned(c, claims, ms) == claims.Keys == Learned(d, claims, ns)
    ensures Deliver(c, ms).slots == Deliver(d, ns).slots
  {
    hide OwnersOk, EpochsOk, Links, Says, DistinctEpochs, InRange, Hear, Told;
    Confluence(c, claims, ms);
    Confluence(d, claims, ns);
    OneTable(claims, Deliver(c, ms).slots, Deliver(d, ns).slots);
  }
}
