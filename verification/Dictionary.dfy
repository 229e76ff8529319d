/** The incrementally rehashed dictionary: two tables and a rehash index acting as one map. */
module Dictionary {
  import opened Words
  import opened Wrappers
  import opened DictModel

  const INITIAL_SIZE: nat := 4
  const FORCE_RESIZE_RATIO: nat := 5

  ghost predicate Apart(a: set<Entry>, b: set<Entry>) {
    forall e, f :: e in a && f in b ==> e.key != f.key
  }

  /** A rehash in progress: the buckets below `idx` have been moved. */
  ghost predicate Rehashing(t0: Table, t1: Table, idx: int) {
    && t0.Table? && t1.Table? && t0.exp != t1.exp
    && 0 <= idx <= |t0.buckets|
    && forall i :: 0 <= i < idx ==> t0.buckets[i] == Nil
  }

  /** The two-table invariant; idx is -1 when no rehash is in progress. */
  ghost predicate Ok(hash: Key -> nat, t0: Table, t1: Table, idx: int) {
    && TableOk(hash, t0) && TableOk(hash, t1)
    && Apart(Items(t0), Items(t1))
    && (if idx == -1 then t1.NullTable? else Rehashing(t0, t1, idx))
  }

  ghost function All(t0: Table, t1: Table): set<Entry> { Items(t0) + Items(t1) }

  lemma AllUnique(hash: Key -> nat, t0: Table, t1: Table, idx: int)
    requires Ok(hash, t0, t1, idx)
    ensures UniqueKeys(All(t0, t1))
  {
    TableKeysUnique(hash, t0);
    TableKeysUnique(hash, t1);
  }

  lemma OkShape(hash: Key -> nat, t0: Table, t1: Table, idx: int)
    requires Ok(hash, t0, t1, idx)
    ensures t0.Table? ==> |t0.buckets| == P(t0.exp)
    ensures t1.Table? ==> |t1.buckets| == P(t1.exp)
    ensures if idx == -1 then t1 == NullTable else t0.Table? && t1.Table? && 0 <= idx <= |t0.buckets|
  {
  }

  // ---- rehash steps ----

  /** While entries remain in the old table, some bucket at or after `idx` is not empty. */
  lemma PendingBucket(hash: Key -> nat, t0: Table, t1: Table, idx: int)
    requires Ok(hash, t0, t1, idx) && idx != -1 && t0.used != 0
    ensures idx < |t0.buckets|
    ensures t0.buckets[idx] == Nil ==> idx + 1 < |t0.buckets| && Ok(hash, t0, t1, idx + 1)
  {
    hide BucketsOk, Apart;
    assert BucketItems(t0.buckets) != {};
    var e :| e in BucketItems(t0.buckets);
    var i :| 0 <= i < |t0.buckets| && e in Entries(t0.buckets[i]);
    assert idx <= i;
  }

  /** The old table once bucket idx has been emptied. */
  function Emptied(t: Table, idx: nat, left: nat): Table
    requires t.Table? && idx < |t.buckets|
  {
    t.(buckets := t.buckets[idx := Nil], used := left)
  }

  lemma MoveSets(a: set<Entry>, b: set<Entry>, c: set<Entry>)
    requires c <= a && UniqueKeys(a) && Apart(a, b)
    ensures Apart(a - c, b + c)
    ensures (a - c) + (b + c) == a + b
    ensures forall e :: e in c ==> Absent(b, e.key)
  {
  }

  /** Moving one bucket keeps the invariant and loses no entry. */
  lemma MoveBucketOk(hash: Key -> nat, t0: Table, t1: Table, idx: int)
    requires Ok(hash, t0, t1, idx) && idx != -1 && idx < |t0.buckets|
    ensures Len(t0.buckets[idx]) <= t0.used
    ensures
      var c := t0.buckets[idx];
      var u0, u1 := Emptied(t0, idx, t0.used - Len(c)), MoveChain(hash, t1, c);
      && Ok(hash, u0, u1, idx + 1)
      && All(u0, u1) == All(t0, t1)
  {
    hide BucketsOk, BucketItems, ChainOk, Apart, UniqueKeys, MoveChain, Index;
    var c := t0.buckets[idx];
    TableShape(hash, t0);
    TableShape(hash, t1);
    NilOk(hash, t0.exp, idx);
    SetBucket(hash, t0.exp, t0.buckets, idx, Nil);
    TableKeysUnique(hash, t0);
    MoveSets(Items(t0), Items(t1), Entries(c));
    MoveChainItems(hash, t1, c, t0.exp, idx);
    assert Entries(Nil) == {};
    assert Items(t0) - Entries(c) + {} == Items(t0) - Entries(c);
  }

  /** A rehash whose old table is empty can drop it. */
  lemma FinishOk(hash: Key -> nat, t0: Table, t1: Table, idx: int)
    requires Ok(hash, t0, t1, idx) && idx != -1 && t0.used == 0
    ensures Ok(hash, t1, NullTable, -1)
    ensures All(t1, NullTable) == All(t0, t1)
  {
  }

  // ---- lookups and updates on the pair of tables ----

  function Lookup(hash: Key -> nat, t0: Table, t1: Table, k: Key): Option<Val>
    requires t0.Table? ==> |t0.buckets| == P(t0.exp)
    requires t1.Table? ==> |t1.buckets| == P(t1.exp)
  {
    var r := TableGet(hash, t0, k);
    if r.Some? then r else TableGet(hash, t1, k)
  }

  function MapGet(m: map<Key, Val>, k: Key): Option<Val> {
    if k in m then Some(m[k]) else None
  }

  lemma ToMapGet(items: set<Entry>, k: Key)
    requires UniqueKeys(items)
    ensures k !in ToMap(items) <==> Absent(items, k)
    ensures forall v :: Entry(k, v) in items ==> MapGet(ToMap(items), k) == Some(v)
  {
    forall v | Entry(k, v) in items
      ensures MapGet(ToMap(items), k) == Some(v)
    {
      assert Entry(k, v).key == k;
    }
  }

  lemma ToMapAdd(items: set<Entry>, k: Key, v: Val)
    requires UniqueKeys(items) && Absent(items, k)
    ensures UniqueKeys(items + {Entry(k, v)})
    ensures ToMap(items + {Entry(k, v)}) == ToMap(items)[k := v]
  {
    var u := items + {Entry(k, v)};
    forall x
      ensures MapGet(ToMap(u), x) == MapGet(ToMap(items)[k := v], x)
    {
      ToMapGet(u, x);
      ToMapGet(items, x);
    }
    MapsEqual(ToMap(u), ToMap(items)[k := v]);
  }

  lemma ToMapRemove(items: set<Entry>, k: Key, v: Val)
    requires UniqueKeys(items) && Entry(k, v) in items
    ensures ToMap(items - {Entry(k, v)}) == ToMap(items) - {k}
    ensures Absent(items - {Entry(k, v)}, k)
  {
    var u := items - {Entry(k, v)};
    forall x
      ensures MapGet(ToMap(u), x) == MapGet(ToMap(items) - {k}, x)
    {
      ToMapGet(u, x);
      ToMapGet(items, x);
    }
    MapsEqual(ToMap(u), ToMap(items) - {k});
  }

  lemma MapsEqual(a: map<Key, Val>, b: map<Key, Val>)
    requires forall x :: MapGet(a, x) == MapGet(b, x)
    ensures a == b
  {
    forall x
      ensures x in a <==> x in b
      ensures x in a ==> a[x] == b[x]
    {
      assert MapGet(a, x) == MapGet(b, x);
    }
  }

  lemma LookupIs(hash: Key -> nat, t0: Table, t1: Table, idx: int, k: Key)
    requires Ok(hash, t0, t1, idx) && UniqueKeys(All(t0, t1))
    ensures t0.Table? ==> |t0.buckets| == P(t0.exp)
    ensures t1.Table? ==> |t1.buckets| == P(t1.exp)
    ensures Lookup(hash, t0, t1, k) == MapGet(ToMap(All(t0, t1)), k)
    ensures TableGet(hash, t0, k).Some? ==> TableGet(hash, t1, k).None?
  {
    hide BucketsOk, UniqueKeys, ToMap, TableGet, MapGet;
    TableShapes(hash, t0, t1);
    TableGetIs(hash, t0, k);
    TableGetIs(hash, t1, k);
    ToMapGet(All(t0, t1), k);
    MapGetNone(ToMap(All(t0, t1)), k);
  }

  lemma MapGetNone(m: map<Key, Val>, k: Key)
    ensures k !in m <==> MapGet(m, k) == None
  {
  }

  lemma TableShapes(hash: Key -> nat, t0: Table, t1: Table)
    requires TableOk(hash, t0) && TableOk(hash, t1)
    ensures t0.Table? ==> |t0.buckets| == P(t0.exp)
    ensures t1.Table? ==> |t1.buckets| == P(t1.exp)
  {
  }

  /** A new entry goes to the new table during a rehash, to the only table otherwise. */
  lemma InsertOk(hash: Key -> nat, t0: Table, t1: Table, idx: int, e: Entry)
    requires Ok(hash, t0, t1, idx) && t0.Table? && Absent(All(t0, t1), e.key)
    ensures var t := if idx == -1 then t0 else t1;
      && t.Table? && Index(hash(e.key), t.exp) < |t.buckets|
      && var u := Push(t, Index(hash(e.key), t.exp), e);
      if idx == -1 then Ok(hash, u, t1, idx) && All(u, t1) == All(t0, t1) + {e}
      else Ok(hash, t0, u, idx) && All(t0, u) == All(t0, t1) + {e}
  {
    hide BucketsOk, BucketItems, Index;
    var t := if idx == -1 then t0 else t1;
    PushItems(hash, t, e);
  }

  /** Changing the chain of a present key leaves the moved buckets empty. */
  lemma FoundAbove(hash: Key -> nat, t0: Table, t1: Table, idx: int, k: Key, c: Chain, used: nat)
    requires Rehashing(t0, t1, idx) && |t0.buckets| == P(t0.exp) && TableGet(hash, t0, k).Some?
    ensures Rehashing(WithChain(hash, t0, k, c, used), t1, idx)
  {
  }

  lemma NewTableKeeps(t0: Table, t1: Table, u: Table, idx: int)
    requires Rehashing(t0, t1, idx) && u.Table? && u.exp == t1.exp
    ensures Rehashing(t0, u, idx)
  {
  }

  lemma ApartShrinks(a: set<Entry>, b: set<Entry>, c: set<Entry>)
    requires Apart(a, b)
    ensures Apart(a - c, b) && Apart(a, b - c)
  {
  }

  lemma Remove0Ok(hash: Key -> nat, t0: Table, t1: Table, idx: int, k: Key)
    requires Ok(hash, t0, t1, idx) && t0.Table? && |t0.buckets| == P(t0.exp)
    requires TableGet(hash, t0, k).Some?
    ensures t0.used > 0
    ensures var u := Removed(hash, t0, k);
      Ok(hash, u, t1, idx) && All(u, t1) == All(t0, t1) - {Entry(k, TableGet(hash, t0, k).value)}
  {
    hide TableOk, Items, Index, Rehashing, Apart, TableGet;
    var e := Entry(k, TableGet(hash, t0, k).value);
    TableGetIs(hash, t0, k);
    TableRemove(hash, t0, k);
    ApartShrinks(Items(t0), Items(t1), {e});
    assert e !in Items(t1) by { ApartNot(Items(t0), Items(t1), e); }
    if idx != -1 {
      FoundAbove(hash, t0, t1, idx, k, ChainRemove(t0.buckets[Index(hash(k), t0.exp)], k), t0.used - 1);
    }
  }

  lemma ApartNot(a: set<Entry>, b: set<Entry>, e: Entry)
    requires Apart(a, b)
    ensures e in a ==> e !in b
  {
  }

  lemma Remove1Ok(hash: Key -> nat, t0: Table, t1: Table, idx: int, k: Key)
    requires Ok(hash, t0, t1, idx) && t1.Table? && |t1.buckets| == P(t1.exp)
    requires TableGet(hash, t1, k).Some?
    ensures t1.used > 0
    ensures var u := Removed(hash, t1, k);
      Ok(hash, t0, u, idx) && All(t0, u) == All(t0, t1) - {Entry(k, TableGet(hash, t1, k).value)}
  {
    hide TableOk, Items, Index, Rehashing, Apart, TableGet;
    var e := Entry(k, TableGet(hash, t1, k).value);
    TableGetIs(hash, t1, k);
    TableRemove(hash, t1, k);
    ApartShrinks(Items(t0), Items(t1), {e});
    ApartNot(Items(t0), Items(t1), e);
    NewTableKeeps(t0, t1, Removed(hash, t1, k), idx);
  }

  lemma ApartUpdate(a: set<Entry>, b: set<Entry>, e: Entry, f: Entry)
    requires Apart(a, b) && e.key == f.key
    ensures e in a ==> Apart(a - {e} + {f}, b)
    ensures e in b ==> Apart(a, b - {e} + {f})
  {
  }

  lemma Update0Ok(hash: Key -> nat, t0: Table, t1: Table, idx: int, k: Key, v: Val)
    requires Ok(hash, t0, t1, idx) && t0.Table? && |t0.buckets| == P(t0.exp)
    requires TableGet(hash, t0, k).Some?
    ensures var u, e := Updated(hash, t0, k, v), Entry(k, TableGet(hash, t0, k).value);
      Ok(hash, u, t1, idx) && All(u, t1) == All(t0, t1) - {e} + {Entry(k, v)}
  {
    hide TableOk, Items, Index, Rehashing, Apart, TableGet;
    var e := Entry(k, TableGet(hash, t0, k).value);
    TableGetIs(hash, t0, k);
    TableUpdate(hash, t0, k, v);
    ApartUpdate(Items(t0), Items(t1), e, Entry(k, v));
    ApartNot(Items(t0), Items(t1), e);
    if idx != -1 {
      FoundAbove(hash, t0, t1, idx, k, ChainUpdate(t0.buckets[Index(hash(k), t0.exp)], k, v), t0.used);
    }
  }

  lemma Update1Ok(hash: Key -> nat, t0: Table, t1: Table, idx: int, k: Key, v: Val)
    requires Ok(hash, t0, t1, idx) && t1.Table? && |t1.buckets| == P(t1.exp)
    requires TableGet(hash, t1, k).Some?
    ensures var u, e := Updated(hash, t1, k, v), Entry(k, TableGet(hash, t1, k).value);
      Ok(hash, t0, u, idx) && All(t0, u) == All(t0, t1) - {e} + {Entry(k, v)}
  {
    hide TableOk, Items, Index, Rehashing, Apart, TableGet;
    var e := Entry(k, TableGet(hash, t1, k).value);
    TableGetIs(hash, t1, k);
    TableUpdate(hash, t1, k, v);
    ApartUpdate(Items(t0), Items(t1), e, Entry(k, v));
    ApartNot(Items(t0), Items(t1), e);
    NewTableKeeps(t0, t1, Updated(hash, t1, k, v), idx);
  }

  /** c without the entries passed so far in front of it, put back in order. */
  function Rejoin(passed: Chain, c: Chain): Chain {
    if passed.Nil? then c else Rejoin(passed.next, Cons(passed.head, c))
  }

  lemma MissingKey(m: map<Key, Val>, k: Key)
    requires MapGet(m, k).None?
    ensures k !in m && m - {k} == m
  {
  }

  /** Updating a present key in whichever table holds it updates the map. */
  lemma UpdateSets(hash: Key -> nat, t0: Table, t1: Table, idx: int, k: Key, v: Val)
    requires Ok(hash, t0, t1, idx) && UniqueKeys(All(t0, t1)) && k in ToMap(All(t0, t1))
    ensures t0.Table? ==> |t0.buckets| == P(t0.exp)
    ensures t1.Table? ==> |t1.buckets| == P(t1.exp)
    ensures
      if TableGet(hash, t0, k).Some? then
        var u := Updated(hash, t0, k, v);
        Ok(hash, u, t1, idx) && UniqueKeys(All(u, t1)) && ToMap(All(u, t1)) == ToMap(All(t0, t1))[k := v]
      else
        t1.Table? &&
        var u := Updated(hash, t1, k, v);
        Ok(hash, t0, u, idx) && UniqueKeys(All(t0, u)) && ToMap(All(t0, u)) == ToMap(All(t0, t1))[k := v]
  {
    hide Ok, UniqueKeys, ToMap, All, Updated, TableGet;
    OkShape(hash, t0, t1, idx);
    LookupIs(hash, t0, t1, idx, k);
    GetSome(hash, t0, k);
    GetSome(hash, t1, k);
    var e := Entry(k, Lookup(hash, t0, t1, k).value);
    HeldEntry(hash, t0, t1, idx, k);
    if TableGet(hash, t0, k).Some? {
      Update0Ok(hash, t0, t1, idx, k, v);
    } else {
      Update1Ok(hash, t0, t1, idx, k, v);
    }
    ToMapExchange(All(t0, t1), e, v);
  }

  lemma RemoveSets(hash: Key -> nat, t0: Table, t1: Table, idx: int, k: Key)
    requires Ok(hash, t0, t1, idx) && UniqueKeys(All(t0, t1))
    requires t0.Table? ==> |t0.buckets| == P(t0.exp)
    requires t1.Table? ==> |t1.buckets| == P(t1.exp)
    requires Lookup(hash, t0, t1, k).Some?
    ensures k in ToMap(All(t0, t1))
    ensures
      if TableGet(hash, t0, k).Some? then
        t0.Table? && t0.used > 0 &&
        var u := Removed(hash, t0, k);
        Ok(hash, u, t1, idx) && UniqueKeys(All(u, t1)) && ToMap(All(u, t1)) == ToMap(All(t0, t1)) - {k}
      else
        t1.Table? && t1.used > 0 &&
        var u := Removed(hash, t1, k);
        Ok(hash, t0, u, idx) && UniqueKeys(All(t0, u)) && ToMap(All(t0, u)) == ToMap(All(t0, t1)) - {k}
  {
    hide Ok, UniqueKeys, ToMap, All, Removed, TableGet;
    LookupIs(hash, t0, t1, idx, k);
    GetSome(hash, t0, k);
    GetSome(hash, t1, k);
    var e := Entry(k, Lookup(hash, t0, t1, k).value);
    HeldEntry(hash, t0, t1, idx, k);
    if TableGet(hash, t0, k).Some? {
      Remove0Ok(hash, t0, t1, idx, k);
    } else {
      Remove1Ok(hash, t0, t1, idx, k);
    }
    UniqueShrinks(All(t0, t1), e);
    ToMapRemove(All(t0, t1), k, e.val);
  }

  lemma GetSome(hash: Key -> nat, t: Table, k: Key)
    requires t.Table? ==> |t.buckets| == P(t.exp)
    ensures TableGet(hash, t, k).Some? ==> t.Table?
  {
  }

  lemma HeldEntry(hash: Key -> nat, t0: Table, t1: Table, idx: int, k: Key)
    requires Ok(hash, t0, t1, idx)
    requires t0.Table? ==> |t0.buckets| == P(t0.exp)
    requires t1.Table? ==> |t1.buckets| == P(t1.exp)
    requires Lookup(hash, t0, t1, k).Some?
    ensures Entry(k, Lookup(hash, t0, t1, k).value) in All(t0, t1)
  {
    TableGetIs(hash, t0, k);
    TableGetIs(hash, t1, k);
  }

  lemma UniqueShrinks(items: set<Entry>, e: Entry)
    requires UniqueKeys(items)
    ensures UniqueKeys(items - {e})
  {
  }

  lemma ToMapExchange(items: set<Entry>, e: Entry, v: Val)
    requires UniqueKeys(items) && e in items
    ensures UniqueKeys(items - {e} + {Entry(e.key, v)})
    ensures ToMap(items - {e} + {Entry(e.key, v)}) == ToMap(items)[e.key := v]
  {
    hide ToMap;
    UniqueShrinks(items, e);
    ToMapRemove(items, e.key, e.val);
    ToMapAdd(items - {e}, e.key, v);
  }

  // ---- growing ----

  /** The exponent of the least table size of at least INITIAL_SIZE and at least `size`. */
  function NextExp(e: nat, size: nat): (r: nat)
    ensures r >= e && P(r) >= size
    ensures r > e ==> P(r - 1) < size
    decreases size - P(e)
  {
    if P(e) >= size then e else NextExp(e + 1, size)
  }

  method NextPower(size: nat) returns (i: nat, e: nat)
    ensures e == NextExp(2, size) && i == P(e)
  {
    i, e := INITIAL_SIZE, 2;
    assert P(2) == 4;
    while i < size
      invariant i == P(e) && NextExp(e, size) == NextExp(2, size)
      decreases size - i
    {
      i := i * 2;
      e := e + 1;
    }
  }

  lemma StartRehashOk(hash: Key -> nat, t0: Table, e: nat)
    requires Ok(hash, t0, NullTable, -1)
    ensures t0.NullTable? ==> Ok(hash, Empty(e), NullTable, -1) && All(Empty(e), NullTable) == All(t0, NullTable)
    ensures t0.Table? && t0.exp != e ==> Ok(hash, t0, Empty(e), 0) && All(t0, Empty(e)) == All(t0, NullTable)
  {
    EmptyOk(hash, e);
    hide BucketsOk, BucketItems, Empty;
    assert Empty(e).Table? && Empty(e).exp == e by { EmptyIs(e); }
  }

  lemma EmptyIs(e: nat)
    ensures Empty(e).Table? && Empty(e).exp == e
  {
  }

  lemma EmptyMap()
    ensures ToMap({}) == map[]
  {
  }

  lemma NoEntries(hash: Key -> nat, t0: Table, t1: Table, idx: int)
    requires Ok(hash, t0, t1, idx) && t0.Used() + t1.Used() == 0
    ensures All(t0, t1) == {}
  {
  }

  /** What an add does to the tables when no rehash step runs: it may first create the table
      or start a rehash, then links the entry in front of its bucket. */
  ghost predicate AddedTo(hash: Key -> nat, t0: Table, t1: Table, idx: int, u0: Table, u1: Table, jdx: int, e: Entry) {
    if idx != -1 then
      jdx == idx && u0 == t0 && PushedTo(hash, t1, u1, e)
    else if jdx == -1 then
      u1 == t1 && PushedTo(hash, if t0.NullTable? then Empty(NextExp(2, INITIAL_SIZE)) else t0, u0, e)
    else
      jdx == 0 && t0.Table? && u0 == t0
      && NextExp(2, t0.used * 2) != t0.exp && PushedTo(hash, Empty(NextExp(2, t0.used * 2)), u1, e)
  }

  /** The tables after an add has looked for its key: created, or with a rehash started. */
  ghost function Grown(t0: Table, t1: Table, idx: int, jdx: int): (Table, Table) {
    if idx != -1 then (t0, t1)
    else if jdx != -1 then (t0, Empty(NextExp(2, t0.Used() * 2)))
    else (if t0.NullTable? then Empty(NextExp(2, INITIAL_SIZE)) else t0, t1)
  }

  /** Only a table that is not being rehashed starts a rehash, and only to another size. */
  ghost predicate MayGrow(t0: Table, idx: int, jdx: int) {
    jdx == idx || (idx == -1 && jdx == 0 && t0.Table? && NextExp(2, t0.used * 2) != t0.exp)
  }

  /** A replace of a present key sets the value in whichever table holds it. */
  ghost predicate UpdatedIn(hash: Key -> nat, t0: Table, t1: Table, u0: Table, u1: Table, k: Key, v: Val) {
    && (t0.Table? ==> |t0.buckets| == P(t0.exp)) && (t1.Table? ==> |t1.buckets| == P(t1.exp))
    && if TableGet(hash, t0, k).Some? then u1 == t1 && u0 == Updated(hash, t0, k, v)
       else TableGet(hash, t1, k).Some? && u0 == t0 && u1 == Updated(hash, t1, k, v)
  }

  /** A delete unlinks the entry from whichever table holds it. */
  ghost predicate RemovedFrom(hash: Key -> nat, t0: Table, t1: Table, u0: Table, u1: Table, k: Key) {
    && (t0.Table? ==> |t0.buckets| == P(t0.exp)) && (t1.Table? ==> |t1.buckets| == P(t1.exp))
    && if TableGet(hash, t0, k).Some? then t0.used > 0 && u1 == t1 && u0 == Removed(hash, t0, k)
       else TableGet(hash, t1, k).Some? && t1.used > 0 && u0 == t0 && u1 == Removed(hash, t1, k)
  }

  ghost predicate PushedTo(hash: Key -> nat, t: Table, u: Table, e: Entry) {
    t.Table? && Index(hash(e.key), t.exp) < |t.buckets| && u == Push(t, Index(hash(e.key), t.exp), e)
  }

  /** A table that is to be enlarged: it has no fewer entries than buckets and resizing is allowed, or at least
      six times as many. */
  predicate Overfull(t: Table, canResize: bool) {
    t.Table? && t.used >= t.Size() && (canResize || t.used >= 6 * t.Size())
  }

  lemma OverRatio(used: nat, size: nat)
    requires size > 0
    ensures used / size > FORCE_RESIZE_RATIO <==> used >= 6 * size
  {
    assert used == used / size * size + used % size;
    if used / size > 5 {
      assert used / size * size >= 6 * size;
    } else {
      assert used / size * size <= 5 * size;
    }
  }

  class Dict {
    const hash: Key -> nat
    var ht0: Table
    var ht1: Table
    var rehashidx: int
    var iterators: nat

    ghost predicate Shape()
      reads this
    {
      Ok(hash, ht0, ht1, rehashidx)
    }

    ghost predicate Valid()
      reads this
    {
      Shape() && (rehashidx != -1 ==> rehashidx < |ht0.buckets|)
    }

    /** The map this dictionary stands for. */
    ghost function Model(): map<Key, Val>
      requires Shape()
      reads this
    {
      AllUnique(hash, ht0, ht1, rehashidx);
      ToMap(All(ht0, ht1))
    }

    constructor (hash: Key -> nat)
      ensures Valid() && Model() == map[] && iterators == 0 && rehashidx == -1
    {
      this.hash := hash;
      ht0, ht1 := NullTable, NullTable;
      rehashidx := -1;
      iterators := 0;
    }

    /** Move every entry of bucket `rehashidx` to the new table. */
    method MoveBucket()
      requires Shape() && rehashidx != -1 && rehashidx < |ht0.buckets|
      modifies this`ht0, this`ht1, this`rehashidx
      ensures Shape() && rehashidx == old(rehashidx) + 1
      ensures All(ht0, ht1) == old(All(ht0, ht1))
      ensures ht0.Size() == old(ht0.Size())
    {
      hide Ok, All;
      ghost var start0, start1, idx := ht0, ht1, rehashidx;
      OkShape(hash, ht0, ht1, idx);
      var de := ht0.buckets[rehashidx];
      ghost var c := de;
      MoveBucketOk(hash, start0, start1, idx);
      while de.Cons?
        invariant Len(de) <= Len(c)
        invariant rehashidx == idx
        invariant ht0 == start0.(used := start0.used - (Len(c) - Len(de)))
        invariant ht1.Table? && |ht1.buckets| == P(ht1.exp)
        invariant MoveChain(hash, ht1, de) == MoveChain(hash, start1, c)
        decreases de
      {
        var h := Index(hash(de.head.key), ht1.exp);
        ht1 := Push(ht1, h, de.head);
        ht0 := ht0.(used := ht0.used - 1);
        de := de.next;
      }
      ht0 := ht0.(buckets := ht0.buckets[rehashidx := Nil]);
      rehashidx := rehashidx + 1;
      assert ht0 == Emptied(start0, idx, start0.used - Len(c));
    }

    /** Perform n steps of incremental rehashing, visiting at most 10 n empty buckets.
        Returns whether entries are still to be moved. */
    method Rehash(n: nat) returns (more: bool)
      requires Valid()
      modifies this`ht0, this`ht1, this`rehashidx
      ensures Valid()
      ensures Model() == old(Model())
      ensures more <==> rehashidx != -1
      ensures old(rehashidx) == -1 ==> rehashidx == -1 && ht0 == old(ht0) && ht1 == old(ht1)
      ensures old(ht0.Table?) ==> ht0.Table?
      // every call passes at least n buckets and at most eleven n, so the rehash ends
      ensures more ==> old(rehashidx) + n <= rehashidx <= old(rehashidx) + 11 * n && ht0.Size() == old(ht0.Size())
    {
      hide Ok, All, UniqueKeys, ToMap;
      OkShape(hash, ht0, ht1, rehashidx);
      var emptyVisits := n * 10;
      if rehashidx == -1 {
        return false;
      }
      var k := n;
      ghost var all := All(ht0, ht1);
      while k > 0 && ht0.used != 0
        invariant ht0.Table? && Shape() && rehashidx >= 0 && ht0.Size() == old(ht0.Size())
        invariant All(ht0, ht1) == all
        invariant 0 <= k <= n && 0 <= emptyVisits <= 10 * n
        invariant rehashidx == old(rehashidx) + (n - k) + (10 * n - emptyVisits)
        invariant k == n ==> rehashidx == old(rehashidx) && ht0 == old(ht0)
        invariant k > 0 ==> emptyVisits > 0
        decreases k
      {
        k := k - 1;
        PendingBucket(hash, ht0, ht1, rehashidx);
        // The rehash index cannot overflow because entries remain.
        assert rehashidx < |ht0.buckets|;
        while ht0.buckets[rehashidx].Nil?
          invariant ht0.Table? && Shape() && ht0.used != 0 && ht0.Size() == old(ht0.Size())
          invariant old(rehashidx) <= rehashidx < |ht0.buckets|
          invariant All(ht0, ht1) == all
          invariant 0 < emptyVisits <= 10 * n && rehashidx == old(rehashidx) + (n - k - 1) + (10 * n - emptyVisits)
          decreases |ht0.buckets| - rehashidx
        {
          PendingBucket(hash, ht0, ht1, rehashidx);
          rehashidx := rehashidx + 1;
          emptyVisits := emptyVisits - 1;
          if emptyVisits == 0 {
            return true;
          }
          PendingBucket(hash, ht0, ht1, rehashidx);
        }
        MoveBucket();
        OkShape(hash, ht0, ht1, rehashidx);
      }
      OkShape(hash, ht0, ht1, rehashidx);
      if ht0.used == 0 {
        FinishOk(hash, ht0, ht1, rehashidx);
        ht0 := ht1;
        ht1 := NullTable;
        rehashidx := -1;
        return false;
      }
      PendingBucket(hash, ht0, ht1, rehashidx);
      return true;
    }

    /** One step of rehashing, unless a safe iterator is bound to the dictionary. */
    method RehashStep()
      requires Valid()
      modifies this`ht0, this`ht1, this`rehashidx
      ensures Valid() && Model() == old(Model())
      ensures iterators > 0 ==> ht0 == old(ht0) && ht1 == old(ht1) && rehashidx == old(rehashidx)
      ensures old(ht0.Table?) ==> ht0.Table?
      ensures old(rehashidx) == -1 ==> ht0 == old(ht0) && ht1 == old(ht1) && rehashidx == -1
      ensures iterators == 0 && old(rehashidx) != -1 ==>
        rehashidx == -1 || old(rehashidx) < rehashidx <= old(rehashidx) + 11
    {
      hide Ok, UniqueKeys, ToMap, All;
      OkShape(hash, ht0, ht1, rehashidx);
      if iterators == 0 {
        var more := Rehash(1);
      }
    }

    /** Create or grow the table. Fails during a rehash, when `size` is below the number of
        elements, and when the size would not change. */
    method Expand(size: nat) returns (ok: bool)
      requires Valid()
      modifies this`ht0, this`ht1, this`rehashidx
      ensures Valid() && Model() == old(Model())
      ensures ok <==> (old(rehashidx) == -1 && old(ht0.Used()) <= size && P(NextExp(2, size)) != old(ht0.Size()))
      ensures !ok ==> ht0 == old(ht0) && ht1 == old(ht1) && rehashidx == old(rehashidx)
      ensures ok && old(ht0.NullTable?) ==> ht0 == Empty(NextExp(2, size)) && rehashidx == -1
      ensures ok && old(ht0.Table?) ==> ht0 == old(ht0) && ht1 == Empty(NextExp(2, size)) && rehashidx == 0
    {
      hide Ok, UniqueKeys, ToMap, All, Empty;
      OkShape(hash, ht0, ht1, rehashidx);
      var realsize, e := NextPower(size);
      if rehashidx != -1 || ht0.Used() > size {
        return false;
      }
      if realsize == ht0.Size() {
        return false;
      }
      StartRehashOk(hash, ht0, e);
      if ht0.NullTable? {
        ht0 := Empty(e);
        return true;
      }
      ht1 := Empty(e);
      rehashidx := 0;
      return true;
    }

    /** Never fails: doubling the element count always changes the size of a full table. */
    method ExpandIfNeeded(canResize: bool) returns (ok: bool)
      requires Valid()
      modifies this`ht0, this`ht1, this`rehashidx
      ensures Valid() && Model() == old(Model())
      ensures ok && ht0.Table?
      ensures old(ht0.Table?) ==> ht0 == old(ht0)
      ensures old(rehashidx) != -1 ==> ht1 == old(ht1) && rehashidx == old(rehashidx)
      ensures old(rehashidx) == -1 ==> (rehashidx == -1 <==> !Overfull(old(ht0), canResize))
      ensures old(rehashidx) == -1 ==>
        if rehashidx == -1 then ht0 == if old(ht0.Table?) then old(ht0) else Empty(NextExp(2, INITIAL_SIZE))
        else
          && rehashidx == 0 && old(ht0.Table?)
          && ht0.exp != NextExp(2, ht0.used * 2) && ht1 == Empty(NextExp(2, ht0.used * 2))
    {
      hide Ok, UniqueKeys, ToMap, All, Empty;
      OkShape(hash, ht0, ht1, rehashidx);
      if rehashidx != -1 {
        return true;
      }
      if ht0.Size() == 0 {
        ok := Expand(INITIAL_SIZE);
        EmptyIs(NextExp(2, INITIAL_SIZE));
        return;
      }
      OverRatio(ht0.used, ht0.Size());
      if ht0.used >= ht0.Size() && (canResize || ht0.used / ht0.Size() > FORCE_RESIZE_RATIO) {
        ok := Expand(ht0.used * 2);
        return;
      }
      return true;
    }

    /** Search both tables for a key, the second only during a rehash. */
    method Search(k: Key) returns (r: Option<Val>)
      requires Valid() && ht0.Table?
      ensures r == MapGet(Model(), k)
      ensures r == Lookup(hash, ht0, ht1, k)
    {
      hide Ok, UniqueKeys, ToMap, All, MapGet;
      OkShape(hash, ht0, ht1, rehashidx);
      AllUnique(hash, ht0, ht1, rehashidx);
      LookupIs(hash, ht0, ht1, rehashidx, k);
      var h := hash(k);
      var table := 0;
      while table <= 1
        invariant 0 <= table <= 2
        invariant table >= 1 ==> TableGet(hash, ht0, k).None? && rehashidx != -1
        invariant table == 2 ==> TableGet(hash, ht1, k).None?
        decreases 2 - table
      {
        var ht := if table == 0 then ht0 else ht1;
        var idx := Index(h, ht.exp);
        var he := ht.buckets[idx];
        while he.Cons?
          invariant ChainGet(he, k) == TableGet(hash, ht, k)
          decreases he
        {
          if he.head.key == k {
            return Some(he.head.val);
          }
          he := he.next;
        }
        if rehashidx == -1 {
          return None;
        }
        table := table + 1;
      }
      return None;
    }

    method Find(k: Key) returns (r: Option<Val>)
      requires Valid()
      modifies this`ht0, this`ht1, this`rehashidx
      ensures Valid() && Model() == old(Model())
      ensures r == MapGet(Model(), k)
      ensures iterators == 0 && old(rehashidx) != -1 && old(Model()) != map[] ==>
        rehashidx == -1 || old(rehashidx) < rehashidx
      ensures iterators > 0 ==> ht0 == old(ht0) && ht1 == old(ht1) && rehashidx == old(rehashidx)
    {
      hide Ok, UniqueKeys, All;
      OkShape(hash, ht0, ht1, rehashidx);
      if ht0.Used() + ht1.Used() == 0 {
        NoEntries(hash, ht0, ht1, rehashidx);
        return None;
      }
      if rehashidx != -1 {
        RehashStep();
      }
      r := Search(k);
    }

    /** The bucket in which a new entry for k belongs, or none when k is already stored. */
    method KeyIndex(k: Key, canResize: bool) returns (index: Option<nat>)
      requires Valid()
      modifies this`ht0, this`ht1, this`rehashidx
      ensures Valid() && Model() == old(Model())
      ensures index.None? <==> k in Model()
      ensures ht0.Table?
      ensures old(ht0.Table?) ==> ht0 == old(ht0)
      ensures index.Some? ==> index.value == Index(hash(k), if rehashidx == -1 then ht0.exp else ht1.exp)
      ensures old(rehashidx) != -1 ==> ht1 == old(ht1) && rehashidx == old(rehashidx)
      ensures old(rehashidx) == -1 ==> (rehashidx == -1 <==> !Overfull(old(ht0), canResize))
      ensures old(rehashidx) == -1 ==>
        if rehashidx == -1 then ht0 == if old(ht0.Table?) then old(ht0) else Empty(NextExp(2, INITIAL_SIZE))
        else
          && rehashidx == 0 && old(ht0.Table?)
          && ht0.exp != NextExp(2, ht0.used * 2) && ht1 == Empty(NextExp(2, ht0.used * 2))
    {
      hide Ok, UniqueKeys, ToMap, All;
      var ok := ExpandIfNeeded(canResize);
      OkShape(hash, ht0, ht1, rehashidx);
      if !ok {
        return None;
      }
      var r := Search(k);
      if r.Some? {
        return None;
      }
      return Some(Index(hash(k), if rehashidx == -1 then ht0.exp else ht1.exp));
    }

    /** Add a key; fails exactly when it is already present. */
    method Add(k: Key, v: Val, canResize: bool) returns (ok: bool)
      requires Valid()
      modifies this`ht0, this`ht1, this`rehashidx
      ensures Valid()
      ensures ok <==> k !in old(Model())
      ensures Model() == if ok then old(Model())[k := v] else old(Model())
      ensures old(rehashidx) == -1 ==> (rehashidx == -1 <==> !Overfull(old(ht0), canResize))
      ensures ok && iterators > 0 ==>
        AddedTo(hash, old(ht0), old(ht1), old(rehashidx), ht0, ht1, rehashidx, Entry(k, v))
      ensures !ok && iterators > 0 ==>
        && MayGrow(old(ht0), old(rehashidx), rehashidx)
        && (ht0, ht1) == Grown(old(ht0), old(ht1), old(rehashidx), rehashidx)
    {
      hide Ok, UniqueKeys, ToMap, All, Push, Empty, NextExp;
      OkShape(hash, ht0, ht1, rehashidx);
      if rehashidx != -1 {
        RehashStep();
      }
      var index := KeyIndex(k, canResize);
      OkShape(hash, ht0, ht1, rehashidx);
      if index.None? {
        return false;
      }
      AllUnique(hash, ht0, ht1, rehashidx);
      ToMapGet(All(ht0, ht1), k);
      InsertOk(hash, ht0, ht1, rehashidx, Entry(k, v));
      ToMapAdd(All(ht0, ht1), k, v);
      if rehashidx != -1 {
        ht1 := Push(ht1, index.value, Entry(k, v));
      } else {
        ht0 := Push(ht0, index.value, Entry(k, v));
      }
      return true;
    }

    /** Store v under k, whether or not k is present; true when the key is new. */
    method Replace(k: Key, v: Val, canResize: bool) returns (added: bool)
      requires Valid()
      modifies this`ht0, this`ht1, this`rehashidx
      ensures Valid()
      ensures added <==> k !in old(Model())
      ensures Model() == old(Model())[k := v]
      ensures added && iterators > 0 ==>
        AddedTo(hash, old(ht0), old(ht1), old(rehashidx), ht0, ht1, rehashidx, Entry(k, v))
      ensures !added && iterators > 0 ==>
        && MayGrow(old(ht0), old(rehashidx), rehashidx)
        && var (g0, g1) := Grown(old(ht0), old(ht1), old(rehashidx), rehashidx); UpdatedIn(hash, g0, g1, ht0, ht1, k, v)
    {
      hide Ok, UniqueKeys, ToMap, All, AddedTo, Grown, MayGrow;
      added := Add(k, v, canResize);
      if !added {
        var r := Find(k);
        OkShape(hash, ht0, ht1, rehashidx);
        AllUnique(hash, ht0, ht1, rehashidx);
        LookupIs(hash, ht0, ht1, rehashidx, k);
        UpdateSets(hash, ht0, ht1, rehashidx, k, v);
        if TableGet(hash, ht0, k).Some? {
          ht0 := Updated(hash, ht0, k, v);
        } else {
          ht1 := Updated(hash, ht1, k, v);
        }
      }
    }

    /** Search the chain of k in one table and unlink its entry. */
    method Unlink(c: Chain, k: Key) returns (r: Option<Chain>)
      ensures r.Some? <==> ChainGet(c, k).Some?
      ensures r.Some? ==> r.value == ChainRemove(c, k)
    {
      var he := c;
      var passed := Nil;
      while he.Cons?
        invariant Rejoin(passed, he) == c
        invariant ChainGet(he, k) == ChainGet(c, k)
        invariant Rejoin(passed, ChainRemove(he, k)) == ChainRemove(c, k)
        decreases he
      {
        if he.head.key == k {
          return Some(Rejoin(passed, he.next));
        }
        passed := Cons(he.head, passed);
        he := he.next;
      }
      return None;
    }

    /** Remove a key; succeeds exactly when it was present. */
    method Delete(k: Key) returns (ok: bool)
      requires Valid()
      modifies this`ht0, this`ht1, this`rehashidx
      ensures Valid()
      ensures ok <==> k in old(Model())
      ensures Model() == old(Model()) - {k}
      ensures iterators > 0 ==> rehashidx == old(rehashidx)
      ensures iterators == 0 && old(rehashidx) != -1 ==> rehashidx == -1 || old(rehashidx) < rehashidx
      ensures ok && iterators > 0 ==> RemovedFrom(hash, old(ht0), old(ht1), ht0, ht1, k)
      ensures !ok && iterators > 0 ==> ht0 == old(ht0) && ht1 == old(ht1)
    {
      hide Ok, UniqueKeys, ToMap, All, Index;
      OkShape(hash, ht0, ht1, rehashidx);
      if ht0.Size() == 0 {
        NoEntries(hash, ht0, ht1, rehashidx);
        EmptyMap();
        return false;
      }
      if rehashidx != -1 {
        RehashStep();
      }
      OkShape(hash, ht0, ht1, rehashidx);
      AllUnique(hash, ht0, ht1, rehashidx);
      LookupIs(hash, ht0, ht1, rehashidx, k);
      var h := hash(k);
      var found := Unlink(ht0.buckets[Index(h, ht0.exp)], k);
      if found.Some? {
        RemoveSets(hash, ht0, ht1, rehashidx, k);
        ht0 := WithChain(hash, ht0, k, found.value, ht0.used - 1);
        return true;
      }
      if rehashidx == -1 {
        MissingKey(ToMap(All(ht0, ht1)), k);
        return false;
      }
      found := Unlink(ht1.buckets[Index(h, ht1.exp)], k);
      if found.Some? {
        RemoveSets(hash, ht0, ht1, rehashidx, k);
        ht1 := WithChain(hash, ht1, k, found.value, ht1.used - 1);
        return true;
      }
      MissingKey(ToMap(All(ht0, ht1)), k);
      return false;
    }
  }
}
