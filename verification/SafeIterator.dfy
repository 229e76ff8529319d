/** Safe iteration: dictNext interleaved with the operations an iterating caller may perform.
    While a safe iterator is active no rehash step runs, so entries never change table. */
module SafeIterator {
  import opened Words
  import opened Wrappers
  import opened DictModel
  import opened Dictionary

  /** The saved entry pointers are identified by their keys. */
  datatype Iter = Iter(table: nat, index: int, entry: Option<Key>, next: Option<Key>)

  const START: Iter := Iter(0, -1, None, None)

  function HeadKey(c: Chain): Option<Key> { if c.Nil? then None else Some(c.head.key) }

  /** The list starting at the entry of key k. */
  function From(c: Chain, k: Key): Chain {
    if c.Nil? || c.head.key == k then c else From(c.next, k)
  }

  ghost predicate Shaped(t0: Table, t1: Table, idx: int) {
    && (t0.Table? ==> |t0.buckets| == P(t0.exp))
    && (t1.Table? ==> |t1.buckets| == P(t1.exp))
    && (idx == -1 <==> t1.NullTable?)
  }

  ghost predicate IterOk(t0: Table, t1: Table, idx: int, it: Iter)
    requires Shaped(t0, t1, idx)
  {
    var t := if it.table == 0 then t0 else t1;
    && (it.table == 0 || (it.table == 1 && idx != -1 && it.index >= 0))
    && -1 <= it.index < t.Size()
    && (it.entry.None? ==> it.next.None?)
    && (it.entry.Some? ==> 0 <= it.index)
    && (it.next.Some? ==> it.entry.Some? && it.next != it.entry && ChainGet(t.buckets[it.index], it.next.value).Some?)
  }

  function BucketsLeft(t0: Table, t1: Table, it: Iter): int {
    if it.table == 0 then t0.Size() - it.index + t1.Size() + 1 else t1.Size() - it.index
  }

  /** Position the iterator on bucket (table, i), or move on when the bucket is empty. */
  function Visit(t0: Table, t1: Table, idx: int, table: nat, i: nat): (r: (Iter, Option<Key>))
    requires Shaped(t0, t1, idx) && table <= 1
    requires var t := if table == 0 then t0 else t1; t.Table? && i < |t.buckets|
    decreases BucketsLeft(t0, t1, Iter(table, i, None, None)), 1
  {
    var c := (if table == 0 then t0 else t1).buckets[i];
    if c.Cons? then (Iter(table, i, Some(c.head.key), HeadKey(c.next)), Some(c.head.key))
    else NextBucket(t0, t1, idx, Iter(table, i, None, None))
  }

  function NextBucket(t0: Table, t1: Table, idx: int, it: Iter): (r: (Iter, Option<Key>))
    requires Shaped(t0, t1, idx) && IterOk(t0, t1, idx, it)
    decreases BucketsLeft(t0, t1, it), 0
  {
    var t := if it.table == 0 then t0 else t1;
    var i := it.index + 1;
    if i < t.Size() then Visit(t0, t1, idx, it.table, i)
    else if idx != -1 && it.table == 0 then Visit(t0, t1, idx, 1, 0)
    else (it.(index := i, entry := None, next := None), None)
  }

  /** dictNext: the key of the next entry, or none at the end. */
  function Next(t0: Table, t1: Table, idx: int, it: Iter): (r: (Iter, Option<Key>))
    requires Shaped(t0, t1, idx) && IterOk(t0, t1, idx, it)
  {
    var t := if it.table == 0 then t0 else t1;
    if it.next.Some? then
      var c := From(t.buckets[it.index], it.next.value);
      if c.Cons? then (it.(entry := Some(c.head.key), next := HeadKey(c.next)), Some(c.head.key))
      else NextBucket(t0, t1, idx, it.(entry := None, next := None))
    else NextBucket(t0, t1, idx, it.(entry := None))
  }

  // ---- what is still to come ----

  ghost predicate InRest(c: Chain, next: Option<Key>, k: Key) {
    next.Some? && ChainGet(From(c, next.value), k).Some?
  }

  /** The entry of k lies ahead of the iterator. */
  ghost predicate Pending(hash: Key -> nat, t0: Table, t1: Table, idx: int, it: Iter, k: Key)
    requires Shaped(t0, t1, idx)
  {
    if TableGet(hash, t0, k).Some? then
      it.table == 0 && Ahead(t0.buckets, Index(hash(k), t0.exp), it, k)
    else
      it.table == 0 || (t1.Table? && Ahead(t1.buckets, Index(hash(k), t1.exp), it, k))
  }

  ghost predicate Ahead(b: seq<Chain>, i: nat, it: Iter, k: Key)
    requires i < |b|
  {
    i > it.index || (i == it.index && InRest(b[i], it.next, k))
  }

  lemma FromNext(hash: Key -> nat, exp: nat, i: nat, c: Chain, k: Key)
    requires ChainOk(hash, exp, i, c) && c.Cons?
    ensures InRest(c, HeadKey(c.next), k) <==> ChainGet(c.next, k).Some?
    ensures ChainGet(c.next, c.head.key).None?
    ensures c.next.Cons? ==> c.next.head.key != c.head.key && ChainGet(c, c.next.head.key).Some?
  {
    ChainGetIs(c.next, c.head.key);
    if c.next.Cons? {
      assert From(c.next, c.next.head.key) == c.next;
    }
  }

  /** Advancing past bucket i of a table, where the chain is c. */
  ghost predicate Advanced(c: Chain, i: nat, it: Iter, k: Key) {
    c.Cons? && it.index == i && it.entry == Some(c.head.key) && it.next == HeadKey(c.next)
  }

  lemma VisitedAhead(hash: Key -> nat, exp: nat, b: seq<Chain>, i: nat, it: Iter, k: Key)
    requires BucketsOk(hash, exp, b) && i < |b|
    requires ChainGet(b[Index(hash(k), exp)], k).Some?
    ensures b[i].Nil? ==> Index(hash(k), exp) != i
    ensures Advanced(b[i], i, it, k)
      ==> (Ahead(b, Index(hash(k), exp), it, k) <==> (Index(hash(k), exp) >= i && k != b[i].head.key))
    ensures b[i].Cons? && k == b[i].head.key ==> Index(hash(k), exp) == i
  {
    if b[i].Cons? {
      FromNext(hash, exp, i, b[i], k);
    }
  }

  /** From a bucket boundary, the next entry returned is k itself or leaves k where it was. */
  lemma {:induction false} VisitPending(hash: Key -> nat, t0: Table, t1: Table, idx: int, table: nat, i: nat, k: Key)
    requires Ok(hash, t0, t1, idx) && Shaped(t0, t1, idx) && table <= 1
    requires var t := if table == 0 then t0 else t1; t.Table? && i < |t.buckets|
    requires Lookup(hash, t0, t1, k).Some?
    ensures
      var (it, r) := Visit(t0, t1, idx, table, i);
      var before := Pending(hash, t0, t1, idx, Iter(table, i - 1, None, None), k);
      && (r.None? ==> !before)
      && (r.Some? ==> IterOk(t0, t1, idx, it) && it.entry == r)
      && (r == Some(k) ==> before && !Pending(hash, t0, t1, idx, it, k))
      && (r.Some? && r != Some(k) ==> (before <==> Pending(hash, t0, t1, idx, it, k)))
    decreases BucketsLeft(t0, t1, Iter(table, i, None, None)), 1
  {
    hide Index, ChainOk, Apart, BucketItems, From, P;
    var t := if table == 0 then t0 else t1;
    var c := t.buckets[i];
    OnlyOneTable(hash, t0, t1, idx, k);
    if TableGet(hash, t, k).Some? {
      VisitedAhead(hash, t.exp, t.buckets, i, Visit(t0, t1, idx, table, i).0, k);
    } else if c.Cons? {
      HeadIsFound(hash, t, i);
      FromNext(hash, t.exp, i, c, k);
    }
    if c.Cons? {
      FromNext(hash, t.exp, i, c, k);
    } else if i + 1 < t.Size() {
      VisitPending(hash, t0, t1, idx, table, i + 1, k);
    } else if idx != -1 && table == 0 {
      VisitPending(hash, t0, t1, idx, 1, 0, k);
    }
  }

  lemma OnlyOneTable(hash: Key -> nat, t0: Table, t1: Table, idx: int, k: Key)
    requires Ok(hash, t0, t1, idx) && Shaped(t0, t1, idx)
    ensures TableGet(hash, t0, k).None? || TableGet(hash, t1, k).None?
    ensures t0.Table? ==> BucketsOk(hash, t0.exp, t0.buckets)
    ensures t1.Table? ==> BucketsOk(hash, t1.exp, t1.buckets)
  {
    TableGetIs(hash, t0, k);
    TableGetIs(hash, t1, k);
  }

  lemma HeadIsFound(hash: Key -> nat, t: Table, i: nat)
    requires t.Table? && BucketsOk(hash, t.exp, t.buckets) && i < |t.buckets| && t.buckets[i].Cons?
    ensures TableGet(hash, t, t.buckets[i].head.key).Some?
  {
  }

  lemma {:induction false} FromFound(hash: Key -> nat, exp: nat, i: nat, c: Chain, n: Key)
    requires ChainOk(hash, exp, i, c) && ChainGet(c, n).Some?
    ensures From(c, n).Cons? && From(c, n).head.key == n
    ensures ChainOk(hash, exp, i, From(c, n))
    ensures forall k :: ChainGet(From(c, n), k).Some? ==> ChainGet(c, k).Some?
  {
    if c.head.key != n {
      FromFound(hash, exp, i, c.next, n);
    }
  }

  /** Stepping within a chain: the entry after the saved one follows it in the whole chain. */
  lemma {:induction false} FromStep(hash: Key -> nat, exp: nat, i: nat, c: Chain, n: Key, k: Key)
    requires ChainOk(hash, exp, i, c) && ChainGet(c, n).Some?
    ensures From(c, n).Cons?
    ensures InRest(c, HeadKey(From(c, n).next), k) <==> InRest(c, Some(n), k) && k != n
    ensures From(c, n).next.Cons? ==> From(c, n).next.head.key != n && ChainGet(c, From(c, n).next.head.key).Some?
  {
    FromFound(hash, exp, i, c, n);
    if c.head.key == n {
      FromNext(hash, exp, i, c, k);
    } else {
      FromStep(hash, exp, i, c.next, n, k);
      FromFound(hash, exp, i, c.next, n);
      ChainGetIs(c.next, c.head.key);
    }
  }

  /** dictNext returns k only while k is pending, and ends only when nothing is. */
  lemma NextPending(hash: Key -> nat, t0: Table, t1: Table, idx: int, it: Iter, k: Key)
    requires Ok(hash, t0, t1, idx) && Shaped(t0, t1, idx) && IterOk(t0, t1, idx, it)
    requires Lookup(hash, t0, t1, k).Some?
    ensures
      var (it', r) := Next(t0, t1, idx, it);
      var before := Pending(hash, t0, t1, idx, it, k);
      && (r.None? ==> !before)
      && (r.Some? ==> IterOk(t0, t1, idx, it') && it'.entry == r)
      && (r == Some(k) ==> before && !Pending(hash, t0, t1, idx, it', k))
      && (r.Some? && r != Some(k) ==> (before <==> Pending(hash, t0, t1, idx, it', k)))
  {
    hide Index, ChainOk, Apart, BucketItems, From, P, Visit;
    var t := if it.table == 0 then t0 else t1;
    OnlyOneTable(hash, t0, t1, idx, k);
    if it.next.Some? {
      var c := t.buckets[it.index];
      FromFound(hash, t.exp, it.index, c, it.next.value);
      FromStep(hash, t.exp, it.index, c, it.next.value, k);
    } else if it.index + 1 < t.Size() {
      VisitPending(hash, t0, t1, idx, it.table, it.index + 1, k);
    } else if idx != -1 && it.table == 0 {
      VisitPending(hash, t0, t1, idx, 1, 0, k);
    }
  }

  // ---- edits that an iterating caller may make ----

  /** c' keeps k, and what follows the saved entry n, as c had them. */
  ghost predicate SameFor(c: Chain, c': Chain, n: Option<Key>, k: Key) {
    && (ChainGet(c, k).Some? <==> ChainGet(c', k).Some?)
    && (InRest(c, n, k) <==> InRest(c', n, k))
    && KeepsNext(c, c', n)
  }

  lemma PushSame(c: Chain, e: Entry, n: Option<Key>, k: Key)
    requires e.key != k && n != Some(e.key)
    ensures SameFor(c, Cons(e, c), n, k)
  {
  }

  lemma {:induction false} UpdateSame(c: Chain, x: Key, v: Val, n: Option<Key>, k: Key)
    ensures SameFor(c, ChainUpdate(c, x, v), n, k)
  {
    if c.Cons? && c.head.key != x {
      UpdateSame(c.next, x, v, n, k);
    }
  }

  lemma {:induction false} RemoveSame(hash: Key -> nat, exp: nat, i: nat, c: Chain, x: Key, n: Option<Key>, k: Key)
    requires ChainOk(hash, exp, i, c) && x != k && n != Some(x)
    ensures SameFor(c, ChainRemove(c, x), n, k)
  {
    if c.Cons? && c.head.key != x {
      RemoveSame(hash, exp, i, c.next, x, n, k);
    }
  }

  /** An edit of one chain of table t that is the same for k leaves k where it was. */
  lemma EditKeeps(hash: Key -> nat, t: Table, j: nat, c': Chain, used: nat, it: Iter, k: Key)
    requires t.Table? && |t.buckets| == P(t.exp) && j < |t.buckets|
    requires SameFor(t.buckets[j], c', it.next, k)
    ensures var u := t.(buckets := t.buckets[j := c'], used := used);
      && (TableGet(hash, t, k).Some? <==> TableGet(hash, u, k).Some?)
      && (Ahead(t.buckets, Index(hash(k), t.exp), it, k) <==> Ahead(u.buckets, Index(hash(k), t.exp), it, k))
  {
  }

  /** One chain of table `which` replaced by c'. */
  ghost predicate Edited(t0: Table, t1: Table, u0: Table, u1: Table, which: nat, j: nat, c': Chain) {
    var t, u := if which == 0 then t0 else t1, if which == 0 then u0 else u1;
    && (if which == 0 then u1 == t1 else u0 == t0)
    && t.Table? && u.Table? && j < |t.buckets|
    && u == t.(buckets := t.buckets[j := c'], used := u.used)
  }

  ghost predicate KeepsNext(c: Chain, c': Chain, n: Option<Key>) {
    n.Some? && ChainGet(c, n.value).Some? ==> ChainGet(c', n.value).Some?
  }

  lemma EditedIter(t0: Table, t1: Table, idx: int, it: Iter, u0: Table, u1: Table, which: nat, j: nat, c': Chain)
    requires Shaped(t0, t1, idx) && IterOk(t0, t1, idx, it)
    requires which <= 1 && Edited(t0, t1, u0, u1, which, j, c')
    requires KeepsNext((if which == 0 then t0 else t1).buckets[j], c', it.next)
    ensures Shaped(u0, u1, idx) && IterOk(u0, u1, idx, it)
  {
    GetUnchanged((if which == 0 then t0 else t1).buckets, j, c', it);
  }

  lemma EditedPending(hash: Key -> nat, t0: Table, t1: Table, idx: int, it: Iter, k: Key,
                      u0: Table, u1: Table, which: nat, j: nat, c': Chain)
    requires Shaped(t0, t1, idx) && IterOk(t0, t1, idx, it)
    requires which <= 1 && Edited(t0, t1, u0, u1, which, j, c')
    requires SameFor((if which == 0 then t0 else t1).buckets[j], c', it.next, k)
    ensures Shaped(u0, u1, idx) && IterOk(u0, u1, idx, it)
    ensures Pending(hash, t0, t1, idx, it, k) <==> Pending(hash, u0, u1, idx, it, k)
    ensures Lookup(hash, t0, t1, k).Some? <==> Lookup(hash, u0, u1, k).Some?
  {
    hide Index, P, InRest, ChainGet, IterOk;
    var t := if which == 0 then t0 else t1;
    EditKeeps(hash, t, j, c', (if which == 0 then u0 else u1).used, it, k);
    EditedIter(t0, t1, idx, it, u0, u1, which, j, c');
  }

  lemma GetUnchanged(b: seq<Chain>, j: nat, c': Chain, it: Iter)
    requires j < |b|
    ensures 0 <= it.index < |b| && it.index != j ==> b[j := c'][it.index] == b[it.index]
  {
  }

  // ---- the machine ----

  datatype State = State(t0: Table, t1: Table, idx: int, it: Iter, out: multiset<Key>, done: bool)

  datatype Event =
    | NextEntry                        // dictNext
    | Insert(e: Entry)                 // dictAdd of a new key
    | Grow(exp: nat)                   // an add creates the table or starts a rehash
    | Update(k: Key, v: Val)           // dictReplace of a present key
    | DeleteReturned                   // dictDelete of the entry just returned

  ghost predicate Good(hash: Key -> nat, s: State) {
    && Ok(hash, s.t0, s.t1, s.idx)
    && Shaped(s.t0, s.t1, s.idx)
    && (!s.done ==> IterOk(s.t0, s.t1, s.idx, s.it))
  }

  ghost predicate Holds(hash: Key -> nat, s: State, k: Key)
    requires Shaped(s.t0, s.t1, s.idx)
  {
    Lookup(hash, s.t0, s.t1, k).Some?
  }

  function Inserted(hash: Key -> nat, t: Table, e: Entry): Table
    requires t.Table? && |t.buckets| == P(t.exp)
  {
    Push(t, Index(hash(e.key), t.exp), e)
  }

  /** The effect of an event; finds change nothing and need no event. */
  ghost predicate Step(hash: Key -> nat, s: State, ev: Event, s': State)
    requires Good(hash, s)
  {
    match ev
    case NextEntry =>
      && !s.done
      && var (it', r) := Next(s.t0, s.t1, s.idx, s.it);
      s' == s.(it := it', out := if r.Some? then s.out + multiset{r.value} else s.out, done := r.None?)
    case Insert(e) =>
      && !s.done && s.t0.Table? && !Holds(hash, s, e.key)
      && s' == if s.idx == -1 then s.(t0 := Inserted(hash, s.t0, e)) else s.(t1 := Inserted(hash, s.t1, e))
    case Grow(exp) =>
      && !s.done && s.idx == -1
      && if s.t0.NullTable? then s' == s.(t0 := Empty(exp))
         else exp != s.t0.exp && s' == s.(t1 := Empty(exp), idx := 0)
    case Update(k, v) =>
      && !s.done && Holds(hash, s, k)
      && s' ==
         if TableGet(hash, s.t0, k).Some? then s.(t0 := Updated(hash, s.t0, k, v))
         else s.(t1 := Updated(hash, s.t1, k, v))
    case DeleteReturned =>
      && !s.done && s.it.entry.Some?
      && var k := s.it.entry.value;
      if TableGet(hash, s.t0, k).Some? then s.t0.used > 0 && s' == s.(t0 := Removed(hash, s.t0, k))
      else if TableGet(hash, s.t1, k).Some? then s.t1.used > 0 && s' == s.(t1 := Removed(hash, s.t1, k))
      else s' == s
  }

  /** k has been returned exactly once, or is still to come and has not been returned. */
  ghost predicate Balanced(hash: Key -> nat, s: State, k: Key)
    requires Good(hash, s)
  {
    s.out[k] == if !s.done && Pending(hash, s.t0, s.t1, s.idx, s.it, k) then 0 else 1
  }

  lemma InBucketHeld(hash: Key -> nat, t0: Table, t1: Table, idx: int, it: Iter)
    requires Ok(hash, t0, t1, idx) && Shaped(t0, t1, idx) && IterOk(t0, t1, idx, it) && it.next.Some?
    ensures Lookup(hash, t0, t1, it.next.value).Some?
  {
    var t := if it.table == 0 then t0 else t1;
    var n := it.next.value;
    var c := t.buckets[it.index];
    ChainGetIs(c, n);
    ChainFacts(hash, t.exp, it.index, c);
  }

  lemma AbsentIs(hash: Key -> nat, t0: Table, t1: Table, idx: int, k: Key)
    requires Ok(hash, t0, t1, idx) && Shaped(t0, t1, idx)
    ensures Lookup(hash, t0, t1, k).None? <==> Absent(All(t0, t1), k)
  {
    TableGetIs(hash, t0, k);
    TableGetIs(hash, t1, k);
  }

  lemma InsertKeeps(hash: Key -> nat, s: State, e: Entry, s': State, k: Key)
    requires Good(hash, s) && Step(hash, s, Insert(e), s') && Holds(hash, s, k)
    ensures Good(hash, s')
    ensures Balanced(hash, s, k) <==> Balanced(hash, s', k)
  {
    hide Ok, All, Index, IterOk, Pending, SameFor, Lookup, P;
    AbsentIs(hash, s.t0, s.t1, s.idx, e.key);
    InsertOk(hash, s.t0, s.t1, s.idx, e);
    if s.it.next.Some? {
      InBucketHeld(hash, s.t0, s.t1, s.idx, s.it);
    }
    var which := if s.idx == -1 then 0 else 1;
    var t := if which == 0 then s.t0 else s.t1;
    var j := Index(hash(e.key), t.exp);
    PushSame(t.buckets[j], e, s.it.next, k);
    EditedPending(hash, s.t0, s.t1, s.idx, s.it, k, s'.t0, s'.t1, which, j, Cons(e, t.buckets[j]));
  }

  lemma GrowKeeps(hash: Key -> nat, s: State, exp: nat, s': State, k: Key)
    requires Good(hash, s) && Step(hash, s, Grow(exp), s') && Holds(hash, s, k)
    ensures Good(hash, s')
    ensures Balanced(hash, s, k) <==> Balanced(hash, s', k)
  {
    hide Ok, All, Index, P, Ahead;
    StartRehashOk(hash, s.t0, exp);
  }

  lemma UpdateKeeps(hash: Key -> nat, s: State, x: Key, v: Val, s': State, k: Key)
    requires Good(hash, s) && Step(hash, s, Update(x, v), s') && Holds(hash, s, k)
    ensures Good(hash, s')
    ensures Balanced(hash, s, k) <==> Balanced(hash, s', k)
  {
    hide Ok, All, Index, IterOk, Pending, SameFor, P, TableGet;
    GetSome(hash, s.t0, x);
    GetSome(hash, s.t1, x);
    var which := if TableGet(hash, s.t0, x).Some? then 0 else 1;
    var t := if which == 0 then s.t0 else s.t1;
    var j := Index(hash(x), t.exp);
    if which == 0 {
      Update0Ok(hash, s.t0, s.t1, s.idx, x, v);
    } else {
      Update1Ok(hash, s.t0, s.t1, s.idx, x, v);
    }
    UpdateSame(t.buckets[j], x, v, s.it.next, k);
    EditedPending(hash, s.t0, s.t1, s.idx, s.it, k, s'.t0, s'.t1, which, j, ChainUpdate(t.buckets[j], x, v));
  }

  lemma GoneAfterDelete(hash: Key -> nat, t0: Table, t1: Table, idx: int, x: Key)
    requires Ok(hash, t0, t1, idx) && Shaped(t0, t1, idx) && Lookup(hash, t0, t1, x).Some?
    ensures Absent(All(t0, t1) - {Entry(x, Lookup(hash, t0, t1, x).value)}, x)
  {
    AllUnique(hash, t0, t1, idx);
    HeldEntry(hash, t0, t1, idx, x);
  }

  lemma DeleteEdit(hash: Key -> nat, s: State, s': State, which: nat, x: Key, k: Key)
    requires Good(hash, s) && !s.done && s.it.next != Some(x) && which <= 1
    requires TableGet(hash, if which == 0 then s.t0 else s.t1, x).Some?
    requires Ok(hash, s'.t0, s'.t1, s.idx)
    requires
      var t := if which == 0 then s.t0 else s.t1;
      && t.Table? && t.used > 0
      && s' == if which == 0 then s.(t0 := Removed(hash, t, x)) else s.(t1 := Removed(hash, t, x))
    ensures Good(hash, s')
    ensures k != x ==> (Balanced(hash, s, k) <==> Balanced(hash, s', k))
  {
    hide Ok, Index, IterOk, Pending, P, TableGet, SameFor;
    var t := if which == 0 then s.t0 else s.t1;
    var j := Index(hash(x), t.exp);
    var c := t.buckets[j];
    var c' := ChainRemove(c, x);
    ChainIsOk(hash, s.t0, s.t1, s.idx, which, j);
    RemoveKeepsNext(hash, t.exp, j, c, x, s.it.next);
    EditedIter(s.t0, s.t1, s.idx, s.it, s'.t0, s'.t1, which, j, c');
    if k != x {
      RemoveSame(hash, t.exp, j, c, x, s.it.next, k);
      EditedPending(hash, s.t0, s.t1, s.idx, s.it, k, s'.t0, s'.t1, which, j, c');
    }
  }

  lemma RemoveKeepsNext(hash: Key -> nat, exp: nat, i: nat, c: Chain, x: Key, n: Option<Key>)
    requires ChainOk(hash, exp, i, c) && n != Some(x)
    ensures KeepsNext(c, ChainRemove(c, x), n)
  {
    if n.Some? {
      RemoveSame(hash, exp, i, c, x, n, n.value);
    }
  }

  lemma ChainIsOk(hash: Key -> nat, t0: Table, t1: Table, idx: int, which: nat, j: nat)
    requires Ok(hash, t0, t1, idx)
    requires var t := if which == 0 then t0 else t1; t.Table? && j < |t.buckets|
    ensures var t := if which == 0 then t0 else t1; ChainOk(hash, t.exp, j, t.buckets[j])
  {
  }

  lemma DeleteKeeps(hash: Key -> nat, s: State, s': State, k: Key)
    requires Good(hash, s) && Step(hash, s, DeleteReturned, s')
    ensures Good(hash, s')
    ensures Holds(hash, s', k) ==> (Balanced(hash, s, k) <==> Balanced(hash, s', k))
  {
    hide Ok, All, Index, Pending, P, TableGet, Ahead, ChainGet;
    var x := s.it.entry.value;
    GetSome(hash, s.t0, x);
    GetSome(hash, s.t1, x);
    if Lookup(hash, s.t0, s.t1, x).Some? {
      var which := if TableGet(hash, s.t0, x).Some? then 0 else 1;
      if which == 0 {
        Remove0Ok(hash, s.t0, s.t1, s.idx, x);
      } else {
        Remove1Ok(hash, s.t0, s.t1, s.idx, x);
      }
      DeleteEdit(hash, s, s', which, x, k);
      GoneAfterDelete(hash, s.t0, s.t1, s.idx, x);
      AbsentIs(hash, s'.t0, s'.t1, s'.idx, x);
    }
  }

  lemma NextKeeps(hash: Key -> nat, s: State, s': State, k: Key)
    requires Good(hash, s) && Step(hash, s, NextEntry, s') && Holds(hash, s, k)
    ensures Good(hash, s')
    ensures Balanced(hash, s, k) ==> Balanced(hash, s', k)
  {
    hide Ok, Next, Pending, Lookup, P;
    NextPending(hash, s.t0, s.t1, s.idx, s.it, k);
  }

  lemma StepKeeps(hash: Key -> nat, s: State, ev: Event, s': State, k: Key)
    requires Good(hash, s) && Step(hash, s, ev, s') && Holds(hash, s, k) && Balanced(hash, s, k)
    ensures Good(hash, s')
    ensures Holds(hash, s', k) ==> Balanced(hash, s', k)
  {
    hide *;
    match ev
    case NextEntry => NextKeeps(hash, s, s', k);
    case Insert(e) => InsertKeeps(hash, s, e, s', k);
    case Grow(exp) => GrowKeeps(hash, s, exp, s', k);
    case Update(x, v) => UpdateKeeps(hash, s, x, v, s', k);
    case DeleteReturned => DeleteKeeps(hash, s, s', k);
  }

  /** A dictAdd during the iteration is an insert, possibly after growing. */
  lemma AddIsEvents(hash: Key -> nat, s: State, e: Entry, s': State) returns (m: State)
    requires Good(hash, s) && !s.done && !Holds(hash, s, e.key)
    requires AddedTo(hash, s.t0, s.t1, s.idx, s'.t0, s'.t1, s'.idx, e)
    requires s'.it == s.it && s'.out == s.out && s'.done == s.done
    ensures Good(hash, m)
    ensures m == s || exists exp :: Step(hash, s, Grow(exp), m)
    ensures Step(hash, m, Insert(e), s')
  {
    hide Ok, All, P, NextExp, TableGet;
    OkShape(hash, s.t0, s.t1, s.idx);
    m := s;
    if s.idx == -1 && (s.t0.NullTable? || s'.idx != -1) {
      var exp := NextExp(2, if s.t0.NullTable? then INITIAL_SIZE else s.t0.used * 2);
      StartRehashOk(hash, s.t0, exp);
      EmptyLacks(hash, exp, e.key);
      m := if s.t0.NullTable? then s.(t0 := Empty(exp)) else s.(t1 := Empty(exp), idx := 0);
      assert Step(hash, s, Grow(exp), m);
    }
  }

  /** An add whose key is already present may still grow the dictionary. */
  lemma GrowthIsEvent(hash: Key -> nat, s: State, m: State)
    requires Good(hash, s) && !s.done && MayGrow(s.t0, s.idx, m.idx)
    requires (m.t0, m.t1) == Grown(s.t0, s.t1, s.idx, m.idx)
    requires m.it == s.it && m.out == s.out && m.done == s.done
    ensures m == s || exists exp :: Step(hash, s, Grow(exp), m)
    ensures Good(hash, m) && forall k :: Holds(hash, s, k) <==> Holds(hash, m, k)
  {
    hide Ok, All, P, NextExp, TableGet, Empty;
    OkShape(hash, s.t0, s.t1, s.idx);
    if s.idx == -1 && (s.t0.NullTable? || m.idx != -1) {
      var exp := NextExp(2, if s.t0.NullTable? then INITIAL_SIZE else s.t0.used * 2);
      StartRehashOk(hash, s.t0, exp);
      EmptyShape(exp);
      forall k
        ensures Holds(hash, s, k) <==> Holds(hash, m, k)
      {
        EmptyLacks(hash, exp, k);
      }
      assert Step(hash, s, Grow(exp), m);
    }
  }

  lemma EmptyShape(exp: nat)
    ensures Empty(exp).Table? && Empty(exp).exp == exp && |Empty(exp).buckets| == P(exp)
  {
  }

  /** A dictReplace of a present key during the iteration is an update, possibly after growing. */
  lemma ReplaceIsEvents(hash: Key -> nat, s: State, k: Key, v: Val, s': State) returns (m: State)
    requires Good(hash, s) && !s.done && Holds(hash, s, k) && MayGrow(s.t0, s.idx, s'.idx)
    requires var (g0, g1) := Grown(s.t0, s.t1, s.idx, s'.idx); UpdatedIn(hash, g0, g1, s'.t0, s'.t1, k, v)
    requires s'.it == s.it && s'.out == s.out && s'.done == s.done
    ensures Good(hash, m)
    ensures m == s || exists exp :: Step(hash, s, Grow(exp), m)
    ensures Step(hash, m, Update(k, v), s')
  {
    hide Ok, Grown, MayGrow, TableGet, P, IterOk;
    var (g0, g1) := Grown(s.t0, s.t1, s.idx, s'.idx);
    m := s'.(t0 := g0, t1 := g1);
    GrowthIsEvent(hash, s, m);
  }

  /** A dictDelete of the entry just returned is the delete event, whether or not it is still there. */
  lemma DeleteIsEvent(hash: Key -> nat, s: State, k: Key, s': State)
    requires Good(hash, s) && !s.done && s.it.entry == Some(k)
    requires
      if Holds(hash, s, k) then RemovedFrom(hash, s.t0, s.t1, s'.t0, s'.t1, k)
      else s'.t0 == s.t0 && s'.t1 == s.t1
    requires s'.idx == s.idx && s'.it == s.it && s'.out == s.out && s'.done == s.done
    ensures Step(hash, s, DeleteReturned, s')
  {
    hide Ok, TableGet, P, IterOk;
    GetSome(hash, s.t0, k);
    GetSome(hash, s.t1, k);
  }

  lemma EmptyLacks(hash: Key -> nat, exp: nat, k: Key)
    ensures TableGet(hash, Empty(exp), k).None? && TableGet(hash, NullTable, k).None?
  {
  }

  // ---- whole iterations ----

  /** An iteration started on a valid dictionary and interleaved with events. */
  ghost predicate Run(hash: Key -> nat, states: seq<State>, evs: seq<Event>) {
    && |states| == |evs| + 1
    && states[0].it == START && states[0].out == multiset{} && !states[0].done
    && Ok(hash, states[0].t0, states[0].t1, states[0].idx)
    && forall i :: 0 <= i < |evs| && Good(hash, states[i]) ==> Step(hash, states[i], evs[i], states[i + 1])
  }

  ghost predicate HoldsThroughout(hash: Key -> nat, states: seq<State>, k: Key) {
    forall i :: 0 <= i < |states| ==> Shaped(states[i].t0, states[i].t1, states[i].idx) && Holds(hash, states[i], k)
  }

  lemma {:induction false} RunBalanced(hash: Key -> nat, states: seq<State>, evs: seq<Event>, k: Key, n: nat)
    requires Run(hash, states, evs) && HoldsThroughout(hash, states, k) && n < |states|
    ensures Good(hash, states[n]) && Balanced(hash, states[n], k)
  {
    hide Good, Step, Balanced, Holds, Ok, Shaped;
    if n == 0 {
      StartBalanced(hash, states[0], k);
    } else {
      RunBalanced(hash, states, evs, k, n - 1);
      assert Step(hash, states[n - 1], evs[n - 1], states[n - 1 + 1]);
      StepKeeps(hash, states[n - 1], evs[n - 1], states[n], k);
    }
  }

  lemma StartBalanced(hash: Key -> nat, s: State, k: Key)
    requires s.it == START && s.out == multiset{} && !s.done && Ok(hash, s.t0, s.t1, s.idx)
    requires Shaped(s.t0, s.t1, s.idx) && Holds(hash, s, k)
    ensures Good(hash, s) && Balanced(hash, s, k)
  {
    hide Index, P, Ok;
  }

  /** Safe iteration returns every key that stays in the dictionary exactly once. */
  lemma EveryKeyOnce(hash: Key -> nat, states: seq<State>, evs: seq<Event>, k: Key)
    requires Run(hash, states, evs) && HoldsThroughout(hash, states, k)
    requires states[|evs|].done
    ensures states[|evs|].out[k] == 1
  {
    RunBalanced(hash, states, evs, k, |evs|);
  }

  // ---- the iterator object ----

  class Iterator {
    const d: Dict
    var table: nat
    var index: int
    var entry: Option<Key>
    var next: Option<Key>

    function View(): Iter
      reads this
    {
      Iter(table, index, entry, next)
    }

    constructor (d: Dict)
      ensures this.d == d && View() == START
    {
      this.d := d;
      table, index, entry, next := 0, -1, None, None;
    }

    /** dictNext on a safe iterator; the first call registers it with the dictionary, which
        suspends rehash steps. */
    method NextEntry() returns (r: Option<Key>)
      requires d.Valid() && Shaped(d.ht0, d.ht1, d.rehashidx) && IterOk(d.ht0, d.ht1, d.rehashidx, View())
      modifies this`table, this`index, this`entry, this`next, d`iterators
      ensures (View(), r) == Next(d.ht0, d.ht1, d.rehashidx, old(View()))
      ensures d.iterators == old(d.iterators) + if old(View()) == START then 1 else 0
    {
      hide P, From, Visit, Ok, ChainGet;
      ghost var t0, t1, idx := d.ht0, d.ht1, d.rehashidx;
      ghost var goal := Next(t0, t1, idx, View());
      if next.Some? {
        var t := if table == 0 then d.ht0 else d.ht1;
        var c := From(t.buckets[index], next.value);
        if c.Cons? {
          entry := Some(c.head.key);
          next := HeadKey(c.next);
          return entry;
        }
        next := None;
      }
      entry := None;
      while true
        invariant entry.None? && next.None?
        invariant d.ht0 == t0 && d.ht1 == t1 && d.rehashidx == idx
        invariant IterOk(t0, t1, idx, View()) && NextBucket(t0, t1, idx, View()) == goal
        invariant index == -1 && table == 0 ==> old(View()) == START
        invariant d.iterators ==
          old(d.iterators) + if old(View()) == START && !(index == -1 && table == 0) then 1 else 0
        decreases BucketsLeft(t0, t1, View())
      {
        if index == -1 && table == 0 {
          d.iterators := d.iterators + 1;
        }
        var t := if table == 0 then d.ht0 else d.ht1;
        index := index + 1;
        if index >= t.Size() {
          if d.rehashidx != -1 && table == 0 {
            table := 1;
            index := 0;
          } else {
            return None;
          }
        }
        VisitIs(t0, t1, idx, table, index);
        var c := (if table == 0 then d.ht0 else d.ht1).buckets[index];
        if c.Cons? {
          entry := Some(c.head.key);
          next := HeadKey(c.next);
          return entry;
        }
      }
    }
  }

  lemma VisitIs(t0: Table, t1: Table, idx: int, table: nat, i: nat)
    requires Shaped(t0, t1, idx) && table <= 1
    requires var t := if table == 0 then t0 else t1; t.Table? && i < |t.buckets|
    ensures var c := (if table == 0 then t0 else t1).buckets[i];
      Visit(t0, t1, idx, table, i) ==
      if c.Cons? then (Iter(table, i, Some(c.head.key), HeadKey(c.next)), Some(c.head.key))
      else NextBucket(t0, t1, idx, Iter(table, i, None, None))
  {
  }
}
