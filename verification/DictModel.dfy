/** Values of the chained hash table: chains, bucket arrays, their shape invariant and
    the set of entries they store. */
module DictModel {
  import opened Words
  import opened Wrappers

  /** Keys and values are opaque to the dictionary. */
  type Key(==, !new)
  type Val(==, !new)

  datatype Entry = Entry(key: Key, val: Val)

  /** The linked list hanging off a bucket; `Nil` is the NULL pointer. */
  datatype Chain = Nil | Cons(head: Entry, next: Chain)

  ghost function Entries(c: Chain): set<Entry> {
    match c
    case Nil => {}
    case Cons(e, next) => {e} + Entries(next)
  }

  ghost function Len(c: Chain): nat {
    if c.Nil? then 0 else 1 + Len(c.next)
  }

  ghost predicate Absent(items: set<Entry>, k: Key) {
    forall e :: e in items ==> e.key != k
  }

  ghost predicate UniqueKeys(items: set<Entry>) {
    forall e, f :: e in items && f in items && e.key == f.key ==> e == f
  }

  ghost function ToMap(items: set<Entry>): map<Key, Val>
    requires UniqueKeys(items)
  {
    map e | e in items :: e.key := e.val
  }

  /** Every key of the chain hashes to bucket i of a table of 2^exp buckets, and none
      occurs twice. */
  ghost predicate ChainOk(hash: Key -> nat, exp: nat, i: nat, c: Chain) {
    c.Cons? ==>
      && Index(hash(c.head.key), exp) == i
      && Absent(Entries(c.next), c.head.key)
      && ChainOk(hash, exp, i, c.next)
  }

  /** h & sizemask. */
  function Index(h: nat, exp: nat): (i: nat)
    ensures i < P(exp)
  {
    Low(h, exp)
  }

  lemma {:induction false} ChainFacts(hash: Key -> nat, exp: nat, i: nat, c: Chain)
    requires ChainOk(hash, exp, i, c)
    ensures |Entries(c)| == Len(c)
    ensures UniqueKeys(Entries(c))
    ensures forall e :: e in Entries(c) ==> Index(hash(e.key), exp) == i
  {
    if c.Cons? {
      ChainFacts(hash, exp, i, c.next);
    }
  }

  // ---- tables ----

  /** A table of 2^exp buckets (sizemask 2^exp - 1), or one that was never allocated. */
  datatype Table =
    | NullTable
    | Table(exp: nat, buckets: seq<Chain>, used: nat)
  {
    function Used(): nat { if Table? then used else 0 }

    function Size(): nat { if Table? then P(exp) else 0 }
  }

  ghost function BucketItems(b: seq<Chain>): set<Entry> {
    set i, e | 0 <= i < |b| && e in Entries(b[i]) :: e
  }

  ghost function Items(t: Table): set<Entry> {
    if t.NullTable? then {} else BucketItems(t.buckets)
  }

  ghost predicate BucketsOk(hash: Key -> nat, exp: nat, b: seq<Chain>) {
    && |b| == P(exp)
    && forall i :: 0 <= i < |b| ==> ChainOk(hash, exp, i, b[i])
  }

  /** Every entry sits in bucket `hash & sizemask`, no chain holds a key twice and
      `used` counts the entries. */
  ghost predicate TableOk(hash: Key -> nat, t: Table) {
    t.Table? ==> BucketsOk(hash, t.exp, t.buckets) && t.used == |BucketItems(t.buckets)|
  }

  /** An entry is found in the chain of its own key, and nowhere else. */
  lemma InOwnChain(hash: Key -> nat, exp: nat, b: seq<Chain>, e: Entry)
    requires BucketsOk(hash, exp, b)
    ensures e in BucketItems(b) <==> e in Entries(b[Index(hash(e.key), exp)])
    ensures forall a :: 0 <= a < |b| && e in Entries(b[a]) ==> a == Index(hash(e.key), exp)
  {
    forall a | 0 <= a < |b| && e in Entries(b[a])
      ensures a == Index(hash(e.key), exp)
    {
      ChainFacts(hash, exp, a, b[a]);
    }
  }

  lemma TableKeysUnique(hash: Key -> nat, t: Table)
    requires TableOk(hash, t)
    ensures UniqueKeys(Items(t))
  {
    forall e, f | e in Items(t) && f in Items(t) && e.key == f.key
      ensures e == f
    {
      InOwnChain(hash, t.exp, t.buckets, e);
      InOwnChain(hash, t.exp, t.buckets, f);
      var i := Index(hash(e.key), t.exp);
      ChainFacts(hash, t.exp, i, t.buckets[i]);
    }
  }

  lemma TableShape(hash: Key -> nat, t: Table)
    requires TableOk(hash, t) && t.Table?
    ensures |t.buckets| == P(t.exp)
    ensures forall i :: 0 <= i < |t.buckets| ==> ChainOk(hash, t.exp, i, t.buckets[i])
  {
  }

  lemma NilOk(hash: Key -> nat, exp: nat, i: nat)
    ensures ChainOk(hash, exp, i, Nil)
  {
  }

  lemma SetBucketItems(hash: Key -> nat, exp: nat, b: seq<Chain>, i: nat, c: Chain)
    requires BucketsOk(hash, exp, b) && i < |b| && ChainOk(hash, exp, i, c)
    ensures BucketItems(b[i := c]) == BucketItems(b) - Entries(b[i]) + Entries(c)
    ensures Entries(b[i]) <= BucketItems(b)
    ensures (BucketItems(b) - Entries(b[i])) !! Entries(c)
  {
    var u := b[i := c];
    assert BucketsOk(hash, exp, u);
    forall e
      ensures e in BucketItems(u) <==> e in BucketItems(b) - Entries(b[i]) + Entries(c)
      ensures e in Entries(c) ==> e !in BucketItems(b) - Entries(b[i])
    {
      InOwnChain(hash, exp, b, e);
      InOwnChain(hash, exp, u, e);
      assert u[i] == c;
    }
  }

  /** Replacing the chain of bucket i exchanges its entries for those of the new chain. */
  lemma SetBucket(hash: Key -> nat, exp: nat, b: seq<Chain>, i: nat, c: Chain)
    requires BucketsOk(hash, exp, b) && i < |b| && ChainOk(hash, exp, i, c)
    ensures BucketsOk(hash, exp, b[i := c])
    ensures BucketItems(b[i := c]) == BucketItems(b) - Entries(b[i]) + Entries(c)
    ensures |BucketItems(b[i := c])| == |BucketItems(b)| - Len(b[i]) + Len(c)
    ensures Entries(b[i]) <= BucketItems(b)
  {
    ChainFacts(hash, exp, i, b[i]);
    ChainFacts(hash, exp, i, c);
    SetBucketItems(hash, exp, b, i, c);
    ExchangeSize(BucketItems(b), Entries(b[i]), Entries(c));
  }

  lemma ExchangeSize<T>(s: set<T>, d: set<T>, c: set<T>)
    requires d <= s && (s - d) !! c
    ensures |s - d + c| == |s| - |d| + |c|
  {
    assert s == (s - d) + d;
  }

  /** Link `e` in front of bucket i. */
  function Push(t: Table, i: nat, e: Entry): Table
    requires t.Table? && i < |t.buckets|
  {
    t.(buckets := t.buckets[i := Cons(e, t.buckets[i])], used := t.used + 1)
  }

  lemma ConsOk(hash: Key -> nat, exp: nat, c: Chain, e: Entry)
    requires ChainOk(hash, exp, Index(hash(e.key), exp), c) && Absent(Entries(c), e.key)
    ensures ChainOk(hash, exp, Index(hash(e.key), exp), Cons(e, c))
  {
  }

  lemma BucketSubset(b: seq<Chain>, i: nat)
    requires i < |b|
    ensures Entries(b[i]) <= BucketItems(b)
  {
  }

  lemma PushItems(hash: Key -> nat, t: Table, e: Entry)
    requires TableOk(hash, t) && t.Table?
    requires Absent(Items(t), e.key)
    ensures var i := Index(hash(e.key), t.exp);
      && i < |t.buckets|
      && Items(Push(t, i, e)) == Items(t) + {e}
      && TableOk(hash, Push(t, i, e))
  {
    hide P, BucketItems, ChainOk, Index;
    var i := Index(hash(e.key), t.exp);
    var d := t.buckets[i];
    BucketSubset(t.buckets, i);
    ConsOk(hash, t.exp, d, e);
    SetBucket(hash, t.exp, t.buckets, i, Cons(e, d));
    AddToPart(Items(t), Entries(d), e);
  }

  lemma AddToPart<T>(s: set<T>, d: set<T>, e: T)
    requires d <= s
    ensures s - d + ({e} + d) == s + {e}
  {
  }

  /** A freshly allocated table of 2^exp NULL buckets. */
  function Empty(exp: nat): Table {
    Table(exp, seq(P(exp), _ => Nil), 0)
  }

  // ---- moving a chain to another table ----

  /** Link the entries of chain c, first to last, in front of their buckets of t. */
  function MoveChain(hash: Key -> nat, t: Table, c: Chain): Table
    requires t.Table? && |t.buckets| == P(t.exp)
    decreases c
  {
    if c.Nil? then t
    else MoveChain(hash, Push(t, Index(hash(c.head.key), t.exp), c.head), c.next)
  }

  lemma {:induction false} MoveChainItems(hash: Key -> nat, t: Table, c: Chain, exp: nat, i: nat)
    requires TableOk(hash, t) && t.Table? && ChainOk(hash, exp, i, c)
    requires forall e :: e in Entries(c) ==> Absent(Items(t), e.key)
    ensures var u := MoveChain(hash, t, c);
      && u.Table? && u.exp == t.exp && TableOk(hash, u)
      && Items(u) == Items(t) + Entries(c)
    decreases c
  {
    hide P, TableOk, Items, Index, Absent, ChainOk;
    TableShape(hash, t);
    if c.Cons? {
      ChainTail(hash, exp, i, c);
      PushItems(hash, t, c.head);
      var u := Push(t, Index(hash(c.head.key), t.exp), c.head);
      AbsentPlus(Items(t), c.head, Entries(c.next));
      MoveChainItems(hash, u, c.next, exp, i);
    }
  }

  lemma ChainTail(hash: Key -> nat, exp: nat, i: nat, c: Chain)
    requires ChainOk(hash, exp, i, c) && c.Cons?
    ensures Absent(Entries(c.next), c.head.key) && ChainOk(hash, exp, i, c.next)
  {
  }

  lemma AbsentPlus(items: set<Entry>, h: Entry, rest: set<Entry>)
    requires Absent(rest, h.key) && forall e :: e in rest ==> Absent(items, e.key)
    ensures forall e :: e in rest ==> Absent(items + {h}, e.key)
  {
  }

  lemma EmptyOk(hash: Key -> nat, exp: nat)
    ensures TableOk(hash, Empty(exp)) && Items(Empty(exp)) == {}
  {
  }

  // ---- chains as lists of keys ----

  function ChainGet(c: Chain, k: Key): Option<Val> {
    if c.Nil? then None
    else if c.head.key == k then Some(c.head.val)
    else ChainGet(c.next, k)
  }

  function ChainRemove(c: Chain, k: Key): Chain {
    if c.Nil? then Nil
    else if c.head.key == k then c.next
    else Cons(c.head, ChainRemove(c.next, k))
  }

  function ChainUpdate(c: Chain, k: Key, v: Val): Chain {
    if c.Nil? then Nil
    else if c.head.key == k then Cons(Entry(k, v), c.next)
    else Cons(c.head, ChainUpdate(c.next, k, v))
  }

  lemma {:induction false} ChainGetIs(c: Chain, k: Key)
    ensures ChainGet(c, k).None? <==> Absent(Entries(c), k)
    ensures ChainGet(c, k).Some? ==> Entry(k, ChainGet(c, k).value) in Entries(c)
  {
    if c.Cons? && c.head.key != k {
      ChainGetIs(c.next, k);
    }
  }

  lemma {:induction false} ChainRemoveIs(hash: Key -> nat, exp: nat, i: nat, c: Chain, k: Key)
    requires ChainOk(hash, exp, i, c) && ChainGet(c, k).Some?
    ensures ChainOk(hash, exp, i, ChainRemove(c, k))
    ensures Entries(ChainRemove(c, k)) == Entries(c) - {Entry(k, ChainGet(c, k).value)}
    ensures Len(ChainRemove(c, k)) == Len(c) - 1
  {
    if c.head.key != k {
      ChainRemoveIs(hash, exp, i, c.next, k);
    }
  }

  lemma {:induction false} ChainUpdateIs(hash: Key -> nat, exp: nat, i: nat, c: Chain, k: Key, v: Val)
    requires ChainOk(hash, exp, i, c) && ChainGet(c, k).Some?
    ensures ChainOk(hash, exp, i, ChainUpdate(c, k, v))
    ensures Entries(ChainUpdate(c, k, v)) == Entries(c) - {Entry(k, ChainGet(c, k).value)} + {Entry(k, v)}
    ensures Len(ChainUpdate(c, k, v)) == Len(c)
  {
    ChainGetIs(c.next, c.head.key);
    if c.head.key != k {
      ChainUpdateIs(hash, exp, i, c.next, k, v);
    }
  }

  // ---- tables as maps ----

  function TableGet(hash: Key -> nat, t: Table, k: Key): Option<Val>
    requires t.Table? ==> |t.buckets| == P(t.exp)
  {
    if t.NullTable? then None else ChainGet(t.buckets[Index(hash(k), t.exp)], k)
  }

  lemma TableGetIs(hash: Key -> nat, t: Table, k: Key)
    requires TableOk(hash, t)
    ensures TableGet(hash, t, k).None? <==> Absent(Items(t), k)
    ensures TableGet(hash, t, k).Some? ==> Entry(k, TableGet(hash, t, k).value) in Items(t)
  {
    if t.Table? {
      var c := t.buckets[Index(hash(k), t.exp)];
      ChainGetIs(c, k);
      assert Entries(c) <= Items(t);
      forall e | e in Items(t) && e.key == k
        ensures e in Entries(c)
      {
        InOwnChain(hash, t.exp, t.buckets, e);
      }
    }
  }

  /** t with the chain of k replaced by c, its count following. */
  function WithChain(hash: Key -> nat, t: Table, k: Key, c: Chain, used: nat): Table
    requires t.Table? && |t.buckets| == P(t.exp)
  {
    t.(buckets := t.buckets[Index(hash(k), t.exp) := c], used := used)
  }

  /** t without the entry of k. */
  function Removed(hash: Key -> nat, t: Table, k: Key): Table
    requires t.Table? && |t.buckets| == P(t.exp) && t.used > 0
  {
    WithChain(hash, t, k, ChainRemove(t.buckets[Index(hash(k), t.exp)], k), t.used - 1)
  }

  /** t with the value of k set to v. */
  function Updated(hash: Key -> nat, t: Table, k: Key, v: Val): Table
    requires t.Table? && |t.buckets| == P(t.exp)
  {
    WithChain(hash, t, k, ChainUpdate(t.buckets[Index(hash(k), t.exp)], k, v), t.used)
  }

  lemma TableRemove(hash: Key -> nat, t: Table, k: Key)
    requires TableOk(hash, t) && TableGet(hash, t, k).Some?
    ensures t.used > 0
    ensures var u := Removed(hash, t, k);
      TableOk(hash, u) && Items(u) == Items(t) - {Entry(k, TableGet(hash, t, k).value)}
  {
    hide BucketItems, ChainOk, Index;
    var i := Index(hash(k), t.exp);
    var c := t.buckets[i];
    var gone := {Entry(k, ChainGet(c, k).value)};
    ChainRemoveIs(hash, t.exp, i, c, k);
    ChainGetIs(c, k);
    SetBucket(hash, t.exp, t.buckets, i, ChainRemove(c, k));
    assert Items(t) - Entries(c) + (Entries(c) - gone) == Items(t) - gone;
  }

  lemma TableUpdate(hash: Key -> nat, t: Table, k: Key, v: Val)
    requires TableOk(hash, t) && TableGet(hash, t, k).Some?
    ensures var u := Updated(hash, t, k, v);
      TableOk(hash, u) && Items(u) == Items(t) - {Entry(k, TableGet(hash, t, k).value)} + {Entry(k, v)}
  {
    hide BucketItems, ChainOk, Index;
    var i := Index(hash(k), t.exp);
    var c := t.buckets[i];
    var gone := {Entry(k, ChainGet(c, k).value)};
    ChainUpdateIs(hash, t.exp, i, c, k, v);
    ChainGetIs(c, k);
    SetBucket(hash, t.exp, t.buckets, i, ChainUpdate(c, k, v));
    assert Items(t) - Entries(c) + (Entries(c) - gone + {Entry(k, v)}) == Items(t) - gone + {Entry(k, v)};
  }
}
