/** One database and its secondary indexes: the expire times and, in cluster mode, the sorted
    index from hash slots to keys. Every operation keeps both in agreement with the keys. */
module Keyspace {
  import opened Wrappers

  /** Keys are byte strings compared byte by byte; only their order matters. */
  type Key = nat
  type Value(==)

  /** An element of the slot index, which is ordered by slot and then by key. */
  datatype Entry = Entry(slot: nat, key: Key)

  predicate Less(a: Entry, b: Entry) { a.slot < b.slot || (a.slot == b.slot && a.key < b.key) }

  predicate Sorted(s: seq<Entry>) { forall i, j :: 0 <= i < j < |s| ==> Less(s[i], s[j]) }

  /** How many elements come before e. */
  function Rank(s: seq<Entry>, e: Entry): (r: nat)
    ensures r <= |s| && (forall i :: 0 <= i < r ==> Less(s[i], e)) && (r < |s| ==> !Less(s[r], e))
  {
    if s == [] || !Less(s[0], e) then 0 else 1 + Rank(s[1..], e)
  }

  function Inserted(s: seq<Entry>, e: Entry): seq<Entry> { s[..Rank(s, e)] + [e] + s[Rank(s, e)..] }

  function Deleted(s: seq<Entry>, e: Entry): seq<Entry> {
    var r := Rank(s, e);
    if r < |s| && s[r] == e then s[..r] + s[r + 1..] else s
  }

  /** The position of the first element with at least this slot. */
  function From(s: seq<Entry>, slot: nat): nat { Rank(s, Entry(slot, 0)) }

  function Members(s: seq<Entry>): set<Entry> { set e | e in s }

  lemma InsertSorted(s: seq<Entry>, e: Entry)
    requires Sorted(s) && e !in s
    ensures Sorted(Inserted(s, e))
  {
    hide Less, Rank;
    var r := Rank(s, e);
    RankParts(s, e);
    if r < |s| {
      assert s[r] in s;
      Trichotomy(s[r], e);
    }
    PutSorted(s, r, e);
  }

  lemma RankParts(s: seq<Entry>, e: Entry)
    ensures var r := Rank(s, e); r <= |s| && (forall i :: 0 <= i < r ==> Less(s[i], e)) && (r < |s| ==> !Less(s[r], e))
  {
    hide Less;
  }

  lemma Trichotomy(a: Entry, b: Entry)
    ensures Less(a, b) || a == b || Less(b, a)
  {
  }

  lemma Transitive(a: Entry, b: Entry, c: Entry)
    ensures Less(a, b) && Less(b, c) ==> Less(a, c)
  {
  }

  lemma PutSorted(s: seq<Entry>, r: nat, e: Entry)
    requires Sorted(s) && r <= |s| && (forall i :: 0 <= i < r ==> Less(s[i], e)) && (r < |s| ==> Less(e, s[r]))
    ensures Sorted(s[..r] + [e] + s[r..])
  {
    hide Less;
    var t := s[..r] + [e] + s[r..];
    forall i, j | 0 <= i < j < |t|
      ensures Less(t[i], t[j])
    {
      var a, b := if i < r then i else i - 1, if j < r then j else j - 1;
      assert i != r ==> t[i] == s[a];
      assert j != r ==> t[j] == s[b];
      if i == r && b > r {
        Transitive(e, s[r], s[b]);
      }
    }
  }

  lemma InsertMembers(s: seq<Entry>, e: Entry)
    ensures Members(Inserted(s, e)) == Members(s) + {e}
  {
    hide Less;
    var r, t := Rank(s, e), Inserted(s, e);
    assert s == s[..r] + s[r..];
    forall x
      ensures x in t <==> x in s || x == e
    {
      assert x in s <==> x in s[..r] || x in s[r..];
      assert x in t <==> x in s[..r] || x in [e] || x in s[r..];
    }
  }

  lemma RankOf(s: seq<Entry>, i: nat)
    requires Sorted(s) && i < |s|
    ensures Rank(s, s[i]) == i
  {
    RankParts(s, s[i]);
    assert forall k :: 0 <= k < i ==> Less(s[k], s[i]);
  }

  lemma DeleteSorted(s: seq<Entry>, e: Entry)
    requires Sorted(s)
    ensures Sorted(Deleted(s, e)) && Members(Deleted(s, e)) == Members(s) - {e}
  {
    hide Less, Rank;
    RankParts(s, e);
    var r, t := Rank(s, e), Deleted(s, e);
    if i :| 0 <= i < |s| && s[i] == e {
      RankOf(s, i);
      assert forall k :: 0 <= k < |t| ==> t[k] == s[if k < r then k else k + 1];
      NotTwice(s, r);
      forall x
        ensures x in t <==> x in s && x != e
      {
        assert s == s[..r] + [e] + s[r + 1..];
        assert x in s <==> x in s[..r] || x in [e] || x in s[r + 1..];
        assert x in t <==> x in s[..r] || x in s[r + 1..];
      }
    } else {
      assert t == s;
    }
  }

  lemma NotTwice(s: seq<Entry>, r: nat)
    requires Sorted(s) && r < |s|
    ensures s[r] !in s[..r] && s[r] !in s[r + 1..]
  {
  }

  // ---- the database ----

  /** The index lists every key once, under its slot. */
  ghost predicate Indexed(slotOf: Key -> nat, keys: set<Key>, index: seq<Entry>) {
    Sorted(index) && forall e :: e in Members(index) <==> e.key in keys && e.slot == slotOf(e.key)
  }

  /** The keys of a slot. */
  function InSlot(slotOf: Key -> nat, keys: set<Key>, slot: nat): set<Key> { set k | k in keys && slotOf(k) == slot }

  lemma IndexAdd(slotOf: Key -> nat, keys: set<Key>, index: seq<Entry>, k: Key)
    requires Indexed(slotOf, keys, index) && k !in keys
    ensures Indexed(slotOf, keys + {k}, Inserted(index, Entry(slotOf(k), k)))
  {
    hide Sorted, Inserted;
    var e := Entry(slotOf(k), k);
    assert e !in Members(index);
    InsertSorted(index, e);
    InsertMembers(index, e);
  }

  lemma IndexDelete(slotOf: Key -> nat, keys: set<Key>, index: seq<Entry>, k: Key)
    requires Indexed(slotOf, keys, index)
    ensures Indexed(slotOf, keys - {k}, Deleted(index, Entry(slotOf(k), k)))
  {
    hide Sorted, Deleted;
    DeleteSorted(index, Entry(slotOf(k), k));
  }

  datatype RenameReply = NoSuchKey | Unchanged | Renamed

  class Database {
    const slotOf: Key -> nat
    var dict: map<Key, Value>
    var expires: map<Key, int>
    var index: seq<Entry>

    /** No expire time outlives its key, and the index is exactly the keys under their slots. */
    ghost predicate Valid()
      reads this
    {
      expires.Keys <= dict.Keys && Indexed(slotOf, dict.Keys, index)
    }

    constructor (slotOf: Key -> nat)
      ensures Valid() && dict == map[] && this.slotOf == slotOf
    {
      this.slotOf := slotOf;
      dict, expires, index := map[], map[], [];
    }

    /** dbAdd, which asserts that the key is new. */
    method DbAdd(k: Key, v: Value)
      requires Valid() && k !in dict
      modifies this`dict, this`index
      ensures Valid() && dict == old(dict)[k := v]
    {
      hide Indexed, Inserted;
      IndexAdd(slotOf, dict.Keys, index, k);
      dict := dict[k := v];
      index := Inserted(index, Entry(slotOf(k), k));
      assert dict.Keys == old(dict).Keys + {k};
    }

    /** dbOverwrite, which asserts that the key exists; its expire time stays. */
    method DbOverwrite(k: Key, v: Value)
      requires Valid() && k in dict
      modifies this`dict
      ensures Valid() && dict == old(dict)[k := v]
    {
      hide Indexed;
      assert dict.Keys + {k} == dict.Keys;
      dict := dict[k := v];
      assert dict.Keys == old(dict).Keys;
    }

    /** dbDelete: the key leaves all three structures. */
    method DbDelete(k: Key) returns (deleted: bool)
      requires Valid()
      modifies this
      ensures Valid() && deleted == (k in old(dict))
      ensures dict == old(dict) - {k} && expires == old(expires) - {k}
      ensures index == if deleted then Deleted(old(index), Entry(slotOf(k), k)) else old(index)
    {
      hide Indexed, Deleted;
      expires := expires - {k};
      if k !in dict {
        assert dict - {k} == dict;
        return false;
      }
      IndexDelete(slotOf, dict.Keys, index, k);
      dict := dict - {k};
      index := Deleted(index, Entry(slotOf(k), k));
      assert dict.Keys == old(dict).Keys - {k};
      return true;
    }

    /** removeExpire, which asserts that the key exists. */
    method RemoveExpire(k: Key) returns (removed: bool)
      requires Valid() && k in dict
      modifies this`expires
      ensures Valid() && expires == old(expires) - {k} && removed == (k in old(expires))
    {
      hide Indexed;
      removed := k in expires;
      expires := expires - {k};
    }

    /** setExpire, which asserts that the key exists. */
    method SetExpire(k: Key, when: int)
      requires Valid() && k in dict
      modifies this`expires
      ensures Valid() && expires == old(expires)[k := when]
    {
      hide Indexed;
      expires := expires[k := when];
    }

    /** getExpire, whose assertion that an expiring key exists never fails. */
    method GetExpire(k: Key) returns (when: int)
      requires Valid()
      ensures when == if k in expires then expires[k] else -1
    {
      hide Indexed;
      if k !in expires { return -1; }
      assert k in dict;
      return expires[k];
    }

    /** expireIfNeeded: a key past its time is deleted, except while loading or on a replica,
        which waits for its master. */
    method ExpireIfNeeded(k: Key, now: int, loading: bool, replica: bool) returns (expired: bool)
      requires Valid()
      modifies this
      ensures Valid() && expired == (!loading && k in old(expires) && 0 <= old(expires)[k] < now)
      ensures if expired && !replica then dict == old(dict) - {k} && expires == old(expires) - {k}
        else dict == old(dict) && expires == old(expires) && index == old(index)
    {
      hide Indexed, Deleted;
      var when := GetExpire(k);
      if when < 0 { return false; }
      if loading { return false; }
      if replica { return now > when; }
      if now <= when { return false; }
      expired := DbDelete(k);
    }

    /** setKey: the key holds the value and has no expire time. */
    method SetKey(k: Key, v: Value, now: int, loading: bool, replica: bool)
      requires Valid()
      modifies this
      ensures Valid() && dict == old(dict)[k := v] && expires == old(expires) - {k}
    {
      hide Indexed, Deleted;
      var _ := ExpireIfNeeded(k, now, loading, replica);
      if k !in dict {
        DbAdd(k, v);
      } else {
        DbOverwrite(k, v);
      }
      var _ := RemoveExpire(k);
    }

    /** The end of renameGenericCommand, once dst is free. */
    method MoveKey(src: Key, dst: Key, when: int)
      requires Valid() && src in dict && dst !in dict && when == if src in expires then expires[src] else -1
      modifies this
      ensures Valid() && dict == (old(dict) - {src})[dst := old(dict)[src]]
      ensures expires == (if when != -1 then old(expires)[dst := when] else old(expires)) - {src}
    {
      hide Indexed, Deleted;
      DbAdd(dst, dict[src]);
      if when != -1 { SetExpire(dst, when); }
      var _ := DbDelete(src);
    }

    /** RENAME and RENAMENX: value and expire time move together, and what the new name held is
        gone. Keys past their time are as good as absent, unless this is a replica. */
    method Rename(src: Key, dst: Key, nx: bool, now: int, loading: bool, replica: bool) returns (r: RenameReply)
      requires Valid()
      modifies this
      ensures Valid()
      ensures r ==
        if !Live(old(dict), old(expires), src, now, loading, replica) then NoSuchKey
        else if src == dst || (nx && Live(old(dict), old(expires), dst, now, loading, replica)) then Unchanged
        else Renamed
      ensures r == Renamed ==> dict == (old(dict) - {src})[dst := old(dict)[src]]
      ensures r == Renamed ==> expires - {dst} == old(expires) - {src, dst}
      ensures r == Renamed ==> ExpireOf(expires, dst) == ExpireOf(old(expires), src)
      ensures r == NoSuchKey ==> dict == old(dict) - {src} && expires == old(expires) - {src}
      ensures r == Unchanged ==> dict == old(dict) && expires == old(expires)
    {
      hide Indexed, Deleted;
      var _ := ExpireIfNeeded(src, now, loading, replica);
      if src !in dict { return NoSuchKey; }
      if src == dst { return Unchanged; }
      var when := GetExpire(src);
      var _ := ExpireIfNeeded(dst, now, loading, replica);
      if dst in dict {
        if nx { return Unchanged; }
        var _ := DbDelete(dst);
      }
      MoveKey(src, dst, when);
      return Renamed;
    }

    /** The part of emptyDb that concerns one database, with its slot index. */
    method Empty() returns (removed: nat)
      modifies this
      ensures Valid() && dict == map[] && expires == map[] && index == [] && removed == |old(dict)|
    {
      removed := |dict|;
      dict, expires, index := map[], map[], [];
    }

    // ---- the slot index ----

    /** zslFirstInRange for one slot, as a position. */
    function FirstInRange(slot: nat): Option<nat>
      reads this
    {
      var p := From(index, slot);
      if p < |index| && index[p].slot == slot then Some(p) else None
    }

    /** zslLastInRange for one slot, as a position. */
    function LastInRange(slot: nat): Option<nat>
      reads this
    {
      var p := From(index, slot + 1);
      if p > 0 && index[p - 1].slot == slot then Some(p - 1) else None
    }

    /** countKeysInSlot: the ranks of the first and the last element give the number of keys. */
    method CountKeysInSlot(slot: nat) returns (count: int)
      requires Valid()
      ensures count == |InSlot(slotOf, dict.Keys, slot)|
    {
      hide Rank, Less, From;
      SpanOf(slotOf, dict.Keys, index, slot);
      count := 0;
      var first := FirstInRange(slot);
      if first.Some? {
        RankOf(index, first.value);
        var rank := Rank(index, index[first.value]) + 1;
        count := |index| - (rank - 1);
        var last := LastInRange(slot);
        if last.Some? {
          RankOf(index, last.value);
          rank := Rank(index, index[last.value]) + 1;
          count := count - (|index| - rank);
        }
      }
    }

    /** getKeysInSlot: as many keys of the slot as asked for, each once. */
    method GetKeysInSlot(slot: nat, count: nat) returns (keys: seq<Key>)
      requires Valid()
      ensures var all := InSlot(slotOf, dict.Keys, slot); |keys| == if count < |all| then count else |all|
      ensures forall i :: 0 <= i < |keys| ==> keys[i] in InSlot(slotOf, dict.Keys, slot)
      ensures forall i, j :: 0 <= i < j < |keys| ==> keys[i] < keys[j]
    {
      hide Rank, From;
      SpanOf(slotOf, dict.Keys, index, slot);
      var p := From(index, slot);
      keys := [];
      ghost var lo := p;
      while p < |index| && index[p].slot == slot && |keys| < count
        invariant lo <= p <= From(index, slot + 1) && |keys| == p - lo <= count
        invariant forall i :: 0 <= i < |keys| ==> keys[i] == index[lo + i].key
      {
        keys := keys + [index[p].key];
        p := p + 1;
      }
      forall i | 0 <= i < |keys|
        ensures keys[i] in InSlot(slotOf, dict.Keys, slot)
      {
        assert index[lo + i] in Members(index);
      }
      forall i, j | 0 <= i < j < |keys|
        ensures keys[i] < keys[j]
      {
        assert Less(index[lo + i], index[lo + j]);
      }
    }

    /** delKeysInSlot: exactly the keys of the slot go. */
    method DelKeysInSlot(slot: nat) returns (removed: nat)
      requires Valid()
      modifies this
      ensures Valid() && removed == |InSlot(slotOf, old(dict).Keys, slot)|
      ensures dict == old(dict) - InSlot(slotOf, old(dict).Keys, slot)
      ensures expires == old(expires) - InSlot(slotOf, old(dict).Keys, slot)
    {
      hide Rank, Less, From, Deleted, Indexed;
      removed := 0;
      var p := From(index, slot);
      ghost var done: set<Key> := {};
      ghost var all := InSlot(slotOf, dict.Keys, slot);
      SpanOf(slotOf, dict.Keys, index, slot);
      while p < |index| && index[p].slot == slot
        invariant Valid() && p == From(index, slot) <= |index|
        invariant done <= all && removed == |done| && dict == old(dict) - done && expires == old(expires) - done
        decreases |index|
      {
        var k := index[p].key;
        Listed(slotOf, dict.Keys, index, p);
        Unlisted(slotOf, dict.Keys, index, p);
        var _ := DbDelete(k);
        done := done + {k};
        removed := removed + 1;
        SpanOf(slotOf, dict.Keys, index, slot);
      }
      SpanOf(slotOf, dict.Keys, index, slot);
      assert InSlot(slotOf, dict.Keys, slot) == {};
      assert done == all by {
        forall k | k in all
          ensures k in done
        {
          assert k !in done ==> k in InSlot(slotOf, dict.Keys, slot);
        }
      }
    }
  }

  lemma Listed(slotOf: Key -> nat, keys: set<Key>, index: seq<Entry>, p: nat)
    requires Indexed(slotOf, keys, index) && p < |index|
    ensures index[p].key in keys && index[p] == Entry(slotOf(index[p].key), index[p].key)
  {
    assert index[p] in Members(index);
  }

  /** Deleting the first element of a slot brings the next one to its place. */
  lemma Unlisted(slotOf: Key -> nat, keys: set<Key>, index: seq<Entry>, p: nat)
    requires Indexed(slotOf, keys, index) && p < |index| && p == From(index, index[p].slot)
    ensures var t := Deleted(index, index[p]); |t| == |index| - 1 && From(t, index[p].slot) == p
  {
    RankOf(index, p);
    var t := Deleted(index, index[p]);
    assert t == index[..p] + index[p + 1..];
    RankIs(t, Entry(index[p].slot, 0), p);
  }

  lemma {:induction false} RankIs(s: seq<Entry>, e: Entry, r: nat)
    requires r <= |s| && (forall i :: 0 <= i < r ==> Less(s[i], e)) && (r < |s| ==> !Less(s[r], e))
    ensures Rank(s, e) == r
  {
    hide Less;
    if r > 0 {
      RankIs(s[1..], e, r - 1);
    }
  }

  /** The elements of a slot stand together, and there are as many as the slot has keys. */
  lemma SpanOf(slotOf: Key -> nat, keys: set<Key>, index: seq<Entry>, slot: nat)
    requires Indexed(slotOf, keys, index)
    ensures var lo, hi := From(index, slot), From(index, slot + 1);
      && lo <= hi <= |index| && (forall i :: 0 <= i < |index| ==> (index[i].slot == slot <==> lo <= i < hi))
      && hi - lo == |InSlot(slotOf, keys, slot)|
  {
    hide Rank, From, Less, Indexed;
    var lo, hi := From(index, slot), From(index, slot + 1);
    SortedIndex(slotOf, keys, index);
    Spread(index, slot);
    SortedPart(index, lo, hi);
    Distinct(index[lo..hi], slot);
    SlotKeys(slotOf, keys, index, slot, lo, hi);
  }

  lemma SortedIndex(slotOf: Key -> nat, keys: set<Key>, index: seq<Entry>)
    requires Indexed(slotOf, keys, index)
    ensures Sorted(index)
  {
  }

  lemma SortedPart(index: seq<Entry>, lo: nat, hi: nat)
    requires Sorted(index) && lo <= hi <= |index|
    ensures Sorted(index[lo..hi])
  {
    hide Less;
  }

  lemma SlotKeys(slotOf: Key -> nat, keys: set<Key>, index: seq<Entry>, slot: nat, lo: nat, hi: nat)
    requires Indexed(slotOf, keys, index) && lo <= hi <= |index|
    requires forall i :: 0 <= i < |index| ==> (index[i].slot == slot <==> lo <= i < hi)
    ensures InSlot(slotOf, keys, slot) == KeysOf(index[lo..hi])
  {
    hide Sorted;
    forall k
      ensures k in InSlot(slotOf, keys, slot) <==> k in KeysOf(index[lo..hi])
    {
      var e := Entry(slot, k);
      if k in InSlot(slotOf, keys, slot) {
        assert e in Members(index);
        var i :| 0 <= i < |index| && index[i] == e;
        assert e == index[lo..hi][i - lo];
      }
      if k in KeysOf(index[lo..hi]) {
        var x :| x in index[lo..hi] && x.key == k;
        assert x in Members(index);
      }
    }
  }

  lemma Spread(index: seq<Entry>, slot: nat)
    requires Sorted(index)
    ensures var lo, hi := From(index, slot), From(index, slot + 1);
      lo <= hi <= |index| && forall i :: 0 <= i < |index| ==> (index[i].slot == slot <==> lo <= i < hi)
  {
    hide Rank;
    RankParts(index, Entry(slot, 0));
    RankParts(index, Entry(slot + 1, 0));
    var lo, hi := From(index, slot), From(index, slot + 1);
    assert forall i :: lo < i < |index| ==> Less(index[lo], index[i]);
    assert forall i :: hi < i < |index| ==> Less(index[hi], index[i]);
  }

  function KeysOf(s: seq<Entry>): set<Key> { set e | e in s :: e.key }

  lemma {:induction false} Distinct(s: seq<Entry>, slot: nat)
    requires Sorted(s) && forall i :: 0 <= i < |s| ==> s[i].slot == slot
    ensures |KeysOf(s)| == |s|
  {
    if s != [] {
      var n := |s| - 1;
      Distinct(s[..n], slot);
      assert s == s[..n] + [s[n]];
      assert s[n].key !in KeysOf(s[..n]);
      assert KeysOf(s) == KeysOf(s[..n]) + {s[n].key};
    }
  }

  /** How many keys the first n databases hold. */
  ghost function KeyCount(dbs: seq<Database>, n: nat): nat
    requires n <= |dbs|
    reads dbs
  {
    if n == 0 then 0 else KeyCount(dbs, n - 1) + |dbs[n - 1].dict|
  }

  /** emptyDb: every database is emptied, and the result counts what they held. */
  method EmptyDb(dbs: seq<Database>) returns (removed: nat)
    requires forall i, j :: 0 <= i < j < |dbs| ==> dbs[i] != dbs[j]
    modifies dbs
    ensures forall db :: db in dbs ==> db.Valid() && db.dict == map[] && db.expires == map[] && db.index == []
    ensures removed == old(KeyCount(dbs, |dbs|))
  {
    removed := 0;
    for j := 0 to |dbs|
      invariant forall i :: 0 <= i < j ==>
        dbs[i].Valid() && dbs[i].dict == map[] && dbs[i].expires == map[] && dbs[i].index == []
      invariant forall i :: j <= i < |dbs| ==> dbs[i].dict == old(dbs[i].dict)
      invariant removed == old(KeyCount(dbs, j))
    {
      var n := dbs[j].Empty();
      removed := removed + n;
    }
  }

  /** The key exists and is not deleted for being past its time when it is looked at. */
  predicate Live(dict: map<Key, Value>, expires: map<Key, int>, k: Key, now: int, loading: bool, replica: bool) {
    k in dict && !(!loading && !replica && k in expires && 0 <= expires[k] < now)
  }

  /** The expire time a client sees, -1 for none. */
  function ExpireOf(expires: map<Key, int>, k: Key): int { if k in expires then expires[k] else -1 }
}
