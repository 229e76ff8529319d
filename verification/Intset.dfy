/** Sorted sets of 64-bit integers packed into bytes. All elements share a width of 2, 4 or 8
    bytes, and a value that needs more widens every element in place. */
module Intset {
  import opened Memory

  // ---- two's complement ----

  /** The values a width holds. */
  predicate Fits(v: int, w: nat) { 0 - Pow256(w) <= 2 * v < Pow256(w) }

  function Encode(v: int, w: nat): (r: Bytes)
    requires Fits(v, w)
    ensures |r| == w
  {
    LowBytes(if v < 0 then v + Pow256(w) else v, w)
  }

  function Signed(b: Bytes): int {
    var u := Unsigned(b);
    if 2 * u < Pow256(|b|) then u else u - Pow256(|b|)
  }

  lemma SignedEncode(v: int, w: nat)
    requires Fits(v, w)
    ensures Signed(Encode(v, w)) == v
  {
    UnsignedLowBytes(if v < 0 then v + Pow256(w) else v, w);
  }

  // ---- elements in a byte string ----

  /** Element i of a row of elements of width w. */
  function At(b: Bytes, w: nat, i: nat): int {
    if i * w + w <= |b| then Signed(b[i * w..i * w + w]) else 0
  }

  function Put(b: Bytes, w: nat, i: nat, v: int): (r: Bytes)
    requires Fits(v, w) && i * w + w <= |b|
    ensures |r| == |b|
  {
    b[..i * w] + Encode(v, w) + b[i * w + w..]
  }

  lemma {:induction false} Apart(i: nat, j: nat, w: nat)
    requires i < j
    ensures i * w + w <= j * w
  {
    assert (j - 1) * w + w == j * w;
    if i + 1 < j {
      Apart(i, j - 1, w);
    }
  }

  lemma AtPut(b: Bytes, w: nat, i: nat, v: int, j: nat)
    requires Fits(v, w) && i * w + w <= |b| && j * w + w <= |b|
    ensures At(Put(b, w, i, v), w, j) == if j == i then v else At(b, w, j)
  {
    hide Signed, Encode, Fits;
    var c := Put(b, w, i, v);
    if j == i {
      assert c[i * w..i * w + w] == Encode(v, w);
      SignedEncode(v, w);
    } else if j < i {
      Apart(j, i, w);
      assert c[j * w..j * w + w] == b[j * w..j * w + w];
    } else {
      Apart(i, j, w);
      assert c[j * w..j * w + w] == b[j * w..j * w + w];
    }
  }

  /** The first n elements. */
  function Values(b: Bytes, w: nat, n: nat): seq<int> { seq(n, i requires 0 <= i < n => At(b, w, i)) }

  // ---- the set ----

  predicate Sorted(s: seq<int>) { forall i, j :: 0 <= i < j < |s| ==> s[i] < s[j] }

  predicate AllFit(s: seq<int>, w: nat) { forall i :: 0 <= i < |s| ==> Fits(s[i], w) }

  function Elements(s: seq<int>): set<int> { set x | x in s }

  /** Where v is, or where it belongs. */
  predicate Position(s: seq<int>, v: int, pos: nat) {
    && pos <= |s|
    && (forall i :: 0 <= i < pos ==> s[i] < v)
    && (forall i :: pos <= i < |s| ==> v <= s[i])
  }

  function Inserted(s: seq<int>, pos: nat, v: int): seq<int>
    requires pos <= |s|
  {
    s[..pos] + [v] + s[pos..]
  }

  lemma InsertSorted(s: seq<int>, pos: nat, v: int)
    requires Sorted(s) && Position(s, v, pos) && v !in s
    ensures Sorted(Inserted(s, pos, v))
  {
    var t := Inserted(s, pos, v);
    forall i, j | 0 <= i < j < |t|
      ensures t[i] < t[j]
    {
      var a, b := if i < pos then i else i - 1, if j < pos then j else j - 1;
      assert i != pos ==> t[i] == s[a];
      assert j != pos ==> t[j] == s[b];
    }
  }

  lemma InsertElements(s: seq<int>, pos: nat, v: int, w: nat)
    requires pos <= |s| && AllFit(s, w) && Fits(v, w)
    ensures var t := Inserted(s, pos, v); AllFit(t, w) && Elements(t) == Elements(s) + {v}
  {
    hide Fits;
    var t := Inserted(s, pos, v);
    assert s == s[..pos] + s[pos..];
    forall x
      ensures x in t <==> x in s || x == v
    {
      assert x in t <==> x in s[..pos] || x in [v] || x in s[pos..];
      assert x in s <==> x in s[..pos] || x in s[pos..];
    }
  }

  lemma RemoveSorted(s: seq<int>, pos: nat)
    requires Sorted(s) && pos < |s|
    ensures Sorted(s[..pos] + s[pos + 1..])
  {
    var t := s[..pos] + s[pos + 1..];
    assert forall i :: 0 <= i < |t| ==> t[i] == s[if i < pos then i else i + 1];
  }

  lemma RemoveElements(s: seq<int>, pos: nat, w: nat)
    requires Sorted(s) && pos < |s| && AllFit(s, w)
    ensures var t := s[..pos] + s[pos + 1..]; AllFit(t, w) && Elements(t) == Elements(s) - {s[pos]}
  {
    hide Fits;
    var t := s[..pos] + s[pos + 1..];
    assert s == s[..pos] + [s[pos]] + s[pos + 1..];
    forall x
      ensures x in t <==> x in s && x != s[pos]
    {
      assert x in t <==> x in s[..pos] || x in s[pos + 1..];
      assert x in s <==> x in s[..pos] || x in [s[pos]] || x in s[pos + 1..];
    }
  }

  const INT16: nat := 2
  const INT32: nat := 4
  const INT64: nat := 8

  predicate Width(w: nat) { w == INT16 || w == INT32 || w == INT64 }

  /** _intsetValueEncoding: the smallest width that holds v. */
  function ValueEncoding(v: int): (r: nat)
    requires Fits(v, INT64)
    ensures Width(r) && Fits(v, r) && forall w: nat :: Width(w) && w < r ==> !Fits(v, w)
  {
    Limits();
    if v < -0x8000_0000 || v > 0x7fff_ffff then INT64
    else if v < -0x8000 || v > 0x7fff then INT32
    else INT16
  }

  lemma Limits()
    ensures Pow256(2) == 0x1_0000 && Pow256(4) == 0x1_0000_0000
  {
    assert Pow256(1) == 256;
    assert Pow256(2) == 256 * Pow256(1);
    assert Pow256(3) == 256 * Pow256(2);
    assert Pow256(4) == 256 * Pow256(3);
  }

  lemma {:induction false} Wider(v: int, w: nat, w': nat)
    requires Fits(v, w) && w <= w'
    ensures Fits(v, w')
  {
    if w < w' {
      Wider(v, w, w' - 1);
    }
  }

  // ---- moving the tail ----

  lemma Product(i: nat, j: nat, w: nat)
    ensures (i + j) * w == i * w + j * w
  {
  }

  lemma Bounded(i: nat, n: nat, w: nat)
    requires i <= n
    ensures i * w <= n * w
  {
    if i < n {
      Apart(i, n, w);
    }
  }

  /** Elements from..n moved to `to`, as memmove does. */
  function MovedTail(b: Bytes, w: nat, from: nat, to: nat, n: nat): (r: Bytes)
    requires from <= n && n * w <= |b| && (to + n - from) * w <= |b|
    ensures |r| == |b|
  {
    Bounded(from, n, w);
    Bounded(to, to + n - from, w);
    Product(to, n - from, w);
    Product(from, n - from, w);
    Spliced(b, from * w, to * w, (n - from) * w)
  }

  function Spliced(b: Bytes, p: nat, q: nat, len: nat): (r: Bytes)
    requires p + len <= |b| && q + len <= |b|
    ensures |r| == |b|
  {
    b[..q] + b[p..p + len] + b[q + len..]
  }

  lemma SplicedAt(b: Bytes, p: nat, q: nat, len: nat, i: nat)
    requires p + len <= |b| && q + len <= |b| && i < |b|
    ensures Spliced(b, p, q, len)[i] == if q <= i < q + len then b[i - q + p] else b[i]
  {
  }

  lemma SplicedSlice(b: Bytes, p: nat, q: nat, len: nat, x: nat, y: nat)
    requires p + len <= |b| && q + len <= |b| && x <= y <= |b|
    ensures y <= q || x >= q + len ==> Spliced(b, p, q, len)[x..y] == b[x..y]
    ensures q <= x && y <= q + len ==> Spliced(b, p, q, len)[x..y] == b[x - q + p..y - q + p]
  {
    hide Spliced;
    var c := Spliced(b, p, q, len);
    if y <= q || x >= q + len {
      var u, v := c[x..y], b[x..y];
      forall k | 0 <= k < |u|
        ensures u[k] == v[k]
      {
        SplicedAt(b, p, q, len, x + k);
      }
    }
    if q <= x && y <= q + len {
      var u, v := c[x..y], b[x - q + p..y - q + p];
      forall k | 0 <= k < |u|
        ensures u[k] == v[k]
      {
        SplicedAt(b, p, q, len, x + k);
        assert v[k] == b[x + k - q + p];
      }
    }
  }

  lemma MovedAt(b: Bytes, w: nat, from: nat, to: nat, n: nat, k: nat)
    requires from <= n && n * w <= |b| && (to + n - from) * w <= |b| && k * w + w <= |b|
    ensures At(MovedTail(b, w, from, to, n), w, k) ==
      if to <= k < to + n - from then At(b, w, k - to + from) else At(b, w, k)
  {
    hide Signed;
    Bounded(from, n, w);
    Product(to, n - from, w);
    Product(from, n - from, w);
    SplicedSlice(b, from * w, to * w, (n - from) * w, k * w, k * w + w);
    if k < to {
      Apart(k, to, w);
    } else if k < to + n - from {
      Bounded(to, k, w);
      Apart(k, to + n - from, w);
      Product(to, k - to, w);
      Product(from, k - to, w);
      Apart(k - to + from, n, w);
    } else {
      Bounded(to + n - from, k, w);
    }
  }

  lemma AtPrefix(b: Bytes, c: Bytes, w: nat, k: nat, m: nat)
    requires m <= |b| && m <= |c| && b[..m] == c[..m] && k * w + w <= m
    ensures At(b, w, k) == At(c, w, k)
  {
    hide Signed;
    assert b[k * w..k * w + w] == b[..m][k * w..k * w + w];
    assert c[k * w..k * w + w] == c[..m][k * w..k * w + w];
  }

  class IntSet {
    var encoding: nat
    var length: nat
    var contents: array<Byte>

    /** The elements in order. */
    ghost function Seq(): seq<int>
      reads this, contents
    {
      Values(contents[..], encoding, length)
    }

    ghost predicate Valid()
      reads this, contents
    {
      Width(encoding) && contents.Length == length * encoding && Sorted(Seq()) && AllFit(Seq(), encoding)
    }

    constructor ()
      ensures Valid() && fresh(contents) && Seq() == [] && encoding == INT16
    {
      encoding, length, contents := INT16, 0, new Byte[0];
    }

    method GetEncoded(pos: nat, enc: nat) returns (v: int)
      requires pos * enc + enc <= contents.Length
      ensures v == At(contents[..], enc, pos)
    {
      assert contents[pos * enc..pos * enc + enc] == contents[..][pos * enc..pos * enc + enc];
      v := Signed(contents[pos * enc..pos * enc + enc]);
    }

    method Get(pos: nat) returns (v: int)
      requires Valid() && pos < length
      ensures v == Seq()[pos]
    {
      Apart(pos, length, encoding);
      v := GetEncoded(pos, encoding);
    }

    method Set(pos: nat, v: int)
      requires Fits(v, encoding) && pos * encoding + encoding <= contents.Length
      modifies contents
      ensures contents[..] == Put(old(contents[..]), encoding, pos, v)
    {
      hide Encode, Fits;
      var e := Encode(v, encoding);
      forall i | 0 <= i < encoding {
        contents[pos * encoding + i] := e[i];
      }
    }

    method Resize(len: nat)
      modifies this`contents
      ensures fresh(contents) && contents.Length == len * encoding
      ensures forall i :: 0 <= i < contents.Length && i < old(contents).Length ==> contents[i] == old(contents[i])
      ensures old(contents.Length) <= contents.Length ==> contents[..old(contents.Length)] == old(contents[..])
      ensures contents.Length <= old(contents.Length) ==> contents[..] == old(contents[..])[..contents.Length]
    {
      var from := contents;
      contents := new Byte[len * encoding](i requires 0 <= i reads from => if i < from.Length then from[i] else 0);
    }

    /** intsetSearch. */
    method Search(value: int) returns (found: bool, pos: nat)
      requires Valid()
      ensures Position(Seq(), value, pos) && (found <==> value in Seq())
      ensures found ==> pos < length && Seq()[pos] == value
    {
      hide At, Fits, Values;
      ValuesLength(contents[..], encoding, length);
      ghost var s := Seq();
      if length == 0 { return false, 0; }
      var last := Get(length - 1);
      var first := Get(0);
      if value > last { return false, length; }
      if value < first { return false, 0; }
      var min, max, mid, cur := 0, length - 1, 0, -1;
      while max >= min
        invariant 0 <= min <= length && -1 <= max < length
        invariant forall i :: 0 <= i < min ==> s[i] < value
        invariant forall i :: max < i < length ==> value < s[i]
        invariant min <= max + 1
        invariant min == max + 1 ==> cur != value
        decreases max - min
      {
        mid := (min + max) / 2;
        cur := Get(mid);
        if value > cur {
          min := mid + 1;
        } else if value < cur {
          max := mid - 1;
        } else {
          break;
        }
      }
      if value == cur { return true, mid; }
      return false, min;
    }

    /** The loop of intsetUpgradeAndAdd: elements are widened from the last to the first, so that
        none is overwritten before it is read. */
    method Widen(curenc: nat, prepend: nat, ghost b: Bytes, ghost s: seq<int>)
      requires curenc < encoding && prepend <= 1 && contents.Length == (length + 1) * encoding
      requires |b| == length * curenc <= contents.Length && contents[..|b|] == b
      requires s == Values(b, curenc, length) && |s| == length && AllFit(s, encoding)
      modifies contents
      ensures forall j :: 0 <= j < length ==> At(contents[..], encoding, j + prepend) == s[j]
    {
      hide At, Fits, Values, Put, Signed;
      var k := length;
      while k > 0
        invariant 0 <= k <= length
        invariant k * curenc <= contents.Length && k * curenc <= |b| && contents[..k * curenc] == b[..k * curenc]
        invariant forall j :: k <= j < length ==> At(contents[..], encoding, j + prepend) == s[j]
      {
        k := k - 1;
        WidenStep(b, contents[..], s, curenc, encoding, length, k, prepend);
        var v := GetEncoded(k, curenc);
        Set(k + prepend, v);
      }
    }

    /** intsetUpgradeAndAdd. */
    method UpgradeAndAdd(value: int)
      requires Valid() && Fits(value, INT64) && ValueEncoding(value) > encoding
      modifies this
      ensures Valid() && fresh(contents) && encoding == ValueEncoding(value)
      ensures Seq() == Inserted(old(Seq()), if value < 0 then 0 else |old(Seq())|, value)
      ensures value !in old(Seq()) && Position(old(Seq()), value, if value < 0 then 0 else |old(Seq())|)
    {
      hide At, Fits, Values, Put, Sorted, Signed;
      ghost var s, b := Seq(), contents[..];
      var curenc, newenc := encoding, ValueEncoding(value);
      var prepend := if value < 0 then 1 else 0;
      OutOfRange(s, value, curenc);
      Upgradable(s, curenc, newenc);
      ValuesLength(contents[..], curenc, length);
      encoding := newenc;
      Larger(length, curenc, newenc);
      Resize(length + 1);
      Widen(curenc, prepend, b, s);
      LastStep(contents[..], s, newenc, length, prepend, value);
      if prepend == 1 {
        Set(0, value);
      } else {
        Set(length, value);
      }
      length := length + 1;
      InsertSorted(s, if value < 0 then 0 else |s|, value);
      InsertElements(s, if value < 0 then 0 else |s|, value, newenc);
    }

    // ---- adding and removing ----

    /** intsetMoveTail. */
    method MoveTail(from: nat, to: nat)
      requires from <= length && length * encoding <= contents.Length
      requires (to + length - from) * encoding <= contents.Length
      modifies contents
      ensures contents[..] == MovedTail(old(contents[..]), encoding, from, to, length)
    {
      var src, dst, bytes := from * encoding, to * encoding, (length - from) * encoding;
      Product(from, length - from, encoding);
      Product(to, length - from, encoding);
      MoveBytes(src, dst, bytes);
    }

    /** memmove inside the contents. */
    method MoveBytes(src: nat, dst: nat, bytes: nat)
      requires src + bytes <= contents.Length && dst + bytes <= contents.Length
      modifies contents
      ensures contents[..] == Spliced(old(contents[..]), src, dst, bytes)
    {
      forall i | 0 <= i < bytes {
        contents[dst + i] := contents[src + i];
      }
    }

    /** intsetAdd: succeeds exactly when the value is new, and widens exactly when it must. */
    method Add(value: int) returns (success: bool)
      requires Valid() && Fits(value, INT64)
      modifies this, contents
      ensures Valid() && (contents == old(contents) || fresh(contents))
      ensures success <==> value !in old(Seq())
      ensures Elements(Seq()) == Elements(old(Seq())) + {value}
      ensures encoding == if ValueEncoding(value) > old(encoding) then ValueEncoding(value) else old(encoding)
    {
      hide At, Fits, Values, Put, Sorted, Signed, MovedTail;
      ghost var s := Seq();
      var valenc := ValueEncoding(value);
      if valenc > encoding {
        Upgradable(s, encoding, valenc);
        UpgradeAndAdd(value);
        InsertElements(s, if value < 0 then 0 else |s|, value, valenc);
        return true;
      }
      Wider(value, valenc, encoding);
      var found, pos := Search(value);
      ValuesLength(contents[..], encoding, length);
      if found { return false; }
      Product(length, 1, encoding);
      ghost var b := contents[..];
      Resize(length + 1);
      Opened(b, contents[..], encoding, length, pos, value);
      if pos < length {
        MoveTail(pos, pos + 1);
      }
      Set(pos, value);
      length := length + 1;
      InsertSorted(s, pos, value);
      InsertElements(s, pos, value, encoding);
      return true;
    }

    /** intsetRemove: succeeds exactly when the value was there; never narrows. */
    method Remove(value: int) returns (success: bool)
      requires Valid() && Fits(value, INT64)
      modifies this, contents
      ensures Valid() && (contents == old(contents) || fresh(contents))
      ensures success <==> value in old(Seq())
      ensures Elements(Seq()) == Elements(old(Seq())) - {value} && encoding == old(encoding)
    {
      hide At, Fits, Values, Put, Sorted, Signed, MovedTail;
      ghost var s, b := Seq(), contents[..];
      var valenc := ValueEncoding(value);
      ValuesLength(contents[..], encoding, length);
      if valenc > encoding {
        OutOfRange(s, value, encoding);
        return false;
      }
      var found, pos := Search(value);
      if !found { return false; }
      Closed(b, encoding, length, pos);
      if pos < length - 1 {
        MoveTail(pos + 1, pos);
      }
      Resize(length - 1);
      length := length - 1;
      RemoveSorted(s, pos);
      RemoveElements(s, pos, encoding);
      return true;
    }

    /** intsetFind. */
    method Find(value: int) returns (found: bool)
      requires Valid() && Fits(value, INT64)
      ensures found <==> value in Seq()
    {
      hide At, Fits, Values, Sorted;
      var valenc := ValueEncoding(value);
      if valenc > encoding {
        OutOfRange(Seq(), value, encoding);
        return false;
      }
      var pos: nat;
      found, pos := Search(value);
    }
  }

  /** Resizing by one element, moving the tail and writing inserts the value. */
  lemma Opened(b: Bytes, r: Bytes, w: nat, n: nat, pos: nat, v: int)
    requires |b| == n * w && |r| == (n + 1) * w && n * w <= |r| && r[..n * w] == b && pos <= n && Fits(v, w)
    ensures pos * w + w <= |r| && (pos + 1 + n - pos) * w <= |r|
    ensures var c := if pos < n then MovedTail(r, w, pos, pos + 1, n) else r;
      Values(Put(c, w, pos, v), w, n + 1) == Inserted(Values(b, w, n), pos, v)
  {
    hide At, Put, Fits, Signed, MovedTail;
    Apart(pos, n + 1, w);
    var c := if pos < n then MovedTail(r, w, pos, pos + 1, n) else r;
    forall j | 0 <= j < n + 1
      ensures At(Put(c, w, pos, v), w, j) == Inserted(Values(b, w, n), pos, v)[j]
    {
      Apart(j, n + 1, w);
      AtPut(c, w, pos, v, j);
      if pos < n {
        MovedAt(r, w, pos, pos + 1, n, j);
      }
      var i := if j < pos || pos == n then j else j - 1;
      if i < n && j != pos {
        Apart(i, n, w);
        AtPrefix(r, b, w, i, n * w);
      }
    }
  }

  /** The bytes once the tail is moved down and the last element dropped. */
  function Cut(b: Bytes, w: nat, n: nat, pos: nat): Bytes
    requires |b| == n * w && pos < n
  {
    Bounded(n - 1, n, w);
    assert pos + n - (pos + 1) == n - 1;
    (if pos < n - 1 then MovedTail(b, w, pos + 1, pos, n) else b)[..(n - 1) * w]
  }

  lemma CutAt(b: Bytes, w: nat, n: nat, pos: nat, j: nat)
    requires |b| == n * w && pos < n && j < n - 1
    ensures At(Cut(b, w, n, pos), w, j) == At(b, w, if j < pos then j else j + 1)
  {
    hide At, Signed, MovedTail;
    Bounded(n - 1, n, w);
    assert pos + n - (pos + 1) == n - 1;
    var c := if pos < n - 1 then MovedTail(b, w, pos + 1, pos, n) else b;
    Apart(j, n - 1, w);
    AtPrefix(c, c[..(n - 1) * w], w, j, (n - 1) * w);
    if pos < n - 1 {
      MovedAt(b, w, pos + 1, pos, n, j);
    }
  }

  ghost predicate Skips(b: Bytes, d: Bytes, w: nat, n: nat, pos: nat) {
    forall j :: 0 <= j < n - 1 ==> At(d, w, j) == At(b, w, if j < pos then j else j + 1)
  }

  lemma CutSkips(b: Bytes, w: nat, n: nat, pos: nat)
    requires |b| == n * w && pos < n
    ensures Skips(b, Cut(b, w, n, pos), w, n, pos)
  {
    hide At, Cut;
    forall j | 0 <= j < n - 1
      ensures At(Cut(b, w, n, pos), w, j) == At(b, w, if j < pos then j else j + 1)
    {
      CutAt(b, w, n, pos, j);
    }
  }

  lemma Skipping(b: Bytes, d: Bytes, w: nat, n: nat, pos: nat)
    requires pos < n && Skips(b, d, w, n, pos)
    ensures var s := Values(b, w, n); |s| == n && Values(d, w, n - 1) == s[..pos] + s[pos + 1..]
  {
    hide At;
  }

  /** Moving the tail down and resizing removes the element. */
  lemma Closed(b: Bytes, w: nat, n: nat, pos: nat)
    requires |b| == n * w && pos < n
    ensures var s := Values(b, w, n); |s| == n && Values(Cut(b, w, n, pos), w, n - 1) == s[..pos] + s[pos + 1..]
  {
    hide At, Values, Skips, Cut;
    CutSkips(b, w, n, pos);
    Skipping(b, Cut(b, w, n, pos), w, n, pos);
  }

  /** A value that needs more room than its neighbours lies outside their range. */
  lemma OutOfRange(s: seq<int>, v: int, w: nat)
    requires AllFit(s, w) && Width(w) && Fits(v, INT64) && ValueEncoding(v) > w
    ensures v !in s && Position(s, v, if v < 0 then 0 else |s|)
  {
  }

  lemma Upgradable(s: seq<int>, w: nat, w': nat)
    requires AllFit(s, w) && w <= w'
    ensures AllFit(s, w')
  {
    forall i | 0 <= i < |s|
      ensures Fits(s[i], w')
    {
      Wider(s[i], w, w');
    }
  }

  lemma Larger(n: nat, w: nat, w': nat)
    requires w <= w'
    ensures n * w <= n * w' <= (n + 1) * w'
  {
    assert n * (w' - w) >= 0;
    Bounded(n, n + 1, w');
  }

  /** Writing element k at its wider place leaves the narrow elements before it alone. */
  lemma WidenStep(b: Bytes, c: Bytes, s: seq<int>, w: nat, w': nat, n: nat, k: nat, prepend: nat)
    requires w < w' && k < n && prepend <= 1 && |b| == n * w && |c| == (n + 1) * w'
    requires s == Values(b, w, n) && AllFit(s, w')
    requires (k + 1) * w <= |c| && (k + 1) * w <= |b| && c[..(k + 1) * w] == b[..(k + 1) * w]
    requires forall j :: k + 1 <= j < n ==> At(c, w', j + prepend) == s[j]
    ensures k * w + w <= |c| && At(c, w, k) == s[k] && (k + prepend) * w' + w' <= |c|
    ensures var d := Put(c, w', k + prepend, s[k]);
      && k * w <= |d| && k * w <= |b| && d[..k * w] == b[..k * w]
      && forall j :: k <= j < n ==> At(d, w', j + prepend) == s[j]
  {
    hide At, Put, Signed, Fits;
    Product(k, 1, w);
    AtPrefix(b, c, w, k, (k + 1) * w);
    AtValues(b, w, n, k);
    Apart(k + prepend, n + 1, w');
    Larger(k, w, w');
    Bounded(k, k + prepend, w');
    PutKeeps(c, w', k + prepend, s[k], k * w);
    assert c[..k * w] == c[..(k + 1) * w][..k * w] == b[..(k + 1) * w][..k * w] == b[..k * w];
    forall j | k <= j < n
      ensures At(Put(c, w', k + prepend, s[k]), w', j + prepend) == s[j]
    {
      Apart(j + prepend, n + 1, w');
      AtPut(c, w', k + prepend, s[k], j + prepend);
    }
  }

  lemma AtValues(b: Bytes, w: nat, n: nat, k: nat)
    requires k < n
    ensures Values(b, w, n)[k] == At(b, w, k)
  {
  }

  lemma PutKeeps(b: Bytes, w: nat, i: nat, v: int, m: nat)
    requires Fits(v, w) && i * w + w <= |b| && m <= i * w
    ensures Put(b, w, i, v)[..m] == b[..m]
  {
  }

  /** Once all elements are widened, the new one goes into the place left free. */
  lemma LastStep(c: Bytes, s: seq<int>, w: nat, n: nat, prepend: nat, v: int)
    requires |s| == n && |c| == (n + 1) * w && prepend <= 1 && Fits(v, w)
    requires forall j :: 0 <= j < n ==> At(c, w, j + prepend) == s[j]
    ensures 0 * w + w <= |c| && n * w + w <= |c|
    ensures var pos := if prepend == 1 then 0 else n;
      Values(Put(c, w, pos, v), w, n + 1) == Inserted(s, if prepend == 1 then 0 else |s|, v)
  {
    hide At, Put, Fits;
    Product(n, 1, w);
    Bounded(1, n + 1, w);
    var pos := if prepend == 1 then 0 else n;
    var d := Put(c, w, pos, v);
    forall j | 0 <= j < n + 1
      ensures At(d, w, j) == Inserted(s, pos, v)[j]
    {
      Apart(j, n + 1, w);
      AtPut(c, w, pos, v, j);
      if j != pos {
        assert At(c, w, j - prepend + prepend) == s[j - prepend];
      }
    }
  }

  lemma ValuesLength(b: Bytes, w: nat, n: nat)
    ensures |Values(b, w, n)| == n
  {
  }
}
