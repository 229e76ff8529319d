/** BITOP: combining strings a word at a time where all of them have data, and a byte at a time
    after that, gives the bytewise combination of the strings extended with zeroes. */
module Bitop {
  import opened Memory
  import opened Words
  import opened BitString

  function OnByte(op: Op, a: Byte, b: Byte): Byte {
    ByteResult(op, a, b);
    Apply(op, a, b, 8)
  }

  lemma ByteResult(op: Op, a: nat, b: nat)
    ensures Apply(op, a, b, 8) < 256
  {
    hide Apply, P;
    ApplyBound(op, a, b, 8);
    Pow256Is(1);
    assert Pow256(1) == 256;
  }

  /** Byte j of the combination of the first n strings. */
  function Combined(op: Op, srcs: seq<Bytes>, n: nat, j: nat): Byte
    requires 0 < n <= |srcs|
  {
    if n == 1 then (if op == OpNot then OnByte(op, ByteOr0(srcs[0], j), 0) else ByteOr0(srcs[0], j))
    else OnByte(op, Combined(op, srcs, n - 1, j), ByteOr0(srcs[n - 1], j))
  }

  // ---- words ----

  /** An operation on words works on their bytes one by one. */
  lemma {:induction false} WordOp(op: Op, a: Bytes, b: Bytes, k: nat)
    requires |a| == |b| && k < |a|
    ensures LowBytes(Apply(op, Unsigned(a), Unsigned(b), 8 * |a|), |a|)[k] == OnByte(op, a[k], b[k])
    decreases |a|
  {
    hide Apply, P;
    var n := |a| - 1;
    var x, y := Unsigned(a), Unsigned(b);
    Digit256(a[0], Unsigned(a[1..]));
    Digit256(b[0], Unsigned(b[1..]));
    Apply8(op, x, y, 8 * |a|);
    ByteResult(op, a[0], b[0]);
    Digit256(Apply(op, a[0], b[0], 8), Apply(op, Unsigned(a[1..]), Unsigned(b[1..]), 8 * n));
    assert 8 * |a| - 8 == 8 * n;
    if k > 0 {
      WordOp(op, a[1..], b[1..], k - 1);
    }
  }

  /** Combining one word of the result with one word of a source, in place. */
  method CombineWord(op: Op, res: array<Byte>, src: Bytes, at: nat)
    requires at + 8 <= res.Length && at + 8 <= |src|
    modifies res
    ensures forall j :: 0 <= j < res.Length ==>
      res[j] == if at <= j < at + 8 then OnByte(op, old(res[j]), src[j]) else old(res[j])
  {
    hide Apply, OnByte, LowBytes, Unsigned;
    var a, b := res[at..at + 8], src[at..at + 8];
    var word := Apply(op, Unsigned(a), Unsigned(b), 64);
    var bytes := LowBytes(word, 8);
    forall k | 0 <= k < 8
      ensures bytes[k] == OnByte(op, res[at + k], src[at + k])
    {
      WordOp(op, a, b, k);
    }
    forall k | 0 <= k < 8 {
      res[at + k] := bytes[k];
    }
  }

  /** One source over 32 bytes: four words in a row. */
  method CombineFour(op: Op, res: array<Byte>, src: Bytes, at: nat)
    requires at + 32 <= res.Length && at + 32 <= |src|
    modifies res
    ensures forall j :: 0 <= j < res.Length ==>
      res[j] == if at <= j < at + 32 then OnByte(op, old(res[j]), src[j]) else old(res[j])
  {
    hide OnByte;
    CombineWord(op, res, src, at);
    CombineWord(op, res, src, at + 8);
    CombineWord(op, res, src, at + 16);
    CombineWord(op, res, src, at + 24);
  }

  // ---- the command ----

  /** The lengths of the longest and of the shortest string. */
  method Lengths(srcs: seq<Bytes>) returns (maxlen: nat, minlen: nat)
    requires srcs != []
    ensures forall i :: 0 <= i < |srcs| ==> minlen <= |srcs[i]| <= maxlen
    ensures exists i :: 0 <= i < |srcs| && maxlen == |srcs[i]|
  {
    maxlen, minlen := |srcs[0]|, |srcs[0]|;
    for j := 1 to |srcs|
      invariant forall i :: 0 <= i < j ==> minlen <= |srcs[i]| <= maxlen
      invariant exists i :: 0 <= i < j && maxlen == |srcs[i]|
    {
      if |srcs[j]| > maxlen { maxlen := |srcs[j]|; }
      if |srcs[j]| < minlen { minlen := |srcs[j]|; }
    }
  }

  /** The fast path: 32 bytes of every string at a time. It stops where fewer are left. */
  method FastPath(op: Op, srcs: seq<Bytes>, res: array<Byte>, minlen: nat) returns (j: nat)
    requires srcs != [] && (op == OpNot ==> |srcs| == 1) && minlen <= res.Length
    requires forall i :: 0 <= i < |srcs| ==> minlen <= |srcs[i]|
    requires forall k :: 0 <= k < minlen ==> res[k] == srcs[0][k]
    modifies res
    ensures j <= minlen && forall k :: 0 <= k < j ==> res[k] == Combined(op, srcs, |srcs|, k)
  {
    hide Combined, OnByte;
    j := 0;
    while minlen - j >= 32
      invariant j <= minlen
      invariant forall k :: 0 <= k < j ==> res[k] == Combined(op, srcs, |srcs|, k)
      invariant forall k :: j <= k < minlen ==> res[k] == srcs[0][k]
    {
      if op == OpNot {
        Negated(srcs);
        NotIgnores();
        CombineFour(op, res, srcs[0], j);
      } else {
        First(op, srcs);
        for i := 1 to |srcs|
          invariant forall k :: 0 <= k < j ==> res[k] == Combined(op, srcs, |srcs|, k)
          invariant forall k :: j <= k < j + 32 ==> res[k] == Combined(op, srcs, i, k)
          invariant forall k :: j + 32 <= k < minlen ==> res[k] == srcs[0][k]
        {
          Next(op, srcs, i);
          CombineFour(op, res, srcs[i], j);
        }
      }
      j := j + 32;
    }
  }

  lemma First(op: Op, srcs: seq<Bytes>)
    requires srcs != [] && op != OpNot
    ensures forall k :: 0 <= k < |srcs[0]| ==> Combined(op, srcs, 1, k) == srcs[0][k]
  {
  }

  lemma Negated(srcs: seq<Bytes>)
    requires |srcs| == 1
    ensures forall k :: 0 <= k < |srcs[0]| ==> Combined(OpNot, srcs, 1, k) == OnByte(OpNot, srcs[0][k], 0)
  {
    hide OnByte;
  }

  lemma Next(op: Op, srcs: seq<Bytes>, i: nat)
    requires 0 < i < |srcs|
    ensures forall k :: 0 <= k < |srcs[i]| ==>
      Combined(op, srcs, i + 1, k) == OnByte(op, Combined(op, srcs, i, k), srcs[i][k])
  {
    hide OnByte;
  }

  lemma NotIgnores()
    ensures forall a: Byte, b: Byte :: OnByte(OpNot, a, b) == OnByte(OpNot, a, 0)
  {
    hide Apply;
    forall a: Byte, b: Byte
      ensures OnByte(OpNot, a, b) == OnByte(OpNot, a, 0)
    {
      IgnoresSecond(a, b, 0, 8);
    }
  }

  lemma {:induction false} IgnoresSecond(a: nat, b: nat, c: nat, w: nat)
    ensures Apply(OpNot, a, b, w) == Apply(OpNot, a, c, w)
  {
    if w > 0 {
      IgnoresSecond(a / 2, b / 2, c / 2, w - 1);
    }
  }

  /** The computation of bitopCommand on the strings found, a missing key being an empty one. */
  method ComputeBitop(op: Op, srcs: seq<Bytes>) returns (res: array<Byte>)
    requires srcs != [] && (op == OpNot ==> |srcs| == 1)
    ensures fresh(res) && (exists i :: 0 <= i < |srcs| && res.Length == |srcs[i]|)
    ensures forall i :: 0 <= i < |srcs| ==> |srcs[i]| <= res.Length
    ensures forall k :: 0 <= k < res.Length ==> res[k] == Combined(op, srcs, |srcs|, k)
  {
    hide Combined, OnByte;
    var maxlen, minlen := Lengths(srcs);
    res := new Byte[maxlen](_ => 0);
    var j := 0;
    if minlen >= 32 && |srcs| <= 16 {
      forall k | 0 <= k < minlen {
        res[k] := srcs[0][k];
      }
      j := FastPath(op, srcs, res, minlen);
    }
    while j < maxlen
      invariant j <= maxlen && forall k :: 0 <= k < j ==> res[k] == Combined(op, srcs, |srcs|, k)
    {
      var output := CombineByte(op, srcs, j);
      res[j] := output;
      j := j + 1;
    }
  }

  /** The byte loop. */
  method CombineByte(op: Op, srcs: seq<Bytes>, j: nat) returns (output: Byte)
    requires srcs != [] && (op == OpNot ==> |srcs| == 1)
    ensures output == Combined(op, srcs, |srcs|, j)
  {
    hide OnByte;
    output := if |srcs[0]| <= j then 0 else srcs[0][j];
    if op == OpNot { output := OnByte(op, output, 0); }
    for i := 1 to |srcs|
      invariant output == Combined(op, srcs, i, j)
    {
      var byte: Byte := if |srcs[i]| <= j then 0 else srcs[i][j];
      output := OnByte(op, output, byte);
    }
  }

  /** What Combined means bit by bit: bit i of the result is the operation on bits i of the
      strings, each followed by zeroes. */
  lemma {:induction false} ApplyBits(op: Op, x: nat, y: nat, w: nat, i: nat)
    requires i < w
    ensures Bit(x, i) <= 1 && Bit(y, i) <= 1 && Bit(Apply(op, x, y, w), i) == OnBit(op, Bit(x, i), Bit(y, i))
  {
    hide Apply, OnBit;
    ApplyHalf(op, x, y, w);
    if i > 0 {
      ApplyBits(op, x / 2, y / 2, w - 1, i - 1);
    }
  }

  lemma ApplyHalf(op: Op, x: nat, y: nat, w: nat)
    requires w > 0
    ensures var r := Apply(op, x, y, w); r % 2 == OnBit(op, x % 2, y % 2) && r / 2 == Apply(op, x / 2, y / 2, w - 1)
  {
    Digit2(OnBit(op, x % 2, y % 2), Apply(op, x / 2, y / 2, w - 1));
  }
}
