/** The loop that reverses a 64-bit cursor by swapping ever smaller neighbouring blocks of bits. */
module ReverseLoop {
  import opened Words

  const W: nat := 64

  // ---- shifts ----

  function Shr(x: nat, s: nat): nat { if s == 0 then x else Shr(x / 2, s - 1) }

  /** x << s in w bits. */
  function Shl(x: nat, s: nat, w: nat): nat {
    if w == 0 then 0 else if s == 0 then Low(x, w) else 2 * Shl(x, s - 1, w - 1)
  }

  lemma {:induction false} ShrBit(x: nat, s: nat, i: nat)
    ensures Bit(Shr(x, s), i) == Bit(x, i + s)
  {
    if s > 0 {
      ShrBit(x / 2, s - 1, i);
    }
  }

  lemma {:induction false} LowBit(x: nat, w: nat, i: nat)
    requires i < w
    ensures Bit(Low(x, w), i) == Bit(x, i)
  {
    hide Low;
    LowStep(x, w);
    if i > 0 {
      LowBit(x / 2, w - 1, i - 1);
    }
  }

  lemma {:induction false} ShlBit(x: nat, s: nat, w: nat, i: nat)
    requires i < w
    ensures Bit(Shl(x, s, w), i) == if i < s then 0 else Bit(x, i - s)
  {
    if s == 0 {
      LowBit(x, w, i);
    } else {
      Digit2(0, Shl(x, s - 1, w - 1));
      if i > 0 {
        ShlBit(x, s - 1, w - 1, i - 1);
      }
    }
  }

  // ---- bits of the operations ----

  lemma {:induction false} AndBit(x: nat, y: nat, w: nat, i: nat)
    requires i < w
    ensures Bit(And(x, y, w), i) == if Bit(x, i) == 1 && Bit(y, i) == 1 then 1 else 0
  {
    hide And;
    AndStep(x, y, w);
    if i > 0 {
      AndBit(x / 2, y / 2, w - 1, i - 1);
    }
  }

  lemma {:induction false} OrBit(x: nat, y: nat, w: nat, i: nat)
    requires i < w
    ensures Bit(Or(x, y, w), i) == if Bit(x, i) == 1 || Bit(y, i) == 1 then 1 else 0
  {
    hide Or;
    OrStep(x, y, w);
    if i > 0 {
      OrBit(x / 2, y / 2, w - 1, i - 1);
    }
  }

  lemma {:induction false} XorBit(x: nat, y: nat, w: nat, i: nat)
    requires i < w
    ensures Bit(Xor(x, y, w), i) == if Bit(x, i) != Bit(y, i) then 1 else 0
  {
    hide Xor;
    XorStep(x, y, w);
    if i > 0 {
      XorBit(x / 2, y / 2, w - 1, i - 1);
    }
  }

  lemma {:induction false} NotBit(x: nat, w: nat, i: nat)
    requires i < w
    ensures Bit(Not(x, w), i) == 1 - Bit(x, i)
  {
    hide Not;
    NotStep(x, w);
    if i > 0 {
      NotBit(x / 2, w - 1, i - 1);
    }
  }

  /** A number is determined by its bits. */
  lemma {:induction false} SameBits(x: nat, y: nat, w: nat)
    requires x < P(w) && y < P(w) && forall i :: 0 <= i < w ==> Bit(x, i) == Bit(y, i)
    ensures x == y
  {
    if w > 0 {
      hide P;
      PDouble(w);
      Halve(x, P(w - 1));
      Halve(y, P(w - 1));
      assert Bit(x, 0) == Bit(y, 0);
      forall i | 0 <= i < w - 1
        ensures Bit(x / 2, i) == Bit(y / 2, i)
      {
        assert Bit(x, i + 1) == Bit(y, i + 1);
      }
      SameBits(x / 2, y / 2, w - 1);
    }
  }

  // ---- blocks ----

  /** Place r of block q, in blocks of size s and in blocks of twice the size. */
  lemma Place(q: nat, r: nat, s: nat)
    requires r < s
    ensures (q * s + r) / s == q && (q * s + r) % s == r
    ensures (q * s + r) / (2 * s) == q / 2 && (q * s + r) % (2 * s) == q % 2 * s + r
  {
    Divide(q, r, s);
    assert q == 2 * (q / 2) + q % 2;
    assert q * s == (q / 2) * (2 * s) + q % 2 * s by { Regroup(q / 2, q % 2, s); }
    assert q % 2 * s + r < 2 * s by { assert q % 2 == 0 || q % 2 == 1; }
    Divide(q / 2, q % 2 * s + r, 2 * s);
  }

  lemma Regroup(a: nat, b: nat, s: nat)
    ensures (2 * a + b) * s == a * (2 * s) + b * s
  {
  }

  lemma Divide(q: nat, r: nat, s: nat)
    requires r < s
    ensures (q * s + r) / s == q && (q * s + r) % s == r
  {
    var x := q * s + r;
    assert x == x / s * s + x % s;
    Unique(q, r, x / s, x % s, s);
    Unique(x / s, x % s, q, r, s);
  }

  lemma Unique(q: nat, r: nat, p: nat, t: nat, s: nat)
    requires r < s && t < s && q * s + r == p * s + t
    ensures q >= p && (q == p ==> r == t)
  {
    Larger(q + 1, p, s);
    assert (q + 1) * s == q * s + s;
  }

  lemma Larger(a: nat, b: nat, s: nat)
    ensures a <= b ==> a * s <= b * s
  {
    assert b * s == a * s + (b - a) * s;
  }

  /** Whether bit i lies in the lower block of its pair of blocks of size s. */
  predicate Lower(i: nat, s: nat)
    requires s > 0
  {
    i / s % 2 == 0
  }

  lemma LowerHalf(i: nat, s: nat)
    requires s > 0
    ensures Lower(i, s) <==> (Lower(i, 2 * s) != (i >= s && Lower(i - s, 2 * s)))
  {
    hide Lower;
    var q, r := i / s, i % s;
    assert i == q * s + r;
    LowerBlock(q, r, s);
    Parity(q);
    Earlier(q, r, s);
    if q > 0 {
      LowerBlock(q - 1, r, s);
    }
  }

  lemma LowerBlock(q: nat, r: nat, s: nat)
    requires r < s
    ensures Lower(q * s + r, s) == (q % 2 == 0) && Lower(q * s + r, 2 * s) == (q / 2 % 2 == 0)
  {
    Place(q, r, s);
  }

  lemma Parity(q: nat)
    ensures q % 2 == 0 <==> ((q / 2 % 2 == 0) != (q > 0 && (q - 1) / 2 % 2 == 0))
  {
    assert q % 2 == 0 ==> q > 0 ==> (q - 1) / 2 == q / 2 - 1;
    assert q % 2 == 1 ==> (q - 1) / 2 == q / 2;
  }

  lemma Earlier(q: nat, r: nat, s: nat)
    requires r < s
    ensures q > 0 <==> q * s + r >= s
    ensures q * s + r - s == (q - 1) * s + r
  {
    Larger(1, q, s);
  }

  /** The bit that a stage brings to place i. */
  function Partner(i: nat, s: nat): int
    requires s > 0
  {
    if Lower(i, s) then i + s else i - s
  }

  /** Where bit i comes from once the n blocks of size s are in reverse order. */
  function Source(i: nat, s: nat, n: nat): int
    requires s > 0
  {
    (n - 1 - i / s) * s + i % s
  }

  lemma SourceIn(i: nat, s: nat, n: nat)
    requires s > 0 && i < n * s
    ensures 0 <= Source(i, s, n) < n * s
  {
    var q, r := i / s, i % s;
    assert i == q * s + r;
    Larger(n, q, s);
    Larger(q + 1, n, s);
    Larger(1, n - q, s);
    assert (n - 1 - q) * s == n * s - q * s - s;
  }

  /** The partner of place r of block q is place r of the other block of the pair. */
  lemma PartnerBlock(q: nat, r: nat, s: nat)
    requires r < s
    ensures Partner(q * s + r, s) == OtherBlock(q) * s + r
  {
    Place(q, r, s);
    assert (q + 1) * s == q * s + s;
    assert (q - 1) * s == q * s - s;
  }

  function OtherBlock(q: nat): (p: nat)
    ensures p / 2 == q / 2 && p % 2 == 1 - q % 2
  {
    if q % 2 == 0 then q + 1 else q - 1
  }

  lemma SourceStep(i: nat, s: nat, m: nat)
    requires s > 0
    ensures 0 <= Partner(i, s) && Source(Partner(i, s), 2 * s, m) == Source(i, s, 2 * m)
  {
    hide Partner;
    var q, r := i / s, i % s;
    assert i == q * s + r;
    PartnerBlock(q, r, s);
    Place(OtherBlock(q), r, s);
    SourceBlocks(q / 2, q % 2, r, s, m);
  }

  lemma SourceBlocks(a: nat, b: nat, r: nat, s: nat, m: nat)
    requires b < 2
    ensures (m - 1 - a) * (2 * s) + ((1 - b) * s + r) == (2 * m - 1 - (2 * a + b)) * s + r
  {
    assert (m - 1 - a) * (2 * s) == (2 * m - 2 - 2 * a) * s;
    assert (2 * m - 2 - 2 * a) * s + (1 - b) * s == (2 * m - 1 - (2 * a + b)) * s;
  }

  // ---- one stage ----

  ghost predicate IsMask(mask: nat, s: nat)
    requires s > 0
  {
    forall i :: 0 <= i < W ==> Bit(mask, i) == if Lower(i, s) then 1 else 0
  }

  /** mask ^= mask << s halves the blocks of the mask. */
  lemma NextMask(mask: nat, s: nat)
    requires s > 0 && IsMask(mask, 2 * s)
    ensures IsMask(Xor(mask, Shl(mask, s, W), W), s)
  {
    hide Bit, Xor, Shl, Lower;
    forall i | 0 <= i < W
      ensures Bit(Xor(mask, Shl(mask, s, W), W), i) == if Lower(i, s) then 1 else 0
    {
      XorBit(mask, Shl(mask, s, W), W, i);
      ShlBit(mask, s, W, i);
      LowerHalf(i, s);
    }
  }

  function Swap(v: nat, mask: nat, s: nat): nat {
    Or(And(Shr(v, s), mask, W), And(Shl(v, s, W), Not(mask, W), W), W)
  }

  lemma SwapBit(v: nat, mask: nat, s: nat, i: nat)
    requires s > 0 && IsMask(mask, s) && i < W && 0 <= Partner(i, s)
    ensures Bit(Swap(v, mask, s), i) == Bit(v, Partner(i, s))
  {
    hide Bit, And, Or, Not, Shl, Shr, Lower;
    OrBit(And(Shr(v, s), mask, W), And(Shl(v, s, W), Not(mask, W), W), W, i);
    AndBit(Shr(v, s), mask, W, i);
    AndBit(Shl(v, s, W), Not(mask, W), W, i);
    NotBit(mask, W, i);
    ShrBit(v, s, i);
    ShlBit(v, s, W, i);
    assert Bit(mask, i) == if Lower(i, s) then 1 else 0;
    BitIsBit(v, Partner(i, s));
  }

  // ---- all stages ----

  ghost predicate Reordered(v: nat, v0: nat, s: nat, n: nat)
    requires s > 0
  {
    forall i :: 0 <= i < W ==> 0 <= Source(i, s, n) && Bit(v, i) == Bit(v0, Source(i, s, n))
  }

  lemma StageReorders(v: nat, v0: nat, mask: nat, s: nat, m: nat)
    requires s > 0 && W == m * (2 * s) && IsMask(mask, s) && Reordered(v, v0, 2 * s, m)
    ensures Reordered(Swap(v, mask, s), v0, s, 2 * m)
  {
    hide Bit, Swap, Source, Partner, IsMask;
    forall i | 0 <= i < W
      ensures 0 <= Source(i, s, 2 * m) && Bit(Swap(v, mask, s), i) == Bit(v0, Source(i, s, 2 * m))
    {
      assert 2 * m * s == W;
      SourceIn(i, s, 2 * m);
      SourceStep(i, s, m);
      SwapBit(v, mask, s, i);
      PartnerIn(i, s, m);
    }
  }

  lemma PartnerIn(i: nat, s: nat, m: nat)
    requires s > 0 && i < m * (2 * s)
    ensures Partner(i, s) < m * (2 * s)
  {
    var q, r := i / s, i % s;
    assert i == q * s + r;
    assert m * (2 * s) == 2 * m * s;
    Larger(2 * m, q, s);
    PartnerBlock(q, r, s);
    Larger(OtherBlock(q) + 1, 2 * m, s);
    assert (OtherBlock(q) + 1) * s == OtherBlock(q) * s + s;
  }

  lemma Reversed(v: nat, v0: nat)
    requires v < P(W) && Reordered(v, v0, 1, W)
    ensures v == Rev(v0, W)
  {
    hide Bit, Rev, P;
    forall i | 0 <= i < W
      ensures Bit(v, i) == Bit(Rev(v0, W), i)
    {
      RevBits(v0, W, i);
      assert Source(i, 1, W) == W - 1 - i;
    }
    SameBits(v, Rev(v0, W), W);
  }

  lemma FirstMask(v0: nat)
    ensures IsMask(Not(0, W), W) && Reordered(v0, v0, W, 1)
  {
    hide Bit, Not, Lower, Source;
    forall i | 0 <= i < W
      ensures Lower(i, W) && Source(i, W, 1) == i && Bit(Not(0, W), i) == 1
    {
      OneBlock(i, W);
      NotBit(0, W, i);
      ZeroBits(i);
    }
  }

  lemma OneBlock(i: nat, s: nat)
    requires i < s
    ensures Lower(i, s) && Source(i, s, 1) == i
  {
    Divide(0, i, s);
  }

  /** rev: after the stages of 32, 16, 8, 4, 2 and 1 bits the word is reversed. */
  method ReverseBits(v0: nat) returns (v: nat)
    requires v0 < P(W)
    ensures v == Rev(v0, W)
  {
    hide Bit, P, Rev, Swap, Not, Xor, Shl, Reordered, IsMask;
    var s, mask := W, Not(0, W);
    v := v0;
    FirstMask(v0);
    ghost var n := 1;
    while s / 2 > 0
      invariant (s, n) in {(64, 1), (32, 2), (16, 4), (8, 8), (4, 16), (2, 32), (1, 64)}
      invariant v < P(W) && IsMask(mask, s) && Reordered(v, v0, s, n)
      decreases s
    {
      s := s / 2;
      NextMask(mask, s);
      mask := Xor(mask, Shl(mask, s, W), W);
      StageReorders(v, v0, mask, s, n);
      n := 2 * n;
      SwapBound(v, mask, s);
      v := Swap(v, mask, s);
    }
    Reversed(v, v0);
  }

  lemma SwapBound(v: nat, mask: nat, s: nat)
    ensures Swap(v, mask, s) < P(W)
  {
    hide And, Or, Not, Shl, Shr, P;
    OrBound(And(Shr(v, s), mask, W), And(Shl(v, s, W), Not(mask, W), W), W);
  }
}
