/** Integers of any width at any bit offset of a string: reading undoes writing, writing touches
    nothing else, and the overflow checks are exact. */
module Bitfield {
  import opened Wrappers
  import opened Memory
  import opened Words
  import opened BitString

  /** The number that n bits from offset o spell, the first on top. */
  function Field(s: Bytes, o: nat, n: nat): nat { if n == 0 then 0 else 2 * Field(s, o, n - 1) + BitAt(s, o + n - 1) }

  /** Bit i of the string after writing the low n bits of v at offset o. */
  function Written(s: Bytes, o: nat, n: nat, v: nat, i: nat): nat {
    if o <= i < o + n then Bit(v, n - 1 - (i - o)) else BitAt(s, i)
  }

  /** setUnsignedBitfield. */
  method SetUnsigned(p: array<Byte>, offset: nat, bits: nat, value: nat)
    requires offset + bits <= 8 * p.Length
    modifies p
    ensures forall i: nat :: BitAt(p[..], i) == Written(old(p[..]), offset, bits, value, i)
  {
    hide Bit, BitAt, SetBit, And, Or, Not, P;
    ghost var s := p[..];
    for j := 0 to bits
      invariant forall i: nat ::
        BitAt(p[..], i) == if i < offset + j then Written(s, offset, bits, value, i) else BitAt(s, i)
    {
      var o := offset + j;
      var bitval := Bit(value, bits - 1 - j);
      BitIsBit(value, bits - 1 - j);
      var byte, bit := o / 8, 7 - o % 8;
      var byteval: nat := p[byte];
      ByteBound(byteval, bit, bitval);
      ghost var t := p[..];
      byteval := Or(And(byteval, Not(P(bit), 8), 8), bitval * P(bit), 8);
      p[byte] := byteval;
      assert p[..] == t[byte := p[byte]];
      forall i: nat
        ensures BitAt(p[..], i) == if i < offset + (j + 1) then Written(s, offset, bits, value, i) else BitAt(s, i)
      {
        WriteBit(t, o, bitval, i);
      }
    }
  }

  lemma ByteBound(x: nat, k: nat, v: nat)
    requires x < 256 && k < 8 && v <= 1
    ensures SetBit(x, k, v) < 256 && Or(And(x, Not(P(k), 8), 8), v * P(k), 8) == SetBit(x, k, v)
  {
    hide P, SetBit, And, Or, Not;
    Pow256Is(1);
    assert Pow256(1) == 256;
    SetBitBound(x, k, v, 8);
    SetBitIs(x, k, v, 8);
  }

  /** getUnsignedBitfield. */
  method GetUnsigned(p: array<Byte>, offset: nat, bits: nat) returns (value: nat)
    requires offset + bits <= 8 * p.Length
    ensures value == Field(p[..], offset, bits)
  {
    hide Bit;
    value := 0;
    for j := 0 to bits
      invariant value == Field(p[..], offset, j)
    {
      var byteval := p[(offset + j) / 8];
      value := 2 * value + Bit(byteval, 7 - (offset + j) % 8);
    }
  }

  /** A field whose bits are those of v is the low part of v. */
  lemma {:induction false} FieldOf(s: Bytes, o: nat, n: nat, v: nat)
    requires forall i :: o <= i < o + n ==> BitAt(s, i) == Bit(v, n - 1 - (i - o))
    ensures Field(s, o, n) == Low(v, n)
  {
    hide BitAt;
    if n > 0 {
      assert BitAt(s, o + n - 1) == Bit(v, 0);
      forall i | o <= i < o + (n - 1)
        ensures BitAt(s, i) == Bit(v / 2, n - 2 - (i - o))
      {
        assert BitAt(s, i) == Bit(v, n - 1 - (i - o));
      }
      FieldOf(s, o, n - 1, v / 2);
    }
  }

  /** Reading back what was written gives its low bits, and every other field is unchanged. */
  lemma WriteThenRead(s: Bytes, t: Bytes, o: nat, n: nat, v: nat)
    requires forall i: nat :: BitAt(t, i) == Written(s, o, n, v, i)
    ensures Field(t, o, n) == Low(v, n)
    ensures forall i: nat :: !(o <= i < o + n) ==> BitAt(t, i) == BitAt(s, i)
  {
    hide BitAt, Bit;
    FieldOf(t, o, n, v);
  }

  // ---- signed fields ----

  /** Two's complement in n bits. */
  function Signed(u: nat, n: nat): int
    requires n > 0
  {
    if u >= P(n - 1) then u - P(n) else u
  }

  predicate InRange(v: int, n: nat)
    requires n > 0
  {
    0 - P(n - 1) <= v < P(n - 1)
  }

  /** The value as an unsigned 64-bit number. */
  function Cast(v: int): nat
    requires 0 - P(64) <= v < P(64)
  {
    if v < 0 then v + P(64) else v
  }

  lemma {:induction false} LowWrap(x: nat, a: nat, w: nat)
    requires x < P(a) && a <= w && P(a) <= P(w)
    ensures Low(x + P(w) - P(a), a) == x
  {
    hide P, Low;
    if a > 0 {
      PDouble(w);
      PDouble(a);
      LowStep(x + P(w) - P(a), a);
      Less(x + P(w) - P(a), P(w - 1) - P(a - 1));
      Halve(x, P(a - 1));
      LowWrap(x / 2, a - 1, w - 1);
    } else {
      NoBits(x + P(w) - P(a), 0);
    }
  }

  /** The low bits of a value in range, read as two's complement, are the value. */
  lemma SignedRoundTrip(v: int, n: nat)
    requires 0 < n < 64 && InRange(v, n) && 0 - P(64) <= v < P(64)
    ensures Signed(Low(Cast(v), n), n) == v
  {
    hide Low, P;
    PMonotone(n, 64);
    PDouble(n);
    if v < 0 {
      LowWrap(v + P(n), n, 64);
    } else {
      LowId(v, n);
    }
  }

  /** setSignedBitfield: the low bits are written, which is the value itself if it is in range. */
  method SetSigned(p: array<Byte>, offset: nat, bits: nat, value: int)
    requires offset + bits <= 8 * p.Length && 0 < bits < 64 && 0 - P(64) <= value < P(64)
    modifies p
    ensures Field(p[..], offset, bits) == Low(Cast(value), bits)
    ensures InRange(value, bits) ==> Signed(Field(p[..], offset, bits), bits) == value
    ensures forall i: nat :: !(offset <= i < offset + bits) ==> BitAt(p[..], i) == BitAt(old(p[..]), i)
  {
    hide Low, BitAt, Bit, P;
    if InRange(value, bits) {
      SignedRoundTrip(value, bits);
    }
    var uv := Cast(value);
    SetUnsigned(p, offset, bits, uv);
    WriteThenRead(old(p[..]), p[..], offset, bits, uv);
  }

  /** getSignedBitfield: the highest bit of the field is spread over the higher ones. */
  method GetSigned(p: array<Byte>, offset: nat, bits: nat) returns (value: int)
    requires offset + bits <= 8 * p.Length && 0 < bits < 64
    ensures value == Signed(Field(p[..], offset, bits), bits)
  {
    hide Bit, P, Field;
    var u := GetUnsigned(p, offset, bits);
    FieldBound(p[..], offset, bits);
    PDouble(bits);
    assert bits - 1 + 1 == bits;
    BitAbove(u, bits - 1);
    value := u;
    if Bit(u, bits - 1) == 1 {
      // or-ing with -1 << bits
      value := u - P(bits);
    }
  }

  lemma {:induction false} FieldBound(s: Bytes, o: nat, n: nat)
    ensures Field(s, o, n) < P(n)
  {
    hide BitAt;
    if n > 0 {
      FieldBound(s, o, n - 1);
      BitAtIsBit(s, o + n - 1);
    }
  }

  // ---- overflow ----

  datatype Overflow = Wrap | Sat | Fail

  /** a and b differ by a multiple of n. */
  ghost predicate Congruent(a: int, b: int, n: nat) { exists k: int :: a == b + k * n }

  /** Two congruent numbers less than n apart are equal, so a wrapped result is unique. */
  lemma WrapUnique(a: int, b: int, n: nat)
    requires n > 0 && Congruent(a, b, n) && 0 - n < a - b < n
    ensures a == b
  {
    var k: int :| a == b + k * n;
    Negated(k, n);
    if k > 0 {
      AtLeast(k, n);
    } else if k < 0 {
      AtLeast(-k, n);
    }
  }

  lemma Negated(k: int, n: int)
    ensures k * n == -((-k) * n)
  {
  }

  lemma AtLeast(k: nat, n: nat)
    requires k > 0
    ensures k * n >= n
  {
    assert k * n == n + (k - 1) * n;
  }

  /** The bits of x from a upwards. */
  function High(x: nat, a: nat): nat { if a == 0 then x else High(x / 2, a - 1) }

  lemma {:induction false} LowHigh(x: nat, a: nat)
    ensures x == Low(x, a) + High(x, a) * P(a)
  {
    hide P, Low;
    if a > 0 {
      LowStep(x, a);
      PDouble(a);
      LowHigh(x / 2, a - 1);
      Twice(High(x, a), P(a - 1));
    } else {
      NoBits(x, 0);
    }
  }

  lemma Twice(h: nat, p: nat)
    ensures h * (2 * p) == 2 * (h * p)
  {
  }

  lemma {:induction false} PProduct(a: nat, b: nat)
    ensures P(a + b) == P(a) * P(b)
  {
    hide P;
    if b > 0 {
      PDouble(b);
      PDouble(a + b);
      assert a + b - 1 == a + (b - 1);
      PProduct(a, b - 1);
      Twice(P(a), P(b - 1));
    } else {
      NoBits(0, 0);
    }
  }

  /** The sum of two 64-bit numbers as the machine computes it. */
  function Sum64(a: int, b: int): nat
    requires 0 - P(64) <= a + b < 2 * P(64)
  {
    if a + b < 0 then a + b + P(64) else if a + b < P(64) then a + b else a + b - P(64)
  }

  /** Cutting a machine sum to n bits changes the mathematical sum by a multiple of 2^n. */
  lemma LowSum(a: int, b: int, n: nat)
    requires n <= 64 && 0 - P(64) <= a + b < 2 * P(64)
    ensures Congruent(Low(Sum64(a, b), n), a + b, P(n))
  {
    hide Low, P, High;
    var x := Sum64(a, b);
    LowHigh(x, n);
    PProduct(64 - n, n);
    assert 64 - n + n == 64;
    var q := P(64 - n);
    var m := if a + b < 0 then 1 else if a + b < P(64) then 0 else -1;
    assert x == a + b + m * P(64);
    var k := m * q - High(x, n);
    assert k * P(n) == m * (q * P(n)) - High(x, n) * P(n) by { Distribute(m, q, High(x, n), P(n)); }
    assert Low(x, n) == a + b + k * P(n);
  }

  lemma Distribute(m: int, q: int, h: int, p: int)
    ensures (m * q - h) * p == m * (q * p) - h * p
  {
    assert (m * q - h) * p == m * q * p - h * p;
  }

  /** checkUnsignedBitfieldOverflow for fields of at most 63 bits. For a stored value the answer
      is zero exactly when the sum fits. A wrapped underflow is reported like an overflow. */
  method CheckUnsigned(value: nat, incr: int, bits: nat, ow: Overflow) returns (r: int, limit: Option<nat>)
    requires 0 < bits < 64 && value < P(64) && 0 - P(63) <= incr < P(63)
    ensures limit.Some? <==> r != 0 && ow != Fail
    ensures value < P(bits) ==> (r == 0 <==> 0 <= value + incr < P(bits))
    ensures r != 0 && value < P(bits) ==> r == if ow == Wrap || value + incr > 0 then 1 else -1
    ensures r != 0 && ow == Wrap ==> limit.value < P(bits) && Congruent(limit.value, value + incr, P(bits))
    ensures r != 0 && ow == Sat ==> limit.value == if value >= P(bits) || incr > 0 then P(bits) - 1 else 0
  {
    hide P, Low;
    var max := P(bits) - 1;
    PDouble(64);
    PMonotone(bits, 64);
    LowSum(value, incr, bits);
    if value > max || (incr > 0 && incr > max - value) {
      r := 1;
      limit := match ow case Wrap => Some(Low(Sum64(value, incr), bits)) case Sat => Some(max) case Fail => None;
    } else if incr < 0 && incr < 0 - value {
      r := if ow == Wrap then 1 else -1;
      limit := match ow case Wrap => Some(Low(Sum64(value, incr), bits)) case Sat => Some(0) case Fail => None;
    } else {
      r, limit := 0, None;
    }
  }

  /** The wrapped result of a signed sum: its low bits with the sign spread upwards. */
  lemma SignedCongruent(c: nat, x: int, n: nat)
    requires n > 0 && Congruent(Low(c, n), x, P(n))
    ensures InRange(Signed(Low(c, n), n), n) && Congruent(Signed(Low(c, n), n), x, P(n))
  {
    hide Low, P;
    PDouble(n);
    var k: int :| Low(c, n) == x + k * P(n);
    assert Low(c, n) - P(n) == x + (k - 1) * P(n);
  }

  /** checkSignedBitfieldOverflow for fields of at most 63 bits. */
  method CheckSigned(value: int, incr: int, bits: nat, ow: Overflow) returns (r: int, limit: Option<int>)
    requires 0 < bits < 64
    requires 0 - P(63) <= value < P(63) && 0 - P(63) <= incr < P(63)
    ensures limit.Some? <==> r != 0 && ow != Fail
    ensures InRange(value, bits) ==> (r == 0 <==> InRange(value + incr, bits))
    ensures r != 0 && InRange(value, bits) ==> r == if ow == Wrap || value + incr >= P(bits - 1) then 1 else -1
    ensures r != 0 && ow == Wrap ==> InRange(limit.value, bits) && Congruent(limit.value, value + incr, P(bits))
    ensures r != 0 && ow == Sat && InRange(value, bits) ==>
      limit.value == if incr > 0 then P(bits - 1) - 1 else 0 - P(bits - 1)
  {
    hide P, Low, Bit;
    PDouble(bits);
    PDouble(64);
    PMonotone(bits, 64);
    var max: int := P(bits - 1) - 1;
    var min := -max - 1;
    LowSum(value, incr, bits);
    SignedCongruent(Sum64(value, incr), value + incr, bits);
    var wrapped := SignExtend(Sum64(value, incr), bits);
    if value > max || incr > max - value {
      r := 1;
      limit := match ow case Wrap => Some(wrapped) case Sat => Some(max) case Fail => None;
    } else if value < min || incr < min - value {
      r := if ow == Wrap then 1 else -1;
      limit := match ow case Wrap => Some(wrapped) case Sat => Some(min) case Fail => None;
    } else {
      r, limit := 0, None;
    }
  }

  /** The end of handle_wrap: if the sign bit is set all higher bits are set, otherwise cleared,
      and the result is read as a signed 64-bit number. */
  method SignExtend(c: nat, bits: nat) returns (v: int)
    requires 0 < bits < 64 && c < P(64)
    ensures v == Signed(Low(c, bits), bits)
  {
    hide P, Low, Bit, Fill;
    PDouble(bits);
    SignBit(c, bits);
    if Bit(c, bits - 1) == 1 {
      var u := Fill(c, bits, 64);      // c | mask
      FillIs(c, bits, 64);
      v := u - P(64);
    } else {
      v := Low(c, bits);               // c & ~mask
    }
  }

  lemma {:induction false} SignBit(c: nat, n: nat)
    requires n > 0
    ensures Bit(c, n - 1) == 1 <==> Low(c, n) >= P(n - 1)
  {
    hide P, Low;
    LowStep(c, n);
    if n > 1 {
      PDouble(n - 1);
      Less(Low(c, n), P(n - 2));
      SignBit(c / 2, n - 1);
    } else {
      NoBits(c / 2, 0);
    }
  }

  lemma {:induction false} FillIs(c: nat, a: nat, w: nat)
    requires a <= w
    ensures Fill(c, a, w) == P(w) - P(a) + Low(c, a)
  {
    hide P, Low, Fill;
    if w > 0 {
      FillStep(c, a, w);
      PDouble(w);
      if a == 0 {
        NoBits(c, 0);
        NoBits(c / 2, 0);
        FillIs(c / 2, 0, w - 1);
      } else {
        LowStep(c, a);
        PDouble(a);
        FillIs(c / 2, a - 1, w - 1);
      }
    } else {
      NoBits(c, 0);
    }
  }
}
