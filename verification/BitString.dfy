/** A byte string as a row of bits: bit 0 is the highest bit of the first byte, and the string is
    followed by zeroes. */
module BitString {
  import opened Memory
  import opened Words

  function ByteOr0(s: Bytes, j: nat): Byte { if j < |s| then s[j] else 0 }

  function BitAt(s: Bytes, i: nat): nat { if i / 8 < |s| then Bit(s[i / 8], 7 - i % 8) else 0 }

  lemma BitAtIsBit(s: Bytes, i: nat)
    ensures BitAt(s, i) <= 1
  {
    hide Bit;
    if i / 8 < |s| {
      BitIsBit(s[i / 8], 7 - i % 8);
    }
  }

  // ---- setting a bit ----

  function SetBit(x: nat, k: nat, v: nat): nat
    requires v <= 1
  {
    if k == 0 then x - x % 2 + v else x % 2 + 2 * SetBit(x / 2, k - 1, v)
  }

  lemma {:induction false} SetBitBits(x: nat, k: nat, v: nat, i: nat)
    requires v <= 1
    ensures Bit(SetBit(x, k, v), i) == if i == k then v else Bit(x, i)
  {
    if k == 0 {
      if i > 0 {
        assert (x - x % 2 + v) / 2 == x / 2;
      }
    } else if i > 0 {
      SetBitBits(x / 2, k - 1, v, i - 1);
    }
  }

  lemma {:induction false} SetBitBound(x: nat, k: nat, v: nat, w: nat)
    requires v <= 1 && k < w && x < P(w)
    ensures SetBit(x, k, v) < P(w)
  {
    hide P;
    PDouble(w);
    EvenBound(x, P(w - 1), v);
    if k > 0 {
      SetBitBound(x / 2, k - 1, v, w - 1);
    }
  }

  lemma EvenBound(x: nat, p: nat, v: nat)
    requires x < 2 * p && v <= 1
    ensures x / 2 < p && x - x % 2 + v < 2 * p
  {
  }

  /** Clearing a bit with a mask and then setting it, as the source does. */
  lemma {:induction false} SetBitIs(x: nat, k: nat, v: nat, w: nat)
    requires v <= 1 && k < w && x < P(w)
    ensures Or(And(x, Not(P(k), w), w), v * P(k), w) == SetBit(x, k, v)
  {
    hide And, Or, Not;
    if k == 0 {
      NotOne(w);
      AndAllButOne(x, w);
      OrLowest(x, v, w);
    } else {
      SetBitIs(x / 2, k - 1, v, w - 1);
      SetBitIsStep(x, P(k - 1), v, w, SetBit(x / 2, k - 1, v));
    }
  }

  lemma SetBitIsStep(x: nat, p: nat, v: nat, w: nat, r: nat)
    requires v <= 1 && w > 0 && Or(And(x / 2, Not(p, w - 1), w - 1), v * p, w - 1) == r
    ensures Or(And(x, Not(2 * p, w), w), v * (2 * p), w) == x % 2 + 2 * r
  {
    hide And, Or, Not;
    NotEven(p, w);
    AndOdd(x, Not(2 * p, w), w);
    assert v * (2 * p) == 2 * (v * p);
    OrEven(And(x, Not(2 * p, w), w), v * p, w);
  }

  lemma NotEven(p: nat, w: nat)
    requires w > 0
    ensures Not(2 * p, w) % 2 == 1 && Not(2 * p, w) / 2 == Not(p, w - 1)
  {
    hide Not;
    NotStep(2 * p, w);
    Digit2(0, p);
  }

  lemma AndOdd(x: nat, m: nat, w: nat)
    requires w > 0 && m % 2 == 1
    ensures And(x, m, w) % 2 == x % 2 && And(x, m, w) / 2 == And(x / 2, m / 2, w - 1)
  {
    hide And;
    AndStep(x, m, w);
  }

  lemma OrEven(y: nat, z: nat, w: nat)
    requires w > 0
    ensures Or(y, 2 * z, w) == y % 2 + 2 * Or(y / 2, z, w - 1)
  {
    hide Or;
    OrStep(y, 2 * z, w);
    Digit2(0, z);
  }

  lemma NotOne(w: nat)
    requires w > 0
    ensures P(0) == 1 && Not(1, w) % 2 == 0 && Not(1, w) / 2 == Not(0, w - 1)
  {
    hide Not;
    NoBits(0, 0);
    NotStep(1, w);
  }

  lemma AndAllButOne(x: nat, w: nat)
    requires w > 0 && x < P(w)
    ensures And(x, Not(1, w), w) == x - x % 2
  {
    hide P, And, Not;
    NotOne(w);
    AndStep(x, Not(1, w), w);
    PDouble(w);
    Halve(x, P(w - 1));
    AndAll(x / 2, w - 1);
  }

  lemma OrLowest(x: nat, v: nat, w: nat)
    requires w > 0 && x < P(w) && v <= 1
    ensures Or(x - x % 2, v, w) == x - x % 2 + v
  {
    hide P, Or;
    OrStep(x - x % 2, v, w);
    Digit2(0, x / 2);
    PDouble(w);
    Halve(x, P(w - 1));
    OrNothing(x / 2, w - 1);
  }

  /** Writing bit o of a string changes that bit and no other. */
  lemma WriteBit(s: Bytes, o: nat, v: nat, i: nat)
    requires o / 8 < |s| && v <= 1 && SetBit(s[o / 8], 7 - o % 8, v) < 256
    ensures BitAt(s[o / 8 := SetBit(s[o / 8], 7 - o % 8, v)], i) == if i == o then v else BitAt(s, i)
  {
    hide SetBit, Bit;
    SetBitBits(s[o / 8], 7 - o % 8, v, 7 - i % 8);
  }

  // ---- bytes next to each other ----

  lemma Digit256(d: nat, q: nat)
    requires d < 256
    ensures (d + 256 * q) % 256 == d && (d + 256 * q) / 256 == q
  {
  }

  lemma BitBy2(d: nat, q: nat, i: nat)
    requires d < 2
    ensures Bit(d + 2 * q, i) == if i == 0 then d else Bit(q, i - 1)
  {
  }

  lemma BitBy4(d: nat, q: nat, i: nat)
    requires d < 4
    ensures Bit(d + 4 * q, i) == if i < 2 then Bit(d, i) else Bit(q, i - 2)
  {
    hide Bit;
    var d0, d1 := d % 2, d / 2;
    assert d == d0 + 2 * d1 && d + 4 * q == d0 + 2 * (d1 + 2 * q);
    BitBy2(d0, d1 + 2 * q, i);
    BitBy2(d0, d1, i);
    if i > 0 {
      BitBy2(d1, q, i - 1);
      BitBy2(d1, 0, i - 1);
    }
  }

  lemma BitBy16(d: nat, q: nat, i: nat)
    requires d < 16
    ensures Bit(d + 16 * q, i) == if i < 4 then Bit(d, i) else Bit(q, i - 4)
  {
    hide Bit;
    var d0, d1 := d % 4, d / 4;
    assert d == d0 + 4 * d1 && d + 16 * q == d0 + 4 * (d1 + 4 * q);
    BitBy4(d0, d1 + 4 * q, i);
    BitBy4(d0, d1, i);
    if i >= 2 {
      BitBy4(d1, q, i - 2);
    }
  }

  lemma BitBy256(d: nat, q: nat, i: nat)
    requires d < 256
    ensures Bit(d + 256 * q, i) == if i < 8 then Bit(d, i) else Bit(q, i - 8)
  {
    hide Bit;
    var d0, d1 := d % 16, d / 16;
    assert d == d0 + 16 * d1 && d + 256 * q == d0 + 16 * (d1 + 16 * q);
    BitBy16(d0, d1 + 16 * q, i);
    BitBy16(d0, d1, i);
    if i >= 4 {
      BitBy16(d1, q, i - 4);
    }
  }

  lemma {:induction false} Pow256Is(n: nat)
    ensures Pow256(n) == P(8 * n)
  {
    hide P;
    if n > 0 {
      Pow256Is(n - 1);
      var k := 8 * (n - 1);
      PTwice(k);
      PTwice(k + 2);
      PTwice(k + 4);
      PTwice(k + 6);
      assert 8 * n == k + 8;
    } else {
      NoBits(0, 0);
    }
  }

  // ---- operations bit by bit, and byte by byte ----

  datatype Op = OpAnd | OpOr | OpXor | OpNot

  function OnBit(op: Op, a: nat, b: nat): nat
    requires a <= 1 && b <= 1
  {
    match op
    case OpAnd => a * b
    case OpOr => if a == 1 || b == 1 then 1 else 0
    case OpXor => if a != b then 1 else 0
    case OpNot => 1 - a
  }

  /** The operation on w-bit words; OpNot ignores its second operand. */
  function Apply(op: Op, x: nat, y: nat, w: nat): nat {
    if w == 0 then 0 else OnBit(op, x % 2, y % 2) + 2 * Apply(op, x / 2, y / 2, w - 1)
  }

  lemma {:induction false} AndIs(x: nat, y: nat, w: nat)
    ensures Apply(OpAnd, x, y, w) == And(x, y, w)
  {
    if w > 0 {
      AndIs(x / 2, y / 2, w - 1);
    }
  }

  lemma Div4(x: nat)
    ensures x / 4 == x / 2 / 2 && x % 4 == x % 2 + 2 * (x / 2 % 2) && x % 4 / 2 == x / 2 % 2
  {
  }

  lemma Div16(x: nat)
    ensures x / 16 == x / 4 / 4 && x % 16 == x % 4 + 4 * (x / 4 % 4) && x % 16 / 4 == x / 4 % 4 && x % 16 % 4 == x % 4
  {
  }

  lemma Div256(x: nat)
    ensures x / 256 == x / 16 / 16 && x % 256 == x % 16 + 16 * (x / 16 % 16)
    ensures x % 256 / 16 == x / 16 % 16 && x % 256 % 16 == x % 16
  {
  }

  lemma Apply1(op: Op, x: nat, y: nat, w: nat)
    requires w >= 1
    ensures Apply(op, x, y, w) == Apply(op, x % 2, y % 2, 1) + 2 * Apply(op, x / 2, y / 2, w - 1)
  {
  }

  lemma Apply2(op: Op, x: nat, y: nat, w: nat)
    requires w >= 2
    ensures Apply(op, x, y, w) == Apply(op, x % 4, y % 4, 2) + 4 * Apply(op, x / 4, y / 4, w - 2)
  {
    hide Apply;
    Div4(x);
    Div4(y);
    Halves(x);
    Halves(y);
    Apply1(op, x, y, w);
    Apply1(op, x / 2, y / 2, w - 1);
    Apply1(op, x % 4, y % 4, 2);
  }

  lemma Halves(x: nat)
    ensures x % 4 % 2 == x % 2
  {
  }

  lemma Apply4(op: Op, x: nat, y: nat, w: nat)
    requires w >= 4
    ensures Apply(op, x, y, w) == Apply(op, x % 16, y % 16, 4) + 16 * Apply(op, x / 16, y / 16, w - 4)
  {
    hide Apply;
    Div16(x);
    Div16(y);
    Apply2(op, x, y, w);
    Apply2(op, x / 4, y / 4, w - 2);
    Apply2(op, x % 16, y % 16, 4);
  }

  lemma Apply8(op: Op, x: nat, y: nat, w: nat)
    requires w >= 8
    ensures Apply(op, x, y, w) == Apply(op, x % 256, y % 256, 8) + 256 * Apply(op, x / 256, y / 256, w - 8)
  {
    hide Apply;
    Div256(x);
    Div256(y);
    Apply4(op, x, y, w);
    Apply4(op, x / 16, y / 16, w - 4);
    Apply4(op, x % 256, y % 256, 8);
  }

  lemma {:induction false} ApplyBound(op: Op, x: nat, y: nat, w: nat)
    ensures Apply(op, x, y, w) < P(w)
  {
    if w > 0 {
      ApplyBound(op, x / 2, y / 2, w - 1);
    }
  }
}
