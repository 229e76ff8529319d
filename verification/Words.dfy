/** Machine words as natural numbers, one bit at a time: masks, bit reversal, and the
    order that bit reversal induces on cursors. Every recursion peels the lowest bit. */
module Words {

  function P(n: nat): (p: nat)
    ensures p > 0
  {
    if n == 0 then 1 else 2 * P(n - 1)
  }

  /** x & (2^a - 1). */
  function Low(x: nat, a: nat): (r: nat)
    ensures r < P(a)
  {
    if a == 0 then 0 else x % 2 + 2 * Low(x / 2, a - 1)
  }

  function And(x: nat, y: nat, w: nat): nat {
    if w == 0 then 0 else (if x % 2 == 1 && y % 2 == 1 then 1 else 0) + 2 * And(x / 2, y / 2, w - 1)
  }

  function Or(x: nat, y: nat, w: nat): nat {
    if w == 0 then 0 else (if x % 2 == 1 || y % 2 == 1 then 1 else 0) + 2 * Or(x / 2, y / 2, w - 1)
  }

  function Xor(x: nat, y: nat, w: nat): nat {
    if w == 0 then 0 else (if x % 2 != y % 2 then 1 else 0) + 2 * Xor(x / 2, y / 2, w - 1)
  }

  function Not(x: nat, w: nat): nat {
    if w == 0 then 0 else (1 - x % 2) + 2 * Not(x / 2, w - 1)
  }

  /** x + 1 in w-bit arithmetic. */
  function Inc(x: nat, w: nat): nat { if x + 1 == P(w) then 0 else x + 1 }

  // ---- one bit at a time ----

  lemma Digit2(d: nat, q: nat)
    requires d < 2
    ensures (d + 2 * q) % 2 == d && (d + 2 * q) / 2 == q
  {
  }

  lemma PDouble(n: nat)
    requires n > 0
    ensures P(n) == 2 * P(n - 1)
  {
  }

  /** Words of no bits. */
  lemma NoBits(x: nat, y: nat)
    ensures P(0) == 1 && Low(x, 0) == 0 && And(x, y, 0) == 0 && Or(x, y, 0) == 0 && Xor(x, y, 0) == 0
    ensures Not(x, 0) == 0 && Fill(x, y, 0) == 0 && Rev(x, 0) == 0
  {
  }

  lemma Halve(x: nat, p: nat)
    requires x < 2 * p
    ensures x / 2 < p
  {
  }

  /** The mask of a bits, less its lowest bit, is the mask of a - 1 bits. */
  lemma MaskStep(a: nat)
    requires a > 0
    ensures (P(a) - 1) % 2 == 1 && (P(a) - 1) / 2 == P(a - 1) - 1
  {
    hide P;
    PDouble(a);
    Digit2(1, P(a - 1) - 1);
  }

  lemma LowStep(x: nat, a: nat)
    requires a > 0
    ensures var r := Low(x, a); r % 2 == x % 2 && r / 2 == Low(x / 2, a - 1) && r == x % 2 + 2 * Low(x / 2, a - 1)
  {
    hide P;
    Digit2(x % 2, Low(x / 2, a - 1));
  }

  lemma AndStep(x: nat, y: nat, w: nat)
    requires w > 0
    ensures var d, q := if x % 2 == 1 && y % 2 == 1 then 1 else 0, And(x / 2, y / 2, w - 1);
      And(x, y, w) == d + 2 * q && And(x, y, w) % 2 == d && And(x, y, w) / 2 == q
  {
    Digit2(if x % 2 == 1 && y % 2 == 1 then 1 else 0, And(x / 2, y / 2, w - 1));
  }

  lemma OrStep(x: nat, y: nat, w: nat)
    requires w > 0
    ensures var d, q := if x % 2 == 1 || y % 2 == 1 then 1 else 0, Or(x / 2, y / 2, w - 1);
      Or(x, y, w) == d + 2 * q && Or(x, y, w) % 2 == d && Or(x, y, w) / 2 == q
  {
    Digit2(if x % 2 == 1 || y % 2 == 1 then 1 else 0, Or(x / 2, y / 2, w - 1));
  }

  lemma XorStep(x: nat, y: nat, w: nat)
    requires w > 0
    ensures var d, q := if x % 2 != y % 2 then 1 else 0, Xor(x / 2, y / 2, w - 1);
      Xor(x, y, w) == d + 2 * q && Xor(x, y, w) % 2 == d && Xor(x, y, w) / 2 == q
  {
    Digit2(if x % 2 != y % 2 then 1 else 0, Xor(x / 2, y / 2, w - 1));
  }

  lemma NotStep(x: nat, w: nat)
    requires w > 0
    ensures var d, q := 1 - x % 2, Not(x / 2, w - 1);
      Not(x, w) == d + 2 * q && Not(x, w) % 2 == d && Not(x, w) / 2 == q
  {
    Digit2(1 - x % 2, Not(x / 2, w - 1));
  }

  lemma PTwice(k: nat)
    ensures P(k + 2) == 4 * P(k)
  {
    hide P;
    PDouble(k + 2);
    PDouble(k + 1);
    assert k + 2 - 1 == k + 1 && k + 1 - 1 == k;
  }

  lemma {:induction false} PMonotone(a: nat, b: nat)
    requires a < b
    ensures 2 * P(a) <= P(b)
  {
    hide P;
    PDouble(b);
    if a + 1 < b {
      PMonotone(a, b - 1);
    }
  }

  lemma {:induction false} LowId(x: nat, a: nat)
    requires x < P(a)
    ensures Low(x, a) == x
  {
    hide P, Low;
    if a > 0 {
      LowStep(x, a);
      PDouble(a);
      Halve(x, P(a - 1));
      LowId(x / 2, a - 1);
    } else {
      NoBits(x, 0);
    }
  }

  lemma {:induction false} LowLow(x: nat, a: nat, b: nat)
    requires a <= b
    ensures Low(Low(x, b), a) == Low(x, a)
    ensures Low(x, a) <= Low(x, b)
  {
    hide P, Low;
    if a > 0 {
      LowStep(x, a);
      LowStep(x, b);
      LowStep(Low(x, b), a);
      LowLow(x / 2, a - 1, b - 1);
    } else {
      NoBits(x, 0);
      NoBits(Low(x, b), 0);
    }
  }

  /** Distinct numbers with the same low a bits are at least 2^a apart. */
  lemma {:induction false} LowGap(x: nat, y: nat, a: nat)
    requires Low(x, a) == Low(y, a) && x < y
    ensures x + P(a) <= y
  {
    hide P, Low;
    if a > 0 {
      LowStep(x, a);
      LowStep(y, a);
      PDouble(a);
      LowGap(x / 2, y / 2, a - 1);
    } else {
      NoBits(x, y);
    }
  }

  // ---- masks ----

  lemma {:induction false} AndMask(x: nat, a: nat, w: nat)
    requires a <= w
    ensures And(x, P(a) - 1, w) == Low(x, a)
  {
    hide P, Low, And;
    if a > 0 {
      MaskStep(a);
      LowStep(x, a);
      AndStep(x, P(a) - 1, w);
      AndMask(x / 2, a - 1, w - 1);
    } else {
      NoBits(x, 0);
      AndNothing(x, w);
    }
  }

  lemma {:induction false} AndNothing(x: nat, w: nat)
    ensures And(x, 0, w) == 0
  {
    if w > 0 {
      AndNothing(x / 2, w - 1);
    }
  }

  lemma {:induction false} OrNothing(x: nat, w: nat)
    requires x < P(w)
    ensures Or(x, 0, w) == x
  {
    hide P, Or;
    if w > 0 {
      OrStep(x, 0, w);
      PDouble(w);
      Halve(x, P(w - 1));
      OrNothing(x / 2, w - 1);
    } else {
      NoBits(x, 0);
    }
  }

  lemma {:induction false} AndAll(x: nat, w: nat)
    requires x < P(w)
    ensures And(x, Not(0, w), w) == x
  {
    hide P, And, Not;
    if w > 0 {
      NotStep(0, w);
      AndStep(x, Not(0, w), w);
      PDouble(w);
      Halve(x, P(w - 1));
      AndAll(x / 2, w - 1);
    } else {
      NoBits(x, Not(0, 0));
    }
  }

  lemma {:induction false} OrBound(x: nat, y: nat, w: nat)
    ensures Or(x, y, w) < P(w)
  {
    if w > 0 {
      OrBound(x / 2, y / 2, w - 1);
    }
  }

  /** v | ~(2^a - 1): every bit from a upwards set. */
  function Fill(v: nat, a: nat, w: nat): (r: nat)
    ensures r < P(w)
  {
    if w == 0 then 0
    else if a == 0 then 1 + 2 * Fill(v / 2, 0, w - 1)
    else v % 2 + 2 * Fill(v / 2, a - 1, w - 1)
  }

  lemma {:induction false} OrNotMask(v: nat, a: nat, w: nat)
    requires a <= w
    ensures Or(v, Not(P(a) - 1, w), w) == Fill(v, a, w)
  {
    hide P, Or, Not, Fill;
    if w > 0 {
      FillStep(v, a, w);
      NotStep(P(a) - 1, w);
      OrStep(v, Not(P(a) - 1, w), w);
      if a == 0 {
        NoBits(v, 0);
        OrNotMask(v / 2, 0, w - 1);
      } else {
        MaskStep(a);
        OrNotMask(v / 2, a - 1, w - 1);
      }
    } else {
      NoBits(v, a);
      NoBits(v, Not(P(a) - 1, 0));
    }
  }

  lemma FillStep(v: nat, a: nat, w: nat)
    requires w > 0
    ensures var d, q := if a == 0 then 1 else v % 2, Fill(v / 2, if a == 0 then 0 else a - 1, w - 1);
      Fill(v, a, w) == d + 2 * q && Fill(v, a, w) % 2 == d && Fill(v, a, w) / 2 == q
  {
    hide P;
    Digit2(if a == 0 then 1 else v % 2, Fill(v / 2, if a == 0 then 0 else a - 1, w - 1));
  }

  // ---- reversal ----

  /** The w-bit number whose bits are those of v in the opposite order. */
  function Rev(v: nat, w: nat): (r: nat)
    ensures r < P(w)
  {
    if w == 0 then 0 else (if v % 2 == 1 then P(w - 1) else 0) + Rev(v / 2, w - 1)
  }

  lemma RevStep(v: nat, w: nat)
    requires w > 0
    ensures Rev(v, w) == (if v % 2 == 1 then P(w - 1) else 0) + Rev(v / 2, w - 1)
  {
  }

  lemma Less(v: nat, p: nat)
    ensures v >= 2 * p <==> v / 2 >= p
    ensures v >= 2 * p ==> (v - 2 * p) % 2 == v % 2 && (v - 2 * p) / 2 == v / 2 - p
  {
  }

  lemma {:induction false} RevTop(v: nat, w: nat)
    requires w > 0 && v < P(w)
    ensures Rev(v, w) == if v >= P(w - 1) then 2 * Rev(v - P(w - 1), w - 1) + 1 else 2 * Rev(v, w - 1)
  {
    hide P, Rev;
    PDouble(w);
    RevStep(v, w);
    if w > 1 {
      PDouble(w - 1);
      Less(v, P(w - 2));
      RevTop(v / 2, w - 1);
      RevStep(if v >= P(w - 1) then v - P(w - 1) else v, w - 1);
    } else {
      NoBits(v / 2, 0);
      NoBits(if v >= 1 then v - 1 else v, 0);
    }
  }

  lemma {:induction false} RevInvolution(v: nat, w: nat)
    requires v < P(w)
    ensures Rev(Rev(v, w), w) == v
  {
    hide P, Rev;
    if w > 0 {
      PDouble(w);
      RevTop(v, w);
      RevStep(Rev(v, w), w);
      if v >= P(w - 1) {
        Digit2(1, Rev(v - P(w - 1), w - 1));
        RevInvolution(v - P(w - 1), w - 1);
      } else {
        Digit2(0, Rev(v, w - 1));
        RevInvolution(v, w - 1);
      }
    } else {
      NoBits(Rev(v, 0), 0);
    }
  }

  function Bit(v: nat, i: nat): nat {
    if i == 0 then v % 2 else Bit(v / 2, i - 1)
  }

  lemma {:induction false} BitIsBit(v: nat, i: nat)
    ensures Bit(v, i) <= 1
  {
    if i > 0 {
      BitIsBit(v / 2, i - 1);
    }
  }

  lemma {:induction false} ZeroBits(i: nat)
    ensures Bit(0, i) == 0
  {
    if i > 0 {
      ZeroBits(i - 1);
    }
  }

  lemma {:induction false} BitAbove(v: nat, w: nat)
    requires v < P(w + 1)
    ensures Bit(v, w) == if v >= P(w) then 1 else 0
  {
    hide P;
    PDouble(w + 1);
    if w > 0 {
      PDouble(w);
      Less(v, P(w - 1));
      Halve(v, P(w));
      BitAbove(v / 2, w - 1);
    } else {
      NoBits(v, 0);
    }
  }

  lemma {:induction false} BitBelow(v: nat, w: nat, i: nat)
    requires i < w
    ensures Bit(v + P(w), i) == Bit(v, i)
  {
    hide P;
    PDouble(w);
    Less(v + P(w), P(w - 1));
    if i > 0 {
      BitBelow(v / 2, w - 1, i - 1);
    }
  }

  /** `Rev` is bit reversal: bit i of the result is bit w - 1 - i of the argument. */
  lemma {:induction false} RevBits(v: nat, w: nat, i: nat)
    requires i < w
    ensures Bit(Rev(v, w), i) == Bit(v, w - 1 - i)
  {
    hide P, Rev;
    RevStep(v, w);
    if i == w - 1 {
      BitAbove(Rev(v, w), w - 1);
    } else {
      RevBits(v / 2, w - 1, i);
      BitBelow(Rev(v / 2, w - 1), w - 1, i);
    }
  }
}
