/** Cursor arithmetic of dictScan, for tables of 2^a (smaller) and 2^b (larger) buckets
    and w-bit words. All statements compare words by the value of their reversal. */
module ScanCursor {
  import opened Words

  /** v |= ~m0; v = rev(v); v++; v = rev(v). */
  function NextCursor(v: nat, a: nat, w: nat): nat {
    Rev(Inc(Rev(Or(v, Not(P(a) - 1, w), w), w), w), w)
  }

  /** v = (((v | m0) + 1) & ~m0) | (v & m0). */
  function NextExpansion(v: nat, a: nat, w: nat): nat {
    var m0 := P(a) - 1;
    Or(And(Inc(Or(v, m0, w), w), Not(m0, w), w), And(v, m0, w), w)
  }

  // ---- from one cursor to the next ----

  lemma {:induction false} RevFill(v: nat, a: nat, w: nat)
    requires a <= w
    ensures Rev(v, w) <= Rev(Fill(v, a, w), w)
  {
    hide P, Rev, Fill;
    if w > 0 {
      FillStep(v, a, w);
      RevStep(v, w);
      RevStep(Fill(v, a, w), w);
      RevFill(v / 2, if a == 0 then 0 else a - 1, w - 1);
    } else {
      NoBits(v, a);
    }
  }

  /** The reversed cursor is the successor of the filled one, so it strictly grows until
      the cursor returns to 0. */
  lemma NextCursorGrows(v: nat, a: nat, w: nat)
    requires a <= w
    ensures var u := NextCursor(v, a, w);
      && u < P(w)
      && Rev(u, w) == Inc(Rev(Fill(v, a, w), w), w)
      && (u == 0 <==> Rev(Fill(v, a, w), w) + 1 == P(w))
      && (u != 0 ==> Rev(v, w) < Rev(u, w))
  {
    hide P, Rev, Fill, Or, Not;
    OrNotMask(v, a, w);
    RevFill(v, a, w);
    var x := Inc(Rev(Fill(v, a, w), w), w);
    RevInvolution(x, w);
    RevZero(w);
  }

  /** The next cursor only has bits below a: the reversal of the successor of the reversal. */
  lemma NextCursorLow(v: nat, a: nat, w: nat)
    requires a <= w
    ensures NextCursor(v, a, w) == Rev(Inc(Rev(Low(v, a), a), a), a)
  {
    hide P, Rev, Low, Fill, Or, Not, Inc;
    var x := Rev(Inc(Rev(Low(v, a), a), a), a);
    OrNotMask(v, a, w);
    IncBound(Rev(Low(v, a), a), a);
    IncBound(Rev(Fill(v, a, w), w), w);
    RevInvolution(Inc(Rev(Low(v, a), a), a), a);
    FilledSuccessor(v, x, a, w);
    if a < w {
      PMonotone(a, w);
    }
    RevInvolution(x, w);
  }

  lemma {:induction false} FillSelf(v: nat, a: nat)
    ensures Fill(v, a, a) == Low(v, a)
  {
    hide P, Fill, Low;
    if a > 0 {
      FillStep(v, a, a);
      LowStep(v, a);
      FillSelf(v / 2, a - 1);
    } else {
      NoBits(v, 0);
    }
  }

  lemma {:induction false} FillTop(v: nat, a: nat, w: nat)
    requires a <= w
    ensures Fill(v, a, w + 1) == Fill(v, a, w) + P(w)
  {
    hide P, Fill;
    FillStep(v, a, w + 1);
    if w > 0 {
      FillStep(v, a, w);
      PDouble(w);
      FillTop(v / 2, if a == 0 then 0 else a - 1, w - 1);
    } else {
      NoBits(v, a);
      NoBits(v / 2, 0);
    }
  }

  lemma {:induction false} FilledSuccessor(v: nat, x: nat, a: nat, w: nat)
    requires a <= w && x < P(a)
    requires Rev(x, a) == Inc(Rev(Low(v, a), a), a)
    ensures Rev(x, w) == Inc(Rev(Fill(v, a, w), w), w)
  {
    hide P, Rev, Fill, Low;
    if w == a {
      FillSelf(v, a);
    } else {
      FilledSuccessor(v, x, a, w - 1);
      FillTop(v, a, w - 1);
      RevTop(Fill(v, a, w), w);
      PDouble(w);
      if a < w - 1 {
        PMonotone(a, w - 1);
      }
      RevTop(x, w);
    }
  }

  lemma {:induction false} RevZero(w: nat)
    ensures Rev(0, w) == 0
  {
    if w > 0 {
      RevZero(w - 1);
    }
  }

  /** Words whose reversal lies between v and the filled v agree with v on the low a bits. */
  lemma {:induction false} BlockSharesBucket(v: nat, h: nat, a: nat, w: nat)
    requires a <= w
    requires Rev(v, w) <= Rev(h, w) <= Rev(Fill(v, a, w), w)
    ensures Low(h, a) == Low(v, a)
  {
    hide P, Rev, Fill, Low;
    if a > 0 {
      FillStep(v, a, w);
      LowStep(h, a);
      LowStep(v, a);
      RevStep(v, w);
      RevStep(h, w);
      RevStep(Fill(v, a, w), w);
      BlockSharesBucket(v / 2, h / 2, a - 1, w - 1);
    } else {
      NoBits(h, 0);
      NoBits(v, 0);
    }
  }

  // ---- the expansions of a bucket in the larger table ----

  /** The bits of v between a and b are a run of ones followed by zeros. */
  predicate OnesThenZeros(v: nat, a: nat, b: nat)
    requires a <= b
  {
    if a > 0 then OnesThenZeros(v / 2, a - 1, b - 1)
    else if b == 0 then true
    else if v % 2 == 1 then OnesThenZeros(v / 2, 0, b - 1)
    else Low(v, b) == 0
  }

  /** A larger table of exactly twice the size always meets the condition. */
  lemma {:induction false} TwiceIsOnesThenZeros(v: nat, a: nat)
    ensures OnesThenZeros(v, a, a + 1)
  {
    if a > 0 {
      TwiceIsOnesThenZeros(v / 2, a - 1);
    } else {
      assert Low(v, 1) == v % 2 + 2 * Low(v / 2, 0);
    }
  }

  /** So does a cursor with no bit set in m0 ^ m1. */
  lemma {:induction false} NoBitsIsOnesThenZeros(v: nat, a: nat, b: nat)
    requires a <= b && Low(v, a) == Low(v, b)
    ensures OnesThenZeros(v, a, b)
  {
    if a > 0 {
      NoBitsIsOnesThenZeros(v / 2, a - 1, b - 1);
    }
  }

  /** Under the condition, no expansion still to be scanned lies below the cursor. */
  lemma {:induction false} PendingAboveCursor(v: nat, h: nat, a: nat, b: nat, w: nat)
    requires a <= b <= w
    requires OnesThenZeros(v, a, b)
    requires Low(h, a) == Low(v, a) && Rev(v, w) <= Rev(h, w)
    ensures Low(v, b) <= Low(h, b)
  {
    hide P, Low, Rev;
    if b > 0 {
      LowStep(v, b);
      LowStep(h, b);
      RevStep(v, w);
      RevStep(h, w);
      if a > 0 {
        LowStep(v, a);
        LowStep(h, a);
        PendingAboveCursor(v / 2, h / 2, a - 1, b - 1, w - 1);
      } else if v % 2 == 1 {
        NoBits(v / 2, 0);
        NoBits(h / 2, 0);
        PendingAboveCursor(v / 2, h / 2, 0, b - 1, w - 1);
      }
    } else {
      NoBits(v, 0);
      NoBits(h, 0);
    }
  }

  /** Without it, some hash still to be scanned lies below the cursor. */
  function Missed(v: nat, a: nat, b: nat): nat
    requires a <= b
  {
    if a > 0 then v % 2 + 2 * Missed(v / 2, a - 1, b - 1)
    else if b > 0 && v % 2 == 1 then 1 + 2 * Missed(v / 2, 0, b - 1)
    else 1
  }

  lemma {:induction false} MissedBelow(v: nat, a: nat, b: nat)
    requires a <= b
    requires !OnesThenZeros(v, a, b)
    ensures Missed(v, a, b) < P(b)
    ensures Low(Missed(v, a, b), a) == Low(v, a)
    ensures Missed(v, a, b) < Low(v, b)
  {
    hide P, Low;
    NoBits(v, 0);
    NoBits(Missed(v, a, b), 0);
    if b > 0 {
      PDouble(b);
      LowStep(v, b);
      if a > 0 {
        MissedBelow(v / 2, a - 1, b - 1);
        LowStep(v, a);
        LowStep(Missed(v, a, b), a);
        Digit2(v % 2, Missed(v / 2, a - 1, b - 1));
      } else if v % 2 == 1 {
        NoBits(v / 2, 0);
        MissedBelow(v / 2, 0, b - 1);
      }
    }
  }

  lemma {:induction false} FillAgrees(v: nat, h: nat, a: nat, w: nat)
    requires a <= w && Low(h, a) == Low(v, a)
    ensures Fill(h, a, w) == Fill(v, a, w)
  {
    hide P, Fill, Low;
    if w > 0 {
      FillStep(h, a, w);
      FillStep(v, a, w);
      if a > 0 {
        LowStep(h, a);
        LowStep(v, a);
        FillAgrees(v / 2, h / 2, a - 1, w - 1);
      } else {
        NoBits(h / 2, 0);
        NoBits(v / 2, 0);
        FillAgrees(v / 2, h / 2, 0, w - 1);
      }
    } else {
      NoBits(h, a);
      NoBits(v, a);
    }
  }

  lemma {:induction false} MissedAfter(v: nat, a: nat, b: nat, w: nat)
    requires a <= b <= w
    requires !OnesThenZeros(v, a, b)
    ensures Rev(v, w) < Rev(Missed(v, a, b), w)
  {
    hide P, Low, Rev;
    NoBits(v, 0);
    if b > 0 {
      RevStep(v, w);
      RevStep(Missed(v, a, b), w);
      if a > 0 {
        Digit2(v % 2, Missed(v / 2, a - 1, b - 1));
        MissedAfter(v / 2, a - 1, b - 1, w - 1);
      } else if v % 2 == 1 {
        Digit2(1, Missed(v / 2, 0, b - 1));
        MissedAfter(v / 2, 0, b - 1, w - 1);
      }
    }
  }

  /** It is reached by the same call, since it shares the bucket of the smaller table. */
  lemma MissedIsPending(v: nat, a: nat, b: nat, w: nat)
    requires a <= b <= w
    requires !OnesThenZeros(v, a, b)
    ensures Rev(v, w) < Rev(Missed(v, a, b), w) <= Rev(Fill(v, a, w), w)
  {
    MissedBelow(v, a, b);
    MissedAfter(v, a, b, w);
    RevFill(Missed(v, a, b), a, w);
    FillAgrees(v, Missed(v, a, b), a, w);
  }

  // ---- stepping through the expansions ----

  /** Adding one above bit a, leaving the low a bits alone. */
  function StepHigh(v: nat, a: nat, w: nat): nat
    requires a <= w && v < P(w)
  {
    if a == 0 then Inc(v, w) else v % 2 + 2 * StepHigh(v / 2, a - 1, w - 1)
  }

  lemma {:induction false} NextExpansionIsStep(v: nat, a: nat, w: nat)
    requires a <= w && v < P(w)
    ensures NextExpansion(v, a, w) == StepHigh(v, a, w)
  {
    hide P, And, Or, Not, NextExpansion, Inc;
    if a == 0 {
      NextExpansionWhole(v, w);
    } else {
      PDouble(w);
      Halve(v, P(w - 1));
      NextExpansionBit(v, a, w);
      NextExpansionIsStep(v / 2, a - 1, w - 1);
    }
  }

  lemma NextExpansionWhole(v: nat, w: nat)
    requires v < P(w)
    ensures NextExpansion(v, 0, w) == Inc(v, w)
  {
    hide P, And, Or, Not;
    NoBits(0, 0);
    OrNothing(v, w);
    AndAll(Inc(v, w), w);
    AndNothing(v, w);
    OrNothing(Inc(v, w), w);
  }

  /** The lowest bit of the cursor stays, and the rest takes the same step one bit lower. */
  lemma NextExpansionBit(v: nat, a: nat, w: nat)
    requires 0 < a <= w
    ensures NextExpansion(v, a, w) == v % 2 + 2 * NextExpansion(v / 2, a - 1, w - 1)
  {
    hide P, And, Or, Not, Inc;
    var m, m' := P(a) - 1, P(a - 1) - 1;
    MaskStep(a);
    OrStep(v, m, w);
    OrBound(v / 2, m', w - 1);
    IncOdd(Or(v / 2, m', w - 1), w);
    NotStep(m, w);
    AndStep(Inc(Or(v, m, w), w), Not(m, w), w);
    AndStep(v, m, w);
    OrStep(And(Inc(Or(v, m, w), w), Not(m, w), w), And(v, m, w), w);
  }

  lemma IncOdd(x: nat, w: nat)
    requires w > 0 && x < P(w - 1)
    ensures Inc(1 + 2 * x, w) == 2 * Inc(x, w - 1) && Inc(1 + 2 * x, w) % 2 == 0
    ensures Inc(1 + 2 * x, w) / 2 == Inc(x, w - 1)
  {
    hide P;
    PDouble(w);
    Digit2(0, Inc(x, w - 1));
  }

  /** One step visits the next expansion, or wraps back to the low part when the previous
      expansion was the last one. */
  lemma {:induction false} StepHighLow(v: nat, a: nat, b: nat, w: nat)
    requires a <= b <= w && v < P(w)
    ensures StepHigh(v, a, w) < P(w)
    ensures Low(StepHigh(v, a, w), a) == Low(v, a)
    ensures Low(StepHigh(v, a, w), b)
         == if Low(v, b) + P(a) < P(b) then Low(v, b) + P(a) else Low(v, a)
  {
    hide P, Low, Inc;
    if a > 0 {
      PDouble(a);
      PDouble(b);
      PDouble(w);
      Halve(v, P(w - 1));
      StepHighLow(v / 2, a - 1, b - 1, w - 1);
      var u := StepHigh(v / 2, a - 1, w - 1);
      Digit2(v % 2, u);
      LowStep(v % 2 + 2 * u, a);
      LowStep(v % 2 + 2 * u, b);
      LowStep(v, a);
      LowStep(v, b);
    } else {
      NoBits(v, 0);
      NoBits(Inc(v, w), 0);
      IncBound(v, w);
      IncLow(v, b, w);
    }
  }

  lemma IncBound(v: nat, w: nat)
    requires v < P(w)
    ensures Inc(v, w) < P(w)
  {
    hide P;
  }

  lemma {:induction false} IncLow(v: nat, b: nat, w: nat)
    requires b <= w && v < P(w)
    ensures Low(Inc(v, w), b) == if Low(v, b) + 1 < P(b) then Low(v, b) + 1 else 0
  {
    hide P, Low, Inc;
    if b > 0 {
      PDouble(b);
      PDouble(w);
      Halve(v, P(w - 1));
      LowStep(v, b);
      LowStep(Inc(v, w), b);
      if v % 2 == 1 {
        IncOdd(v / 2, w);
        IncLow(v / 2, b - 1, w - 1);
      } else {
        IncEven(v / 2, w);
      }
    } else {
      NoBits(v, 0);
      NoBits(Inc(v, w), 0);
    }
  }

  lemma IncEven(x: nat, w: nat)
    requires w > 0
    ensures Inc(2 * x, w) == 1 + 2 * x && Inc(2 * x, w) % 2 == 1 && Inc(2 * x, w) / 2 == x
  {
    hide P;
    PDouble(w);
    Digit2(1, x);
  }

  lemma {:induction false} XorMasks(a: nat, b: nat, w: nat)
    requires a <= b <= w
    ensures P(a) <= P(b)
    ensures Xor(P(a) - 1, P(b) - 1, w) == P(b) - P(a)
  {
    hide P, Xor;
    NoBits(0, 0);
    if w > 0 {
      XorStep(P(a) - 1, P(b) - 1, w);
      XorMasks(if a == 0 then 0 else a - 1, if b == 0 then 0 else b - 1, w - 1);
      if a > 0 {
        MaskStep(a);
      }
      if b > 0 {
        MaskStep(b);
      }
    }
  }

  /** v & (m0 ^ m1) is what the larger mask adds to the smaller one. */
  lemma {:induction false} FieldValue(v: nat, a: nat, b: nat, w: nat)
    requires a <= b <= w
    ensures P(a) <= P(b)
    ensures And(v, P(b) - P(a), w) + Low(v, a) == Low(v, b)
  {
    hide P, And, Low;
    NoBits(v, 0);
    if a > 0 {
      PDouble(a);
      PDouble(b);
      LowStep(v, a);
      LowStep(v, b);
      FieldValue(v / 2, a - 1, b - 1, w - 1);
      AndStep(v, P(b) - P(a), w);
      Digit2(0, P(b - 1) - P(a - 1));
    } else {
      AndMask(v, b, w);
    }
  }
}
