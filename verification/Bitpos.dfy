/** Finding the first bit of a value: skipping whole words and then scanning one word finds what
    scanning bit by bit would. */
module Bitpos {
  import opened Memory
  import opened Words
  import opened BitString

  /** Every bit before i differs from the one sought. */
  ghost predicate NoneBefore(s: Bytes, i: nat, bit: nat) { forall k :: 0 <= k < i ==> BitAt(s, k) != bit }

  /** Bit i counted from byte p. */
  function After(s: Bytes, p: nat, i: nat): nat { BitAt(s, 8 * p + i) }

  /** Bit i of an n-byte word, counted from the top. */
  function Top(word: nat, n: nat, i: nat): nat
    requires i < 8 * n
  {
    Bit(word, 8 * n - 1 - i)
  }

  // ---- bytes that are skipped ----

  function Skip(bit: nat): Byte { if bit == 1 then 0 else 255 }

  lemma {:induction false} OneBits(n: nat, k: nat)
    requires k < n
    ensures Bit(P(n) - 1, k) == 1
  {
    hide P;
    MaskStep(n);
    if k > 0 {
      OneBits(n - 1, k - 1);
    }
  }

  lemma P8()
    ensures P(8) == 256
  {
    hide P;
    Pow256Is(1);
    assert Pow256(1) == 256;
  }

  lemma SkippedBit(bit: nat, k: nat)
    requires bit <= 1 && k < 8
    ensures Bit(Skip(bit), k) != bit
  {
    hide P, Bit;
    P8();
    ZeroBits(k);
    OneBits(8, k);
  }

  /** A skipped byte holds no bit of the value sought. */
  lemma SkipByte(s: Bytes, p: nat, bit: nat)
    requires bit <= 1 && p < |s| && s[p] == Skip(bit) && NoneBefore(s, 8 * p, bit)
    ensures NoneBefore(s, 8 * (p + 1), bit)
  {
    hide Bit, Skip;
    forall k | 0 <= k < 8 * (p + 1)
      ensures BitAt(s, k) != bit
    {
      if k >= 8 * p {
        SkippedBit(bit, 7 - k % 8);
      }
    }
  }

  lemma {:induction false} SkipBytes(s: Bytes, p: nat, n: nat, bit: nat)
    requires bit <= 1 && p + n <= |s| && NoneBefore(s, 8 * p, bit) && forall i :: p <= i < p + n ==> s[i] == Skip(bit)
    ensures NoneBefore(s, 8 * (p + n), bit)
  {
    hide NoneBefore;
    if n > 0 {
      SkipBytes(s, p, n - 1, bit);
      SkipByte(s, p + n - 1, bit);
    }
  }

  lemma {:induction false} ZeroIs(x: nat, n: nat)
    requires x < P(n) && forall i :: 0 <= i < n ==> Bit(x, i) == 0
    ensures x == 0
  {
    if n > 0 {
      assert Bit(x, 0) == 0;
      forall i | 0 <= i < n - 1
        ensures Bit(x / 2, i) == 0
      {
        assert Bit(x, i + 1) == 0;
      }
      ZeroIs(x / 2, n - 1);
    }
  }

  lemma {:induction false} OnesIs(x: nat, n: nat)
    requires x < P(n) && forall i :: 0 <= i < n ==> Bit(x, i) == 1
    ensures x == P(n) - 1
  {
    if n > 0 {
      assert Bit(x, 0) == 1;
      forall i | 0 <= i < n - 1
        ensures Bit(x / 2, i) == 1
      {
        assert Bit(x, i + 1) == 1;
      }
      OnesIs(x / 2, n - 1);
    }
  }

  /** A byte without a bit of the value sought is one that is skipped. */
  lemma SkippedByte(b: Byte, bit: nat)
    requires bit <= 1 && forall i :: 0 <= i < 8 ==> Bit(b, i) != bit
    ensures b == Skip(bit)
  {
    hide P, Bit;
    P8();
    forall i | 0 <= i < 8
      ensures Bit(b, i) == 1 - bit
    {
      BitIsBit(b, i);
    }
    if bit == 1 {
      ZeroIs(b, 8);
    } else {
      OnesIs(b, 8);
    }
  }

  // ---- the word at byte p ----

  ghost predicate Holds(s: Bytes, p: nat, word: nat, n: nat) {
    forall i :: 0 <= i < 8 * n ==> Top(word, n, i) == After(s, p, i)
  }

  lemma AfterByte(s: Bytes, p: nat, n: nat, i: nat)
    requires 8 * n <= i < 8 * n + 8
    ensures After(s, p, i) == Bit(ByteOr0(s, p + n), 7 - (i - 8 * n))
  {
    hide Bit;
    assert (8 * p + i) / 8 == p + n && (8 * p + i) % 8 == i - 8 * n;
    ZeroBits(7 - (i - 8 * n));
  }

  lemma HoldsMore(s: Bytes, p: nat, word: nat, n: nat)
    requires Holds(s, p, word, n)
    ensures Holds(s, p, 256 * word + ByteOr0(s, p + n), n + 1)
  {
    hide Bit, After, ByteOr0;
    var b := ByteOr0(s, p + n);
    forall i | 0 <= i < 8 * (n + 1)
      ensures Top(256 * word + b, n + 1, i) == After(s, p, i)
    {
      BitBy256(b, word, 8 * (n + 1) - 1 - i);
      if i < 8 * n {
        assert Top(word, n, i) == After(s, p, i);
      } else {
        AfterByte(s, p, n, i);
      }
    }
  }

  /** If no bit of the word at p is the one sought, its bytes are all ones to skip. */
  lemma SkippedWord(s: Bytes, p: nat, bit: nat)
    requires bit <= 1 && p <= |s| && forall i :: 0 <= i < 64 ==> After(s, p, i) != bit
    ensures forall q :: p <= q < p + 8 ==> ByteOr0(s, q) == Skip(bit)
    ensures bit == 0 ==> |s| - p >= 8
  {
    hide Bit, After;
    forall q | p <= q < p + 8
      ensures ByteOr0(s, q) == Skip(bit)
    {
      forall i | 0 <= i < 8
        ensures Bit(ByteOr0(s, q), i) != bit
      {
        AfterByte(s, p, q - p, 8 * (q - p) + (7 - i));
      }
      SkippedByte(ByteOr0(s, q), bit);
    }
    assert ByteOr0(s, |s|) == 0;
  }

  lemma NoneUpTo(s: Bytes, p: nat, j: nat, bit: nat)
    requires NoneBefore(s, 8 * p, bit) && forall i :: 0 <= i < j ==> After(s, p, i) != bit
    ensures NoneBefore(s, 8 * p + j, bit)
  {
    hide BitAt;
    forall k | 0 <= k < 8 * p + j
      ensures BitAt(s, k) != bit
    {
      if k >= 8 * p {
        assert After(s, p, k - 8 * p) != bit;
      }
    }
  }

  lemma Padding(s: Bytes, k: nat)
    requires k >= 8 * |s|
    ensures BitAt(s, k) == 0
  {
  }

  /** Either the bit lies within the string, or it is the zero that follows it. */
  lemma Within(s: Bytes, k: nat, bit: nat)
    requires NoneBefore(s, k, bit) && BitAt(s, k) == bit <= 1
    ensures k <= 8 * |s|
  {
    hide BitAt;
    Padding(s, 8 * |s|);
    if k >= 8 * |s| {
      Padding(s, k);
    }
  }

  // ---- the search ----

  /** The word scan: the highest bit of the value sought. */
  method ScanWord(word: nat, bit: nat) returns (j: nat)
    requires bit <= 1
    ensures j <= 64 && (forall k :: 0 <= k < j ==> Top(word, 8, k) != bit) && (j < 64 ==> Top(word, 8, j) == bit)
  {
    hide Top;
    j := 0;
    while j < 64
      invariant 0 <= j <= 64 && forall k :: 0 <= k < j ==> Top(word, 8, k) != bit
    {
      if Top(word, 8, j) == bit { return; }
      j := j + 1;
    }
  }

  /** Skipping bytes and words of no interest. */
  method SkipWords(s: Bytes, bit: nat, address: nat) returns (p: nat)
    requires bit <= 1
    ensures p <= |s| && NoneBefore(s, 8 * p, bit)
    ensures !(|s| - p >= 8 && forall i :: p <= i < p + 8 ==> s[i] == Skip(bit))
  {
    hide NoneBefore, Skip;
    p := 0;
    NoneYet(s, bit);
    while (address + p) % 8 != 0 && p < |s| && s[p] == Skip(bit)
      invariant p <= |s| && NoneBefore(s, 8 * p, bit)
      decreases |s| - p
    {
      SkipByte(s, p, bit);
      p := p + 1;
    }
    while |s| - p >= 8 && (forall i :: p <= i < p + 8 ==> s[i] == Skip(bit))
      invariant p <= |s| && NoneBefore(s, 8 * p, bit)
    {
      SkipBytes(s, p, 8, bit);
      p := p + 8;
    }
  }

  /** Loading up to eight bytes with the first on top. */
  method LoadWord(s: Bytes, p: nat) returns (word: nat)
    ensures Holds(s, p, word, 8) && word < P(64)
  {
    hide P, Holds, ByteOr0;
    word := 0;
    HoldsNothing(s, p);
    for j := 0 to 8
      invariant Holds(s, p, word, j) && word < Pow256(j)
    {
      HoldsMore(s, p, word, j);
      word := 256 * word + ByteOr0(s, p + j);
    }
    Pow256Is(8);
  }

  /** redisBitpos, for a string that starts at an address with the given remainder modulo 8. The
      answer is the first bit of the value; a one may be missing, a zero never is, since the
      string is followed by zeroes. The panic at the end is never reached. */
  method RedisBitpos(s: Bytes, bit: nat, address: nat) returns (pos: int)
    requires bit <= 1
    ensures pos >= -1 && (pos == -1 ==> bit == 1 && forall k: nat :: BitAt(s, k) == 0)
    ensures pos >= 0 ==> BitAt(s, pos) == bit && NoneBefore(s, pos, bit) && pos <= 8 * |s|
  {
    hide P, Holds, BitAt, NoneBefore, Top, Skip;
    var p := SkipWords(s, bit, address);
    var word := LoadWord(s, p);
    if bit == 1 && word == 0 {
      AllZero(s, p);
      return -1;
    }
    var j := ScanWord(word, bit);
    Found(s, p, word, bit, j);
    return 8 * p + j;
  }

  /** No one in the last word: none in the string. */
  lemma AllZero(s: Bytes, p: nat)
    requires p <= |s| && NoneBefore(s, 8 * p, 1) && Holds(s, p, 0, 8)
    requires !(|s| - p >= 8 && forall i :: p <= i < p + 8 ==> s[i] == Skip(1))
    ensures forall k: nat :: BitAt(s, k) == 0
  {
    hide BitAt;
    NoOnes(s, p);
    SkippedWord(s, p, 1);
    assert forall i :: p <= i < p + 8 && i < |s| ==> ByteOr0(s, i) == s[i];
    NoneUpTo(s, p, 64, 1);
    forall k: nat
      ensures BitAt(s, k) == 0
    {
      BitAtIsBit(s, k);
      if k >= 8 * p + 64 {
        Padding(s, k);
      }
    }
  }

  lemma NoOnes(s: Bytes, p: nat)
    requires Holds(s, p, 0, 8)
    ensures forall i :: 0 <= i < 64 ==> After(s, p, i) != 1
  {
    hide After, Bit;
    forall i | 0 <= i < 64
      ensures After(s, p, i) != 1
    {
      ZeroBits(8 * 8 - 1 - i);
      assert Top(0, 8, i) == After(s, p, i);
    }
  }

  /** The word scan finds the bit. */
  lemma Found(s: Bytes, p: nat, word: nat, bit: nat, j: nat)
    requires bit <= 1 && p <= |s| && NoneBefore(s, 8 * p, bit) && Holds(s, p, word, 8) && word < P(64)
    requires !(|s| - p >= 8 && forall i :: p <= i < p + 8 ==> s[i] == Skip(bit))
    requires !(bit == 1 && word == 0) && j <= 64
    requires (forall k :: 0 <= k < j ==> Top(word, 8, k) != bit) && (j < 64 ==> Top(word, 8, j) == bit)
    ensures BitAt(s, 8 * p + j) == bit && NoneBefore(s, 8 * p + j, bit) && 8 * p + j <= 8 * |s|
  {
    hide BitAt, P, NoneBefore, Top, Skip;
    if j == 64 {
      NotAll(s, p, word, bit);
    }
    assert forall i :: 0 <= i < 64 ==> Top(word, 8, i) == After(s, p, i);
    NoneUpTo(s, p, j, bit);
    Within(s, 8 * p + j, bit);
  }

  lemma NotAll(s: Bytes, p: nat, word: nat, bit: nat)
    requires bit <= 1 && p <= |s| && Holds(s, p, word, 8) && word < P(64)
    requires !(|s| - p >= 8 && forall i :: p <= i < p + 8 ==> s[i] == Skip(bit))
    requires !(bit == 1 && word == 0)
    ensures exists k :: 0 <= k < 64 && Top(word, 8, k) == bit
  {
    hide BitAt, P, Bit, After, Skip;
    assert forall i :: p <= i < p + 8 && i < |s| ==> ByteOr0(s, i) == s[i];
    if forall k :: 0 <= k < 64 ==> Top(word, 8, k) != bit {
      forall i | 0 <= i < 64
        ensures bit == 1 ==> Bit(word, i) == 0
      {
        assert Top(word, 8, 63 - i) != bit;
        BitIsBit(word, i);
      }
      if bit == 1 {
        ZeroIs(word, 64);
      } else {
        assert forall i :: 0 <= i < 64 ==> Top(word, 8, i) == After(s, p, i);
        SkippedWord(s, p, bit);
      }
      assert false;
    }
  }

  lemma NoneYet(s: Bytes, bit: nat)
    ensures NoneBefore(s, 0, bit)
  {
  }

  lemma HoldsNothing(s: Bytes, p: nat)
    ensures Holds(s, p, 0, 0) && Pow256(0) == 1
  {
  }
}
