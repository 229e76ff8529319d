/** Counting the bits of a byte string: seven words at a time, with all bytes of a word counted
    in parallel, gives the number of ones. */
module Popcount {
  import opened Memory
  import opened Words
  import opened BitString

  function Ones(x: nat): nat { if x == 0 then 0 else x % 2 + Ones(x / 2) }

  /** The ones of a byte string, byte by byte. */
  function Count(s: Bytes): nat {
    if s == [] then 0 else Ones(s[0]) + Count(s[1..])
  }

  // ---- masks that repeat a digit ----

  /** The digit d, n times in a row in the given base. */
  function Repeat(d: nat, base: nat, n: nat): nat { if n == 0 then 0 else d + base * Repeat(d, base, n - 1) }

  lemma And2(x: nat, y: nat, w: nat)
    requires w >= 2
    ensures And(x, y, w) == And(x % 4, y % 4, 2) + 4 * And(x / 4, y / 4, w - 2)
  {
    hide And, Apply;
    Apply2(OpAnd, x, y, w);
    AndIs(x, y, w);
    AndIs(x % 4, y % 4, 2);
    AndIs(x / 4, y / 4, w - 2);
  }

  lemma And4(x: nat, y: nat, w: nat)
    requires w >= 4
    ensures And(x, y, w) == And(x % 16, y % 16, 4) + 16 * And(x / 16, y / 16, w - 4)
  {
    hide And, Apply;
    Apply4(OpAnd, x, y, w);
    AndIs(x, y, w);
    AndIs(x % 16, y % 16, 4);
    AndIs(x / 16, y / 16, w - 4);
  }

  lemma And8(x: nat, y: nat, w: nat)
    requires w >= 8
    ensures And(x, y, w) == And(x % 256, y % 256, 8) + 256 * And(x / 256, y / 256, w - 8)
  {
    hide And, Apply;
    Apply8(OpAnd, x, y, w);
    AndIs(x, y, w);
    AndIs(x % 256, y % 256, 8);
    AndIs(x / 256, y / 256, w - 8);
  }

  lemma AndNone(x: nat, y: nat)
    ensures And(x, y, 0) == 0
  {
  }

  lemma Masked(d: nat)
    ensures And(d, 1, 2) == d % 2 && And(d, 3, 4) == d % 4 && And(d, 15, 8) == d % 16
  {
    hide And;
    AndMask(d, 1, 2);
    AndMask(d, 2, 4);
    AndMask(d, 4, 8);
    SmallPowers();
    Low2(d);
    Low4(d);
  }

  lemma SmallPowers()
    ensures P(1) == 2 && P(2) == 4 && P(4) == 16
  {
    assert P(2) == 2 * P(1);
    assert P(3) == 2 * P(2);
    assert P(4) == 2 * P(3);
  }

  lemma Low2(d: nat)
    ensures Low(d, 1) == d % 2 && Low(d, 2) == d % 4
  {
    Div4(d);
    assert Low(d, 2) == d % 2 + 2 * Low(d / 2, 1);
    assert Low(d / 2, 1) == d / 2 % 2;
  }

  lemma Low4(d: nat)
    ensures Low(d, 4) == d % 16
  {
    hide Low;
    Div16(d);
    Div4(d);
    Low2(d / 4);
    LowTwice(d);
  }

  lemma LowTwice(d: nat)
    ensures Low(d, 4) == d % 4 + 4 * Low(d / 4, 2)
  {
    Div4(d);
    assert Low(d, 4) == d % 2 + 2 * Low(d / 2, 3);
    assert Low(d / 2, 3) == d / 2 % 2 + 2 * Low(d / 2 / 2, 2);
  }

  // ---- pairs, nibbles and bytes ----

  /** Each pair of bits replaced by the number of its ones. */
  function Pairs(x: nat, n: nat): nat { if n == 0 then 0 else (x % 4 - x % 4 / 2) + 4 * Pairs(x / 4, n - 1) }

  lemma HalfQuarter(x: nat)
    ensures x / 2 / 4 == x / 4 / 2 && x / 2 % 4 % 2 == x % 4 / 2
  {
  }

  lemma {:induction false} PairStep(x: nat, n: nat)
    requires x < P(2 * n)
    ensures And(x / 2, Repeat(1, 4, n), 2 * n) <= x && x - And(x / 2, Repeat(1, 4, n), 2 * n) == Pairs(x, n)
  {
    hide And;
    if n == 0 {
      AndNone(x / 2, 0);
    } else {
      var m := Repeat(1, 4, n - 1);
      And2(x / 2, 1 + 4 * m, 2 * n);
      Masked(x / 2 % 4);
      Digit4(1, m);
      Quarter(x, n);
      PairStep(x / 4, n - 1);
      HalfQuarter(x);
    }
  }

  /** The sum of the first n digits in base 4, 16 or 256. */
  function Sum4(x: nat, n: nat): nat { if n == 0 then 0 else x % 4 + Sum4(x / 4, n - 1) }

  function Sum16(x: nat, n: nat): nat { if n == 0 then 0 else x % 16 + Sum16(x / 16, n - 1) }

  function Sum256(x: nat, n: nat): nat { if n == 0 then 0 else x % 256 + Sum256(x / 256, n - 1) }

  /** The first n digits are at most c, and there are no more. */
  predicate Digits4(x: nat, n: nat, c: nat) { if n == 0 then x == 0 else x % 4 <= c && Digits4(x / 4, n - 1, c) }

  predicate Digits16(x: nat, n: nat, c: nat) { if n == 0 then x == 0 else x % 16 <= c && Digits16(x / 16, n - 1, c) }

  predicate Digits256(x: nat, n: nat, c: nat) {
    if n == 0 then x == 0 else x % 256 <= c && Digits256(x / 256, n - 1, c)
  }

  lemma {:induction false} PairsCount(x: nat, n: nat)
    requires x < P(2 * n)
    ensures Digits4(Pairs(x, n), n, 2) && Sum4(Pairs(x, n), n) == Ones(x)
  {
    if n > 0 {
      Quarter(x, n);
      PairsCount(x / 4, n - 1);
      Digit4(x % 4 - x % 4 / 2, Pairs(x / 4, n - 1));
      OnesPair(x);
      Div4(x);
    }
  }

  lemma Quarter(x: nat, n: nat)
    requires n > 0 && x < P(2 * n)
    ensures x / 4 < P(2 * (n - 1))
  {
    hide P;
    PTwice(2 * n - 2);
    assert 2 * n - 2 + 2 == 2 * n && 2 * n - 2 == 2 * (n - 1);
    Less4(x, P(2 * n - 2));
  }

  lemma Less4(x: nat, p: nat)
    requires x < 4 * p
    ensures x / 4 < p
  {
  }

  lemma Digit4(d: nat, q: nat)
    requires d < 4
    ensures (d + 4 * q) % 4 == d && (d + 4 * q) / 4 == q
  {
  }

  lemma Digit16(d: nat, q: nat)
    requires d < 16
    ensures (d + 16 * q) % 16 == d && (d + 16 * q) / 16 == q
  {
  }

  lemma OnesPair(x: nat)
    ensures Ones(x) == x % 2 + x / 2 % 2 + Ones(x / 4)
  {
    Div4(x);
    assert Ones(x) == x % 2 + Ones(x / 2);
    assert Ones(x / 2) == x / 2 % 2 + Ones(x / 2 / 2);
  }

  function Nibbles(y: nat, n: nat): nat { if n == 0 then 0 else (y % 4 + y / 4 % 4) + 16 * Nibbles(y / 16, n - 1) }

  lemma QuarterNibble(y: nat)
    ensures y / 4 / 16 == y / 16 / 4 && y % 16 % 4 == y % 4 && y / 4 % 16 % 4 == y / 4 % 4
  {
    Div16(y);
    Div16(y / 4);
  }

  lemma {:induction false} NibbleStep(y: nat, n: nat)
    ensures And(y, Repeat(3, 16, n), 4 * n) + And(y / 4, Repeat(3, 16, n), 4 * n) == Nibbles(y, n)
  {
    hide And;
    if n == 0 {
      AndNone(y, 0);
      AndNone(y / 4, 0);
    } else {
      var m := Repeat(3, 16, n - 1);
      And4(y, 3 + 16 * m, 4 * n);
      And4(y / 4, 3 + 16 * m, 4 * n);
      Masked(y % 16);
      Masked(y / 4 % 16);
      Digit16(3, m);
      NibbleStep(y / 16, n - 1);
      QuarterNibble(y);
    }
  }

  lemma {:induction false} NibblesCount(y: nat, n: nat)
    requires Digits4(y, 2 * n, 2)
    ensures Digits16(Nibbles(y, n), n, 4) && Sum16(Nibbles(y, n), n) == Sum4(y, 2 * n)
  {
    if n > 0 {
      Div16(y);
      assert Digits4(y / 4, 2 * n - 1, 2) && Digits4(y / 16, 2 * n - 2, 2);
      NibblesCount(y / 16, n - 1);
      Digit16(y % 4 + y / 4 % 4, Nibbles(y / 16, n - 1));
      assert Sum4(y, 2 * n) == y % 4 + (y / 4 % 4 + Sum4(y / 16, 2 * n - 2));
    }
  }

  function Octets(z: nat, n: nat): nat { if n == 0 then 0 else (z % 16 + z / 16 % 16) + 256 * Octets(z / 256, n - 1) }

  lemma {:induction false} OctetStep(z: nat, n: nat)
    requires Digits16(z, 2 * n, 4)
    ensures And(z + z / 16, Repeat(15, 256, n), 8 * n) == Octets(z, n)
  {
    hide And;
    if n == 0 {
      AndNone(z + z / 16, 0);
    } else {
      var m, t := Repeat(15, 256, n - 1), z + z / 16;
      Div256(z);
      assert Digits16(z / 16, 2 * n - 1, 4) && Digits16(z / 256, 2 * n - 2, 4);
      And8(t, 15 + 256 * m, 8 * n);
      Digit256(15, m);
      Carry(z);
      Masked(t % 256);
      OctetStep(z / 256, n - 1);
    }
  }

  lemma Carry(z: nat)
    requires z % 16 <= 4 && z / 16 % 16 <= 4 && z / 256 % 16 <= 4
    ensures (z + z / 16) / 256 == z / 256 + z / 256 / 16
    ensures (z + z / 16) % 256 % 16 == z % 16 + z / 16 % 16
  {
    var q, d1, d0 := z / 256, z / 16 % 16, z % 16;
    Div256(z);
    var e, h := q % 16, q / 16;
    var r := 16 * e + 16 * d1 + d0 + d1;
    assert z == 256 * q + 16 * d1 + d0 && z / 16 == 16 * q + d1 && q == 16 * h + e;
    assert z + z / 16 == r + 256 * (q + h);
    Digit256(r, q + h);
    Digit16(d0 + d1, e + d1);
  }

  lemma {:induction false} OctetsCount(z: nat, n: nat)
    requires Digits16(z, 2 * n, 4)
    ensures Digits256(Octets(z, n), n, 8) && Sum256(Octets(z, n), n) == Sum16(z, 2 * n)
  {
    if n > 0 {
      Div256(z);
      assert Digits16(z / 16, 2 * n - 1, 4) && Digits16(z / 256, 2 * n - 2, 4);
      OctetsCount(z / 256, n - 1);
      Digit256(z % 16 + z / 16 % 16, Octets(z / 256, n - 1));
      assert Sum16(z, 2 * n) == z % 16 + (z / 16 % 16 + Sum16(z / 256, 2 * n - 2));
    }
  }

  lemma Masks()
    ensures Repeat(1, 4, 16) == 0x55555555 && Repeat(3, 16, 8) == 0x33333333 && Repeat(15, 256, 4) == 0x0f0f0f0f
  {
    assert Repeat(1, 4, 1) == 0x1;
    assert Repeat(1, 4, 2) == 0x5;
    assert Repeat(1, 4, 3) == 0x15;
    assert Repeat(1, 4, 4) == 0x55;
    assert Repeat(1, 4, 5) == 0x155;
    assert Repeat(1, 4, 6) == 0x555;
    assert Repeat(1, 4, 7) == 0x1555;
    assert Repeat(1, 4, 8) == 0x5555;
    assert Repeat(1, 4, 9) == 0x15555;
    assert Repeat(1, 4, 10) == 0x55555;
    assert Repeat(1, 4, 11) == 0x155555;
    assert Repeat(1, 4, 12) == 0x555555;
    assert Repeat(1, 4, 13) == 0x1555555;
    assert Repeat(1, 4, 14) == 0x5555555;
    assert Repeat(1, 4, 15) == 0x15555555;
    assert Repeat(1, 4, 16) == 0x55555555;
    assert Repeat(3, 16, 1) == 0x3;
    assert Repeat(3, 16, 2) == 0x33;
    assert Repeat(3, 16, 3) == 0x333;
    assert Repeat(3, 16, 4) == 0x3333;
    assert Repeat(3, 16, 5) == 0x33333;
    assert Repeat(3, 16, 6) == 0x333333;
    assert Repeat(3, 16, 7) == 0x3333333;
    assert Repeat(3, 16, 8) == 0x33333333;
    assert Repeat(15, 256, 1) == 0xf;
    assert Repeat(15, 256, 2) == 0xf0f;
    assert Repeat(15, 256, 3) == 0xf0f0f;
    assert Repeat(15, 256, 4) == 0xf0f0f0f;
  }

  // ---- one word ----

  /** The ones of each byte of a 32-bit word, in that byte. */
  method CountBytes(word: nat) returns (r: nat)
    requires word < P(32)
    ensures Digits256(r, 4, 8) && Sum256(r, 4) == Ones(word)
  {
    hide And, Repeat, Pairs, Nibbles, Octets, Digits4, Digits16, Digits256, Sum4, Sum16, Sum256, Ones, P;
    Masks();
    PairStep(word, 16);
    PairsCount(word, 16);
    var aux := word - And(word / 2, 0x55555555, 32);
    NibbleStep(aux, 8);
    NibblesCount(aux, 8);
    aux := And(aux, 0x33333333, 32) + And(aux / 4, 0x33333333, 32);
    OctetStep(aux, 4);
    OctetsCount(aux, 4);
    r := And(aux + aux / 16, 0x0f0f0f0f, 32);
  }

  // ---- seven words ----

  lemma {:induction false} AddBytes(u: nat, v: nat, n: nat, c: nat, d: nat)
    requires Digits256(u, n, c) && Digits256(v, n, d) && c + d < 256
    ensures Digits256(u + v, n, c + d) && Sum256(u + v, n) == Sum256(u, n) + Sum256(v, n)
  {
    if n > 0 {
      AddDigits(u, v);
      AddBytes(u / 256, v / 256, n - 1, c, d);
    }
  }

  lemma AddDigits(u: nat, v: nat)
    requires u % 256 + v % 256 < 256
    ensures (u + v) % 256 == u % 256 + v % 256 && (u + v) / 256 == u / 256 + v / 256
  {
    Digit256(u % 256 + v % 256, u / 256 + v / 256);
    assert u + v == u % 256 + v % 256 + 256 * (u / 256 + v / 256);
  }

  /** Multiplying by 0x01010101 adds the four bytes up in the highest one. No carry reaches it,
      since the total is at most 4 * 56. */
  lemma Gather(t: nat)
    requires Digits256(t, 4, 56)
    ensures t * 0x01010101 % 0x1_0000_0000 / 0x100_0000 == Sum256(t, 4)
  {
    FourDigits(t, 56);
    var a, b, c, d := t % 256, t / 256 % 256, t / 256 / 256 % 256, t / 256 / 256 / 256 % 256;
    var low := a + 256 * (a + b) + 65536 * (a + b + c);
    var high := b + c + d + 256 * (c + d) + 65536 * d;
    assert t * 0x01010101 == low + 0x100_0000 * (a + b + c + d) + 0x1_0000_0000 * high;
    GatherDigits(low, a + b + c + d, high);
  }

  lemma GatherDigits(low: nat, mid: nat, high: nat)
    requires low < 0x100_0000 && mid < 256
    ensures (low + 0x100_0000 * mid + 0x1_0000_0000 * high) % 0x1_0000_0000 / 0x100_0000 == mid
  {
    assert low + 0x100_0000 * mid < 0x1_0000_0000;
    assert (low + 0x100_0000 * mid + 0x1_0000_0000 * high) % 0x1_0000_0000 == low + 0x100_0000 * mid;
  }

  lemma FourDigits(t: nat, bound: nat)
    requires Digits256(t, 4, bound)
    ensures var a, b, c, d := t % 256, t / 256 % 256, t / 256 / 256 % 256, t / 256 / 256 / 256 % 256;
      && t == a + 256 * b + 65536 * c + 0x100_0000 * d && Sum256(t, 4) == a + b + c + d
      && a <= bound && b <= bound && c <= bound && d <= bound
  {
    var t1, t2, t3 := t / 256, t / 256 / 256, t / 256 / 256 / 256;
    assert Digits256(t1, 3, bound) && Digits256(t2, 2, bound) && Digits256(t3, 1, bound);
    assert Sum256(t, 4) == t % 256 + Sum256(t1, 3);
    assert Sum256(t1, 3) == t1 % 256 + Sum256(t2, 2);
    assert Sum256(t2, 2) == t2 % 256 + Sum256(t3, 1);
    assert Digits256(t3 / 256, 0, bound);
    assert Sum256(t3, 1) == t3 % 256;
  }

  // ---- words in a byte string ----

  lemma OnesBy4(d: nat, q: nat)
    requires d < 4
    ensures Ones(d + 4 * q) == Ones(d) + Ones(q)
  {
    hide Ones;
    Digit4(d, q);
    Div4(d + 4 * q);
    Div4(d);
    OnesPair(d + 4 * q);
    OnesPair(d);
    OnesZero();
  }

  lemma OnesBy16(d: nat, q: nat)
    requires d < 16
    ensures Ones(d + 16 * q) == Ones(d) + Ones(q)
  {
    hide Ones;
    var d0, d1 := d % 4, d / 4;
    assert d == d0 + 4 * d1 && d + 16 * q == d0 + 4 * (d1 + 4 * q);
    OnesBy4(d0, d1);
    OnesBy4(d0, d1 + 4 * q);
    OnesBy4(d1, q);
  }

  lemma OnesBy256(d: nat, q: nat)
    requires d < 256
    ensures Ones(d + 256 * q) == Ones(d) + Ones(q)
  {
    hide Ones;
    var d0, d1 := d % 16, d / 16;
    assert d == d0 + 16 * d1 && d + 256 * q == d0 + 16 * (d1 + 16 * q);
    OnesBy16(d0, d1);
    OnesBy16(d0, d1 + 16 * q);
    OnesBy16(d1, q);
  }

  /** The ones of a word are those of its bytes. */
  lemma {:induction false} WordOnes(s: Bytes)
    ensures Ones(Unsigned(s)) == Count(s)
  {
    hide Ones, P;
    if s == [] {
      OnesZero();
    } else {
      WordOnes(s[1..]);
      OnesBy256(s[0], Unsigned(s[1..]));
    }
  }

  lemma OnesZero()
    ensures Ones(0) == 0
  {
  }

  lemma WordBound(s: Bytes)
    requires |s| == 4
    ensures Unsigned(s) < P(32)
  {
    UnsignedBound(s);
    Pow256Is(4);
  }

  lemma {:induction false} CountConcat(a: Bytes, b: Bytes)
    ensures Count(a + b) == Count(a) + Count(b)
  {
    hide Ones;
    if a == [] {
      assert a + b == b;
    } else {
      assert (a + b)[1..] == a[1..] + b;
      CountConcat(a[1..], b);
    }
  }

  /** One round of the fast loop: 28 bytes. */
  method CountRound(s: Bytes) returns (bits: nat)
    requires |s| == 28
    ensures bits == Count(s)
  {
    hide Ones, Digits256, Sum256, Unsigned, P, Count;
    var t := 0;
    NoBytes();
    assert s[..0] == [];
    for i := 0 to 7
      invariant Digits256(t, 4, 8 * i) && Sum256(t, 4) == Count(s[..4 * i])
    {
      var word := s[4 * i..4 * i + 4];
      WordBound(word);
      WordOnes(word);
      var aux := CountBytes(Unsigned(word));
      AddBytes(t, aux, 4, 8 * i, 8);
      CountConcat(s[..4 * i], word);
      assert s[..4 * (i + 1)] == s[..4 * i] + word;
      t := t + aux;
    }
    assert s[..28] == s;
    Gather(t);
    bits := t * 0x01010101 % 0x1_0000_0000 / 0x100_0000;
  }

  lemma NoBytes()
    ensures Digits256(0, 4, 0) && Sum256(0, 4) == 0 && Count([]) == 0
  {
    assert Digits256(0, 1, 0) && Digits256(0, 2, 0) && Digits256(0, 3, 0);
    assert Sum256(0, 1) == 0 && Sum256(0, 2) == 0 && Sum256(0, 3) == 0;
  }

  /** redisPopcount, for a string that starts at an address with the given remainder modulo 4. */
  method RedisPopcount(s: Bytes, address: nat) returns (bits: nat)
    ensures bits == Count(s)
  {
    hide Ones, Count;
    bits := 0;
    var p := 0;
    NoBytes();
    assert s[..0] == [];
    while (address + p) % 4 != 0 && p < |s|
      invariant 0 <= p <= |s| && bits == Count(s[..p])
      decreases |s| - p
    {
      CountNext(s, p);
      bits := bits + Ones(s[p]);
      p := p + 1;
    }
    while |s| - p >= 28
      invariant 0 <= p <= |s| && bits == Count(s[..p])
    {
      var n := CountRound(s[p..p + 28]);
      CountConcat(s[..p], s[p..p + 28]);
      assert s[..p + 28] == s[..p] + s[p..p + 28];
      bits := bits + n;
      p := p + 28;
    }
    while p < |s|
      invariant 0 <= p <= |s| && bits == Count(s[..p])
    {
      CountNext(s, p);
      bits := bits + Ones(s[p]);
      p := p + 1;
    }
    assert s[..p] == s;
  }

  lemma CountNext(s: Bytes, p: nat)
    requires p < |s|
    ensures Count(s[..p + 1]) == Count(s[..p]) + Ones(s[p])
  {
    hide Ones;
    assert s[..p + 1] == s[..p] + [s[p]];
    CountConcat(s[..p], [s[p]]);
    var t := [s[p]];
    assert t[1..] == [];
    assert Count(t) == Ones(t[0]) + Count(t[1..]);
  }
}
