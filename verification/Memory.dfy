/** Bytes and byte strings. */
module Memory {
  type Byte = b: int | 0 <= b < 256

  type Bytes = seq<Byte>

  lemma Associative(a: Bytes, b: Bytes, c: Bytes)
    ensures a + (b + c) == a + b + c
  {
  }

  function Pow256(w: nat): (r: nat)
    ensures r > 0
  {
    if w == 0 then 1 else 256 * Pow256(w - 1)
  }

  /** The low w bytes of a number, the least significant first. */
  function LowBytes(n: nat, w: nat): (r: Bytes)
    ensures |r| == w
  {
    if w == 0 then [] else [n % 256] + LowBytes(n / 256, w - 1)
  }

  function Unsigned(b: Bytes): nat {
    if b == [] then 0 else b[0] + 256 * Unsigned(b[1..])
  }

  lemma {:induction false} UnsignedLowBytes(n: nat, w: nat)
    requires n < Pow256(w)
    ensures Unsigned(LowBytes(n, w)) == n
  {
    if w > 0 {
      UnsignedLowBytes(n / 256, w - 1);
      assert LowBytes(n, w)[1..] == LowBytes(n / 256, w - 1);
    }
  }

  lemma {:induction false} UnsignedBound(s: Bytes)
    ensures Unsigned(s) < Pow256(|s|)
  {
    if s != [] {
      UnsignedBound(s[1..]);
    }
  }
}
