/**
 * Fixed-width integers and their big-endian two's-complement byte encodings,
 * as the byteorder crate reads and writes them for the codec.
 */
module Bytes {

  type u8 = x: int | 0 <= x < 0x100
  type u16 = x: int | 0 <= x < 0x1_0000
  type u32 = x: int | 0 <= x < 0x1_0000_0000
  type u64 = x: int | 0 <= x < 0x1_0000_0000_0000_0000
  type i8 = x: int | -0x80 <= x < 0x80
  type i16 = x: int | -0x8000 <= x < 0x8000
  type i32 = x: int | -0x8000_0000 <= x < 0x8000_0000
  type i64 = x: int | -0x8000_0000_0000_0000 <= x < 0x8000_0000_0000_0000

  /** 256 to the power `w`: the number of distinct `w`-byte values. */
  function Pow256(w: nat): (p: nat)
    ensures p >= 1
  {
    if w == 0 then 1 else 256 * Pow256(w - 1)
  }

  /** The four widths the wire format uses. */
  lemma Pow256Widths()
    ensures Pow256(1) == 0x100
    ensures Pow256(2) == 0x1_0000
    ensures Pow256(4) == 0x1_0000_0000
    ensures Pow256(8) == 0x1_0000_0000_0000_0000
  {
    assert Pow256(3) == 0x100_0000;
    assert Pow256(5) == 0x100_0000_0000;
    assert Pow256(6) == 0x1_0000_0000_0000;
    assert Pow256(7) == 0x100_0000_0000_0000;
  }

  /** The unsigned value of a big-endian byte string. */
  function FromBE(bs: seq<u8>): (n: nat)
    ensures n < Pow256(|bs|)
  {
    if bs == [] then 0 else FromBE(bs[..|bs| - 1]) * 256 + bs[|bs| - 1]
  }

  /**
   * The low `w` bytes of `n`, most significant first. For a negative `n` this
   * is its two's-complement pattern, and a value that does not fit in `w`
   * bytes is truncated, as Rust's `as` casts do.
   */
  function ToBE(n: int, w: nat): (bs: seq<u8>)
    ensures |bs| == w
    decreases w
  {
    if w == 0 then [] else ToBE(n / 256, w - 1) + [n % 256]
  }

  /** Two's-complement reading of an unsigned `w`-byte value. */
  function ToSigned(u: nat, w: nat): (v: int)
    requires 1 <= w && u < Pow256(w)
    ensures -(Pow256(w) / 2) <= v < Pow256(w) / 2
  {
    Pow256Even(w);
    if u < Pow256(w) / 2 then u else u - Pow256(w)
  }

  /** A positive width gives an even number of values, so the signed range splits it exactly. */
  lemma Pow256Even(w: nat)
    requires 1 <= w
    ensures Pow256(w) == 2 * (Pow256(w) / 2)
  {
    var h := Pow256(w - 1);
    assert Pow256(w) == 2 * (128 * h) + 0;
    ModOfDecomposition(Pow256(w), 2, 128 * h, 0);
  }

  /** Euclidean division is unique: the quotient-remainder pair determines `%`. */
  lemma ModOfDecomposition(n: int, d: int, q: int, r: int)
    requires 0 < d && n == d * q + r && 0 <= r < d
    ensures n % d == r && n / d == q
  {
    var q', r' := n / d, n % d;
    assert d * q' + r' == n;
    var k := q' - q;
    assert d * q' == d * q + d * k;
    assert d * k == r - r';
    if k > 0 {
      MulAtLeast(d, k);
    } else if k < 0 {
      assert d * (-k) == -(d * k);
      MulAtLeast(d, -k);
    }
  }

  lemma MulAtLeast(d: int, k: int)
    requires 0 < d && 0 < k
    ensures d * k >= d
  {
    assert d * k == d * (k - 1) + d;
  }

  /** Decoding an encoding gives back the value modulo the width. */
  lemma {:induction false} FromToBE(n: int, w: nat)
    ensures FromBE(ToBE(n, w)) == n % Pow256(w)
    decreases w
  {
    if w == 0 {
    } else {
      var q, r := n / 256, n % 256;
      var front := ToBE(q, w - 1);
      assert ToBE(n, w) == front + [r];
      assert (front + [r])[..w - 1] == front;
      assert FromBE(front + [r]) == FromBE(front) * 256 + r;
      FromToBE(q, w - 1);
      var p := Pow256(w - 1);
      DivMod(q, p);
      Regroup(n, p, q / p, q % p, r);
    }
  }

  lemma DivMod(q: int, p: int)
    requires 1 <= p
    ensures q == p * (q / p) + q % p && 0 <= q % p < p
  {
  }

  /** Splitting a quotient by 256 once more: the remainder modulo `256 * p`. */
  lemma Regroup(n: int, p: int, a: int, b: int, r: int)
    requires 1 <= p && 0 <= b < p && 0 <= r < 256
    requires n == 256 * (p * a + b) + r
    ensures n % (256 * p) == b * 256 + r
  {
    assert 256 * (p * a) == (256 * p) * a;
    assert n == (256 * p) * a + (b * 256 + r);
    ModOfDecomposition(n, 256 * p, a, b * 256 + r);
  }

  /** Encoding a decoded byte string at its own width gives the same bytes. */
  lemma {:induction false} ToFromBE(bs: seq<u8>)
    ensures ToBE(FromBE(bs), |bs|) == bs
  {
    if bs != [] {
      var w := |bs|;
      var f := FromBE(bs[..w - 1]);
      ModOfDecomposition(f * 256 + bs[w - 1], 256, f, bs[w - 1]);
      ToFromBE(bs[..w - 1]);
      assert bs == bs[..w - 1] + [bs[w - 1]];
    }
  }

  /** A signed value survives being written and read back at a width it fits. */
  lemma SignedRoundTrip(v: int, w: nat)
    requires 1 <= w && -(Pow256(w) / 2) <= v < Pow256(w) / 2
    ensures FromBE(ToBE(v, w)) < Pow256(w)
    ensures ToSigned(FromBE(ToBE(v, w)), w) == v
  {
    FromToBE(v, w);
    var p := Pow256(w);
    if v < 0 {
      ModOfDecomposition(v, p, -1, v + p);
    } else {
      ModOfDecomposition(v, p, 0, v);
    }
  }
}
