/** Bytes, big-endian unsigned integers and the 32-bit two's complement arithmetic of C# `int`. */
module Bytes {

  type byte = b: int | 0 <= b < 256
  type Bytes = seq<byte>

  const TWO31: nat := 0x8000_0000
  const TWO32: nat := 0x1_0000_0000

  /** C# `int`: a 32-bit two's complement integer. */
  type int32 = i: int | -0x8000_0000 <= i < 0x8000_0000

  function Pow256(k: nat): (r: nat)
    ensures r >= 1
  {
    if k == 0 then 1 else 256 * Pow256(k - 1)
  }

  /** The unsigned value of `bs` read most significant byte first. */
  function BigEndian(bs: Bytes): nat
  {
    if |bs| == 0 then 0 else BigEndian(bs[..|bs| - 1]) * 256 + bs[|bs| - 1]
  }

  /** The low `len` bytes of `n`, most significant first. */
  function ToBigEndian(n: nat, len: nat): (r: Bytes)
    ensures |r| == len
  {
    if len == 0 then [] else ToBigEndian(n / 256, len - 1) + [n % 256]
  }

  lemma {:induction false} BigEndianBound(bs: Bytes)
    ensures BigEndian(bs) < Pow256(|bs|)
  {
    if |bs| > 0 {
      BigEndianBound(bs[..|bs| - 1]);
    }
  }

  /** Writing the low `len` bytes and reading them back gives `n` modulo 256^len. */
  lemma {:induction false} ToBigEndianValue(n: nat, len: nat)
    ensures BigEndian(ToBigEndian(n, len)) == n % Pow256(len)
  {
    if len > 0 {
      var r := ToBigEndian(n, len);
      assert r[..len - 1] == ToBigEndian(n / 256, len - 1);
      ToBigEndianValue(n / 256, len - 1);
      ModSplit(n, Pow256(len - 1));
    }
  }

  /** n mod (256 p) splits into the low byte and the remaining digits. */
  lemma ModSplit(n: nat, p: nat)
    requires p >= 1
    ensures n % (256 * p) == ((n / 256) % p) * 256 + n % 256
  {
    var q := n / 256;
    var lo := n % 256;
    var a := q / p;
    var b := q % p;
    assert n == (a * p + b) * 256 + lo;
    assert n == a * (256 * p) + (b * 256 + lo);
    assert 0 <= b * 256 + lo < 256 * p;
    DivModUnique(n, 256 * p, a, b * 256 + lo);
  }

  lemma DivModUnique(n: int, d: int, q: int, r: int)
    requires d > 0 && 0 <= r < d && n == q * d + r
    ensures n % d == r && n / d == q
  {
    var q0, r0 := n / d, n % d;
    assert (q - q0) * d == r0 - r by {
      assert n == q0 * d + r0;
      assert (q - q0) * d == q * d - q0 * d;
    }
    if q > q0 {
      MulAtLeast(q - q0, d);
    } else if q < q0 {
      MulAtLeast(q0 - q, d);
    }
  }

  /** Dividing by `a` and then by `b` is dividing by `a * b`. */
  lemma DivDiv(n: nat, a: nat, b: nat)
    requires a > 0 && b > 0
    ensures n / a / b == n / (a * b)
  {
    var q, m, r0 := n / a / b, (n / a) % b, n % a;
    assert n == a * (n / a) + r0;
    assert n / a == b * q + m;
    assert a * (b * q + m) == (a * b) * q + a * m by {
      MulDistrib(a, b * q, m);
    }
    MulAtMost(a, m, b - 1);
    assert a * (b - 1) == a * b - a;
    DivModUnique(n, a * b, q, a * m + r0);
  }

  lemma MulDistrib(a: int, x: int, y: int)
    ensures a * (x + y) == a * x + a * y
  {
  }

  lemma MulAtMost(a: nat, m: nat, k: nat)
    requires m <= k
    ensures a * m <= a * k
  {
  }

  lemma {:induction false} MulAtLeast(k: int, d: int)
    requires k >= 1 && d > 0
    ensures k * d >= d
    decreases k
  {
    if k > 1 {
      MulAtLeast(k - 1, d);
      assert k * d == (k - 1) * d + d;
    }
  }

  lemma {:induction false} ToBigEndianRoundTrip(n: nat, len: nat)
    requires n < Pow256(len)
    ensures BigEndian(ToBigEndian(n, len)) == n
  {
    ToBigEndianValue(n, len);
    DivModUnique(n, Pow256(len), 0, n);
  }

  /** Reinterprets an unsigned 32-bit pattern as a C# `int`. */
  function Int32Of(u: nat): int32
    requires u < TWO32
  {
    if u < TWO31 then u else u - TWO32
  }
}
