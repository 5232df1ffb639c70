/**
 * `CoapOption`: one option instance (number and raw value), its three constructors
 * (string, byte string and integer value) and its format-aware `ToString`.
 */
module CoapOptions {
  import opened Bytes
  import opened Text

  // The option numbers of section 5.10 of RFC 7252.
  const IfMatch: nat := 1
  const UriHost: nat := 3
  const ETag: nat := 4
  const IfNoneMatch: nat := 5
  const UriPort: nat := 7
  const LocationPath: nat := 8
  const UriPath: nat := 11
  const ContentFormat: nat := 12
  const MaxAge: nat := 14
  const UriQuery: nat := 15
  const Accept: nat := 17
  const LocationQuery: nat := 20
  const ProxyUri: nat := 35
  const ProxyScheme: nat := 39
  const Size1: nat := 60

  /** The value formats of section 3.2 of RFC 7252. */
  datatype Format = EmptyFormat | Opaque | StringFormat | UintFormat | Unregistered

  /** The format column of the option table in section 5.10 of RFC 7252. */
  function FormatOf(number: nat): Format {
    if number in {UriHost, LocationPath, UriPath, UriQuery, LocationQuery, ProxyUri, ProxyScheme} then StringFormat
    else if number in {UriPort, ContentFormat, MaxAge, Accept, Size1} then UintFormat
    else if number in {IfMatch, ETag} then Opaque
    else if number == IfNoneMatch then EmptyFormat
    else Unregistered
  }

  /**
   * One option instance. The byte-string constructor is the datatype constructor itself;
   * the source's `Length` property is `|value|` by definition here.
   */
  datatype CoapOption = CoapOption(number: nat, value: Bytes) {
    function Length(): nat {
      |value|
    }
  }

  /**
   * The string constructor: the value holds the UTF-8 bytes of `s`.
   * DIVERGENCE (CoapOption.cs:20): the source sets `Length` to the UTF-16 length of `s`,
   * which differs from the byte count for non-ASCII text; here `Length` is the byte count.
   */
  function StringOption(number: nat, s: string): (o: CoapOption)
    ensures o.number == number && o.value == Utf8(s)
    ensures o.Length() >= |s|
    ensures IsAscii(s) ==> o.Length() == |s| && TextOf(o.value) == s
  {
    AsciiRoundTripIf(s);
    CoapOption(number, Utf8(s))
  }

  lemma AsciiRoundTripIf(s: string)
    ensures IsAscii(s) ==> TextOf(Utf8(s)) == s
  {
    if IsAscii(s) {
      AsciiRoundTrip(s);
    }
  }

  /**
   * The number of bytes the integer constructor writes: the fewest that hold a
   * non-negative `v`, and all four for a negative one.
   */
  function MinimalLength(v: int32): nat {
    if v < 0 then 4
    else if v == 0 then 0
    else if v < 0x100 then 1
    else if v < 0x1_0000 then 2
    else if v < 0x100_0000 then 3
    else 4
  }

  lemma Pow256Values()
    ensures Pow256(0) == 1 && Pow256(1) == 0x100 && Pow256(2) == 0x1_0000
    ensures Pow256(3) == 0x100_0000 && Pow256(4) == TWO32
  {
  }

  /**
   * The value the integer constructor stores: the 32-bit pattern of `v`, big-endian,
   * in `MinimalLength(v)` bytes.
   * DIVERGENCE (CoapOption.cs:31-48): the source never assigns `Number`; `UintOption` does.
   */
  function UintValue(v: int32): (r: Bytes)
    ensures |r| == MinimalLength(v) <= 4
    ensures BigEndian(r) == v % TWO32
    ensures v >= 0 ==> (|r| == 0 <==> v == 0)
    ensures v >= 0 && |r| > 0 ==> Pow256(|r| - 1) <= v < Pow256(|r|) && r[0] != 0
  {
    var n: nat := v % TWO32;
    var len := MinimalLength(v);
    Pow256Values();
    assert n < Pow256(len);
    ToBigEndianRoundTrip(n, len);
    var r := ToBigEndian(n, len);
    assert v >= 0 && len > 0 ==> r[0] != 0 by {
      if v >= 0 && len > 0 {
        LeadingByteNonZero(r);
      }
    }
    r
  }

  /** A big-endian string at least 256^(|bs|-1) in value cannot start with a zero byte. */
  lemma {:induction false} LeadingByteNonZero(bs: Bytes)
    requires |bs| > 0 && BigEndian(bs) >= Pow256(|bs| - 1)
    ensures bs[0] != 0
  {
    if bs[0] == 0 {
      LeadingZeroBound(bs);
    }
  }

  lemma {:induction false} LeadingZeroBound(bs: Bytes)
    requires |bs| > 0 && bs[0] == 0
    ensures BigEndian(bs) < Pow256(|bs| - 1)
  {
    if |bs| > 1 {
      var p := bs[..|bs| - 1];
      assert p[0] == 0;
      LeadingZeroBound(p);
      assert BigEndian(bs) == BigEndian(p) * 256 + bs[|bs| - 1];
      assert BigEndian(p) <= Pow256(|p| - 1) - 1;
      assert BigEndian(p) * 256 <= Pow256(|p| - 1) * 256 - 256;
    }
  }

  /** Byte `i` of `v`'s 32-bit pattern sits at `Value[len - 1 - i]`, as the source's shift loop writes it. */
  lemma UintValueBytes(v: int32)
    ensures var r := UintValue(v);
      forall i :: 0 <= i < |r| ==> r[|r| - 1 - i] == ((v % TWO32) / Pow256(i)) % 256
  {
    var r := UintValue(v);
    forall i | 0 <= i < |r|
      ensures r[|r| - 1 - i] == ((v % TWO32) / Pow256(i)) % 256
    {
      ToBigEndianDigit(v % TWO32, |r|, i);
    }
  }

  lemma {:induction false} ToBigEndianDigit(n: nat, len: nat, i: nat)
    requires i < len
    ensures ToBigEndian(n, len)[len - 1 - i] == (n / Pow256(i)) % 256
  {
    if i > 0 {
      ToBigEndianDigit(n / 256, len - 1, i - 1);
      DivDiv(n, 256, Pow256(i - 1));
    }
  }

  /** The integer constructor. */
  function UintOption(number: nat, v: int32): (o: CoapOption)
    ensures o.number == number && UintFold(o.value) == v
  {
    UintRoundTrip(v);
    CoapOption(number, UintValue(v))
  }

  /** A C# `int` result of unchecked arithmetic: `x` wrapped to 32 bits. */
  function Wrap32(x: int): int32 {
    Int32Of(x % TWO32)
  }

  /** What the uint branches of `ToString` compute: the bytes folded big-endian into a C# `int`. */
  function UintFold(value: Bytes): int32 {
    Wrap32(BigEndian(value))
  }

  /** Decoding the integer constructor's bytes gives the integer back, for every C# `int`. */
  lemma UintRoundTrip(v: int32)
    ensures UintFold(UintValue(v)) == v
  {
    var n := v % TWO32;
    if v >= 0 {
      DivModUnique(v, TWO32, 0, v);
    } else {
      DivModUnique(v, TWO32, -1, v + TWO32);
    }
    DivModUnique(n, TWO32, 0, n);
    assert BigEndian(UintValue(v)) == n;
  }

  lemma WrapCongruent(a: int, x: int, y: int)
    requires a % TWO32 == x % TWO32
    ensures (a + y) % TWO32 == (x + y) % TWO32
    ensures (a * 256) % TWO32 == (x * 256) % TWO32
  {
    var k := a / TWO32 - x / TWO32;
    assert a == x + k * TWO32;
    DivModUnique(a + y, TWO32, (x + y) / TWO32 + k, (x + y) % TWO32);
    assert a * 256 == x * 256 + (k * 256) * TWO32;
    DivModUnique(a * 256, TWO32, (x * 256) / TWO32 + k * 256, (x * 256) % TWO32);
  }

  lemma WrapOfWrap(x: int, y: int)
    ensures Wrap32(Wrap32(x) + y) == Wrap32(x + y)
    ensures Wrap32(Wrap32(x) * 256) == Wrap32(x * 256)
  {
    var w: int := Wrap32(x);
    assert w % TWO32 == x % TWO32 by {
      var m := x % TWO32;
      if m < TWO31 {
        assert w == m;
      } else {
        assert w == m - TWO32;
        DivModUnique(w, TWO32, -1, m);
      }
      DivModUnique(m, TWO32, 0, m);
    }
    WrapCongruent(w, x, y);
  }

  /** The uint branch loop of `ToString`, with C# `int` wrap-around on the shift. */
  method FoldUint(value: Bytes) returns (num: int32)
    ensures num == UintFold(value)
  {
    var pos := 0;
    num := 0;
    while pos < |value|
      invariant 0 <= pos <= |value|
      invariant num == Wrap32(BigEndian(value[..pos]) * (if 0 < pos < |value| then 256 else 1))
    {
      assert value[..pos + 1][..pos] == value[..pos];
      WrapOfWrap(BigEndian(value[..pos]) * 256, value[pos]);
      num := Wrap32(num + value[pos]);
      pos := pos + 1;
      if pos < |value| {
        WrapOfWrap(BigEndian(value[..pos]), 0);
        num := Wrap32(num * 256);
      }
    }
    assert value[..pos] == value;
  }

  /** `CoapOption.ToString`: the value rendered according to the option's format. */
  function ToString(o: CoapOption): string {
    match FormatOf(o.number)
    case StringFormat => TextOf(o.value)
    case UintFormat => Int32Decimal(UintFold(o.value))
    case _ => ""
  }

  /** The switch of `ToString` agrees with the format table of section 5.10 of RFC 7252. */
  lemma ToStringCases(o: CoapOption)
    ensures o.number in {3, 8, 11, 15, 20, 35, 39} ==> ToString(o) == TextOf(o.value)
    ensures o.number in {7, 12, 14, 17, 60} ==> ToString(o) == Int32Decimal(UintFold(o.value))
    ensures o.number !in {3, 7, 8, 11, 12, 14, 15, 17, 20, 35, 39, 60} ==> ToString(o) == ""
  {
  }

  /** A string option built from ASCII text renders as that text. */
  lemma StringRendering(number: nat, s: string)
    requires FormatOf(number) == StringFormat && IsAscii(s)
    ensures ToString(StringOption(number, s)) == s
  {
  }

  /** A uint option built from `v` renders as the decimal of `v`; an empty value renders "0". */
  lemma UintRendering(number: nat, v: int32)
    requires FormatOf(number) == UintFormat
    ensures ToString(UintOption(number, v)) == Int32Decimal(v)
    ensures ToString(CoapOption(number, [])) == "0"
  {
    var o := UintOption(number, v);
    assert ToString(o) == Int32Decimal(UintFold(o.value));
    EmptyUint(number);
  }

  lemma EmptyUint(number: nat)
    requires FormatOf(number) == UintFormat
    ensures ToString(CoapOption(number, [])) == "0"
  {
    assert UintFold([]) == 0;
    assert Int32Decimal(0) == "0";
  }
}
