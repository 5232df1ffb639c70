/**
 * The variable-length fields of an option header (section 3.1 of RFC 7252): a delta or a
 * length is a literal nibble 0..12, nibble 13 plus one byte (value - 13), or nibble 14
 * plus two big-endian bytes (value - 269). Nibble 15 is reserved for the payload marker.
 */
module OptionTier {
  import opened Wrappers
  import opened Bytes
  import opened Messages

  /** The largest delta or length the three tiers can carry: 65535 + 269. */
  const MaxExtended: nat := 65804

  /**
   * The header nibble for a delta or length `v` (CoapMessage.cs:383-407).
   * A value above `MaxExtended` matches none of the source's branches, which leaves the nibble 0.
   */
  function Nibble(v: nat): (n: nat)
    ensures n <= 14
  {
    if v <= 12 then v
    else if v <= 268 then 13
    else if v <= MaxExtended then 14
    else 0
  }

  /**
   * The extension bytes written after the header for `v` (CoapMessage.cs:412-433).
   * DIVERGENCE (CoapMessage.cs:418): the source computes the two-byte delta extension as
   * `optionDelta - 69`; here both delta and length use `v - 269`, as the decoder expects.
   */
  function Extension(v: nat): (r: Bytes)
    ensures |r| == (if v <= 12 || v > MaxExtended then 0 else if v <= 268 then 1 else 2)
  {
    if v <= 12 then []
    else if v <= 268 then [v - 13]
    else if v <= MaxExtended then [(v - 269) / 256, (v - 269) % 256]
    else []
  }

  /**
   * Reads the value announced by `nibble` from the bytes after the option header
   * (CoapMessage.cs:172-224), returning it with the bytes that remain.
   * DIVERGENCE (CoapMessage.cs:188-197, 219-223): nibble 15 is a format error here; the
   * source inspects the following byte for a delta of 15 and ignores a length of 15.
   */
  function ReadExtended(nibble: nat, rest: Bytes): (r: Result<(nat, Bytes), FormatError>)
    requires nibble < 16
    ensures r.Ok? ==> |r.value.1| <= |rest|
    ensures r.Ok? ==> r.value.0 <= MaxExtended
    ensures nibble == 15 ==> r == Err(MalformedOption)
  {
    if nibble <= 12 then Ok((nibble, rest))
    else if nibble == 13 then
      if |rest| < 1 then Err(TruncatedOption) else Ok((rest[0] as int + 13, rest[1..]))
    else if nibble == 14 then
      if |rest| < 2 then Err(TruncatedOption) else Ok((rest[0] as int * 256 + rest[1] as int + 269, rest[2..]))
    else Err(MalformedOption)
  }

  /** The tiers switch exactly at 12/13 and 268/269, and 65804 is the last value carried. */
  lemma TierBoundaries()
    ensures Nibble(12) == 12 && Extension(12) == []
    ensures Nibble(13) == 13 && Extension(13) == [0]
    ensures Nibble(268) == 13 && Extension(268) == [255]
    ensures Nibble(269) == 14 && Extension(269) == [0, 0]
    ensures Nibble(270) == 14 && Extension(270) == [0, 1]
    ensures Nibble(MaxExtended) == 14 && Extension(MaxExtended) == [255, 255]
  {
  }

  /** Reading back what the encoder wrote for `v` yields `v` and leaves what follows untouched. */
  lemma TierRoundTrip(v: nat, rest: Bytes)
    requires v <= MaxExtended
    ensures ReadExtended(Nibble(v), Extension(v) + rest) == Ok((v, rest))
  {
    var e := Extension(v) + rest;
    if v <= 12 {
      assert e == rest;
    } else if v <= 268 {
      assert e[1..] == rest;
    } else {
      assert e[2..] == rest;
    }
  }

  /** Every value has exactly one encoding: whatever decodes is what the encoder would write. */
  lemma TierCanonical(nibble: nat, rest: Bytes)
    requires nibble < 16 && ReadExtended(nibble, rest).Ok?
    ensures var (v, after) := ReadExtended(nibble, rest).value;
      Nibble(v) == nibble && Extension(v) + after == rest
  {
    var (v, after) := ReadExtended(nibble, rest).value;
    if nibble == 13 {
      assert rest == [rest[0]] + after;
    } else if nibble == 14 {
      assert rest == [rest[0], rest[1]] + after;
    }
  }
}
