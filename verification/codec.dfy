/**
 * `CoapMessage.ToByteArray` and `CoapMessage.FromByteArray` without the URI step:
 * the base message format of section 3 of RFC 7252.
 */
module Codec {
  import opened Wrappers
  import opened Bytes
  import opened MessageCode
  import opened OptionMap
  import opened Messages
  import opened OptionTier

  const PayloadMarker: byte := 0xFF

  /**
   * `Version << 6 | Type << 4 | TokenLength`; the three fields occupy disjoint bits.
   * DIVERGENCE (CoapMessage.cs:357, 73-81): the source writes the `TokenLength` property,
   * which the token constructors never set; `Encode` passes the token's own length.
   */
  function HeaderByte(version: Version, mtype: MessageType, tokenLength: nat): byte
    requires tokenLength < 16
  {
    version * 64 + TypeValue(mtype) * 16 + tokenLength
  }

  /** One option instance: header byte, delta extension, length extension, value. */
  function EncodeInstance(delta: nat, value: Bytes): (r: Bytes)
    ensures |r| > 0 && r[0] != PayloadMarker
  {
    [Nibble(delta) * 16 + Nibble(|value|)] + Extension(delta) + Extension(|value|) + value
  }

  /** The inner `foreach`: every instance of `number`; the delta is 0 after the first. */
  function EncodeGroup(number: nat, values: seq<Bytes>, last: nat): Bytes
    requires last <= number
  {
    if |values| == 0 then []
    else EncodeInstance(number - last, values[0]) + EncodeGroup(number, values[1..], number)
  }

  /** The outer `foreach` over the keys in ascending order; `last` is the previous number. */
  function EncodeEntries(entries: seq<Entry>, last: nat): Bytes
    requires Sorted(entries)
    requires |entries| > 0 ==> last <= entries[0].number
  {
    if |entries| == 0 then []
    else
      var rest := entries[1..];
      assert Sorted(rest) by {
        forall i, j | 0 <= i < j < |rest| ensures rest[i].number < rest[j].number {
          assert rest[i] == entries[i + 1] && rest[j] == entries[j + 1];
        }
      }
      assert |rest| > 0 ==> entries[0].number <= rest[0].number by {
        if |rest| > 0 {
          assert rest[0] == entries[1];
        }
      }
      EncodeGroup(entries[0].number, entries[0].instances, last) + EncodeEntries(rest, entries[0].number)
  }

  /** The marker and the payload when there is one (CoapMessage.cs:443-447). */
  function PayloadBytes(payload: Option<Bytes>): Bytes {
    match payload
    case None => []
    case Some(p) => [PayloadMarker] + p
  }

  /** `ToByteArray` with the header's token length field given explicitly. */
  function EncodeWithTokenLength(m: Message, tokenLength: nat): Bytes
    requires tokenLength < 16
  {
    [HeaderByte(m.version, m.mtype, tokenLength), m.code, m.id / 256, m.id % 256]
      + m.token + EncodeEntries(m.options, 0) + PayloadBytes(m.payload)
  }

  /** `ToByteArray` (CoapMessage.cs:352-455). */
  function Encode(m: Message): (r: Bytes)
    ensures |r| >= 4 + |m.token|
  {
    EncodeWithTokenLength(m, |m.token|)
  }

  /**
   * One pass of the option loop over a header byte other than the marker (CoapMessage.cs:146-236):
   * the delta, the value it announces, and the bytes after the value.
   * A truncated extension or value is a format error (the source's unchecked reads throw).
   */
  function ReadOption(rest: Bytes): (r: Result<(nat, Bytes, Bytes), FormatError>)
    requires |rest| > 0
    ensures r.Ok? ==> |r.value.2| < |rest|
  {
    var delta :- ReadExtended(rest[0] / 16, rest[1..]);
    var length :- ReadExtended(rest[0] % 16, delta.1);
    var after := length.1;
    if |after| < length.0 then Err(TruncatedOption)
    else Ok((delta.0, after[..length.0], after[length.0..]))
  }

  /**
   * The option loop of `FromByteArray` (CoapMessage.cs:141-343) over the bytes that remain:
   * `number` is the running option number and `acc` the options decoded so far.
   */
  function DecodeOptions(rest: Bytes, number: nat, acc: Options): (r: Result<(Options, Option<Bytes>), FormatError>)
    ensures r.Ok? && r.value.1.Some? ==> |r.value.1.value| > 0
    decreases |rest|
  {
    if |rest| == 0 then Ok((acc, None))
    else if rest[0] == PayloadMarker then
      if |rest| == 1 then Err(EmptyPayloadAfterMarker) else Ok((acc, Some(rest[1..])))
    else
      var (delta, value, after) :- ReadOption(rest);
      DecodeOptions(after, number + delta, Insert(acc, number + delta, value))
  }

  /**
   * `FromByteArray` up to the URI step (CoapMessage.cs:101-343).
   * DIVERGENCE (CoapMessage.cs:118-119): the source masks the first byte with `0x30000000`
   * and `0x0f000000`, so type and token length always read as 0; here they are bits 5-4 and 3-0.
   */
  function Decode(bytes: Bytes): (r: Result<Message, FormatError>)
    ensures |bytes| < 4 ==> r == Err(TruncatedHeader)
    ensures |bytes| >= 4 && bytes[0] % 16 > 8 ==> r == Err(InvalidTokenLength)
    ensures |bytes| >= 4 && bytes[0] % 16 <= 8 && |bytes| < 4 + bytes[0] % 16 ==> r == Err(TruncatedToken)
    ensures r.Ok? ==> r.value.payload != Some([])
  {
    if |bytes| < 4 then Err(TruncatedHeader)
    else
      var tokenLength := bytes[0] % 16;
      if tokenLength > 8 then Err(InvalidTokenLength)
      else if |bytes| < 4 + tokenLength then Err(TruncatedToken)
      else
        var body :- DecodeOptions(bytes[4 + tokenLength..], 0, []);
        Ok(Message(
          bytes[0] / 64,
          TypeOf((bytes[0] / 16) % 4),
          bytes[4..4 + tokenLength],
          bytes[1],
          bytes[2] as int * 256 + bytes[3],
          body.0,
          body.1))
  }
}
