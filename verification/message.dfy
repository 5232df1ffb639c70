/** `CoapMessage`: the header fields, token, options and payload, and the code classification. */
module Messages {
  import opened Wrappers
  import opened Bytes
  import opened MessageCode
  import opened OptionMap

  /** The `CoapMessageType` enumeration, numbered as the two type bits of section 3 of RFC 7252. */
  datatype MessageType = Confirmable | NonConfirmable | Acknowledgement | Reset

  function TypeValue(t: MessageType): (n: nat)
    ensures n < 4
  {
    match t
    case Confirmable => 0
    case NonConfirmable => 1
    case Acknowledgement => 2
    case Reset => 3
  }

  function TypeOf(n: nat): (t: MessageType)
    requires n < 4
    ensures TypeValue(t) == n
  {
    if n == 0 then Confirmable else if n == 1 then NonConfirmable else if n == 2 then Acknowledgement else Reset
  }

  lemma TypeRoundTrip(t: MessageType)
    ensures TypeOf(TypeValue(t)) == t
  {
  }

  /** The two version bits of the header. */
  type Version = v: nat | v < 4

  /** A token is 0 to 8 bytes long; the constructor refuses a longer one. */
  type Token = t: Bytes | |t| <= 8

  /** `UInt16 MessageID`. */
  type MessageId = n: nat | n < 0x1_0000

  /** `CoapMessageFormatException`, one variant per way a message can be malformed. */
  datatype FormatError =
    | TokenTooLong
    | TruncatedHeader
    | InvalidTokenLength
    | TruncatedToken
    | TruncatedOption
    | MalformedOption
    | EmptyPayloadAfterMarker

  /**
   * The wire content of a message. A missing payload (`null` in the source) is `None`;
   * a missing token (`null`) is the empty token. Transport addresses are not part of it.
   */
  datatype Message = Message(
    version: Version,
    mtype: MessageType,
    token: Token,
    code: byte,
    id: MessageId,
    options: Options,
    payload: Option<Bytes>)

  /** The constructors: version 1, message ID 0, no options; a token longer than 8 bytes throws. */
  function NewMessage(mtype: MessageType, token: Bytes, code: byte, payload: Option<Bytes>): (r: Result<Message, FormatError>)
    ensures |token| > 8 <==> r == Err(TokenTooLong)
    ensures r.Ok? ==> r.value.token == token && r.value.code == code && r.value.mtype == mtype
    ensures r.Ok? ==> r.value.version == 1 && r.value.options == [] && r.value.payload == payload
  {
    if |token| > 8 then Err(TokenTooLong) else Ok(Message(1, mtype, token, code, 0, [], payload))
  }

  predicate IsRequest(m: Message) {
    m.code == GET || m.code == POST || m.code == PUT || m.code == DELETE
  }

  predicate IsEmpty(m: Message) {
    m.code == Empty
  }

  /**
   * DIVERGENCE (CoapMessage.cs:37): the source's last `return false` makes `IsResponse`
   * always false; the evident intent is "neither empty nor a request".
   */
  predicate IsResponse(m: Message) {
    !IsEmpty(m) && !IsRequest(m)
  }

  /** Request codes are exactly 1..4, empty is 0, and every message is exactly one of the three. */
  lemma Classification(m: Message)
    ensures IsRequest(m) <==> 1 <= m.code <= 4
    ensures IsEmpty(m) <==> m.code == 0
    ensures !(IsRequest(m) && IsEmpty(m))
    ensures || (IsRequest(m) && !IsEmpty(m) && !IsResponse(m))
            || (!IsRequest(m) && IsEmpty(m) && !IsResponse(m))
            || (!IsRequest(m) && !IsEmpty(m) && IsResponse(m))
    ensures m.code in Responses ==> IsResponse(m)
  {
  }
}
