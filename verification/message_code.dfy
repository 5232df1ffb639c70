/**
 * The `CoapMessageCode` enumeration: the code byte of the message header, packed as
 * class * 32 + detail (section 3 of RFC 7252, "c.dd").
 */
module MessageCode {
  import opened Bytes

  const Empty: byte := 0

  // request method codes (class 0)
  const GET: byte := 1
  const POST: byte := 2
  const PUT: byte := 3
  const DELETE: byte := 4

  // success responses (class 2)
  const Created: byte := 65
  const Deleted: byte := 66
  const Valid: byte := 67
  const Changed: byte := 68
  const Content: byte := 69

  // client error responses (class 4)
  const BadRequest: byte := 128
  const Unauthorised: byte := 129
  const BadOption: byte := 130
  const Forbidden: byte := 131
  const NotFound: byte := 132
  const MethodNotAllowed: byte := 133
  const NotAcceptable: byte := 134
  const PreconditionFailed: byte := 140
  const RequestEntityTooLarge: byte := 141
  const UnsupportedContentFormat: byte := 143

  // server error responses (class 5)
  const InternalServerError: byte := 160
  const NotImplemented: byte := 161
  const BadGateway: byte := 162
  const ServiceUnavailable: byte := 163
  const GatewayTimeout: byte := 164
  const ProxyingNotSupported: byte := 165

  const Requests: seq<byte> := [GET, POST, PUT, DELETE]
  const Successes: seq<byte> := [Created, Deleted, Valid, Changed, Content]
  const ClientErrors: seq<byte> :=
    [BadRequest, Unauthorised, BadOption, Forbidden, NotFound, MethodNotAllowed,
     NotAcceptable, PreconditionFailed, RequestEntityTooLarge, UnsupportedContentFormat]
  const ServerErrors: seq<byte> :=
    [InternalServerError, NotImplemented, BadGateway, ServiceUnavailable, GatewayTimeout,
     ProxyingNotSupported]
  const Responses: seq<byte> := Successes + ClientErrors + ServerErrors

  /** Every member of the enumeration. */
  const AllCodes: seq<byte> := [Empty] + Requests + Responses

  /** The "c" of "c.dd". */
  function Class(code: byte): nat {
    code / 32
  }

  /** The "dd" of "c.dd". */
  function Detail(code: byte): nat {
    code % 32
  }

  lemma RequestCodesAreOneToFour(code: byte)
    ensures code in Requests <==> 1 <= code <= 4
  {
  }

  lemma EmptyIsZero()
    ensures Empty == 0 && Class(Empty) == 0 && Detail(Empty) == 0
  {
  }

  /** No two members of the enumeration share a value. */
  lemma CodesDistinct()
    ensures forall i, j :: 0 <= i < j < |AllCodes| ==> AllCodes[i] != AllCodes[j]
  {
  }

  /** Response values follow the class.detail packing of section 3 of RFC 7252. */
  lemma ResponseClasses()
    ensures forall c :: c in Successes ==> Class(c) == 2 && 1 <= Detail(c) <= 5
    ensures forall c :: c in ClientErrors ==> Class(c) == 4 && Detail(c) <= 15
    ensures forall c :: c in ServerErrors ==> Class(c) == 5 && Detail(c) <= 5
  {
  }

  /** The request, empty and response values occupy disjoint ranges. */
  lemma ResponsesAboveRequests()
    ensures forall c :: c in Responses ==> c > 4 && c !in Requests && c != Empty
    ensures Empty !in Requests
  {
  }
}
