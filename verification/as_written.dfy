/**
 * Fragments of the source modelled exactly as written where the main model departs from
 * them, each with the input that shows the departure. The corrected behaviour lives in the
 * modules the rest of the model uses (`Codec`, `OptionTier`, `Messages`, `CoapOptions`,
 * `Uri`, `Endpoint`).
 */
module AsWritten {
  import opened Wrappers
  import opened Bytes
  import opened Text
  import opened OptionMap
  import opened Messages
  import Codec
  import CodecProofs
  import OptionTier
  import CoapOptions
  import Uri
  import UriProofs
  import Endpoint
  import Sequences

  // ---------------------------------------------------------------------------
  // The header masks of FromByteArray (CoapMessage.cs:118-119)

  /** `(b & 0x30000000) >> 4` on a byte promoted to `int`. */
  function TypeField(b: byte): (t: nat)
    ensures t == 0
  {
    ((b as bv32 & 0x3000_0000) >> 4) as nat
  }

  /** `b & 0x0f000000` on a byte promoted to `int`. */
  function TokenLengthField(b: byte): (n: nat)
    ensures n == 0
  {
    (b as bv32 & 0x0f00_0000) as nat
  }

  /**
   * A Non-confirmable message with a one-byte token has header byte 0x51; the source reads
   * it as Confirmable with no token, while the corrected decoder reads both fields.
   */
  lemma HeaderMasksLoseFields()
    ensures TypeField(0x51) == 0 && TokenLengthField(0x51) == 0
    ensures Codec.Decode([0x51, 1, 0, 0, 7]) == Ok(Message(1, NonConfirmable, [7], 1, 0, [], None))
  {
    var bytes: Bytes := [0x51, 1, 0, 0, 7];
    assert bytes[5..] == [] && bytes[4..5] == [7];
    assert Codec.DecodeOptions([], 0, []) == Ok(([], None));
    assert TypeOf(1) == NonConfirmable;
  }

  // ---------------------------------------------------------------------------
  // The two-byte delta extension of ToByteArray (CoapMessage.cs:416-421)

  /** `val = optionDelta - 69`, then `(byte)(val >> 8)` and `(byte)(val & 0xff)`, in C# arithmetic. */
  function DeltaExtension(delta: nat): (r: Bytes)
    ensures 268 < delta <= OptionTier.MaxExtended ==> r == [0xFF, 0xC9]
  {
    if delta <= 12 then []
    else if delta <= 268 then [delta - 13]
    else if delta <= OptionTier.MaxExtended then
      var v: int := 14 - 69;
      [Truncate(Floor256(v)), Truncate(v)]
    else []
  }

  /** An arithmetic right shift by 8: division rounding toward negative infinity. */
  function Floor256(v: int): int {
    if v >= 0 then v / 256 else -((-v + 255) / 256)
  }

  /** The low eight bits of a two's-complement `int`, as `(byte)` keeps them. */
  function Truncate(v: int): byte {
    v % 256
  }

  /**
   * Every delta of 269 or more is written as 0xFF 0xC9, which reads back as 65750; a delta
   * of 300 (Uri-Path, number 11, followed by an option numbered 311) shows it. The corrected
   * `OptionTier.Extension` reads back as the delta it was given (`OptionTier.TierRoundTrip`).
   */
  lemma DeltaExtensionMisread(rest: Bytes)
    ensures OptionTier.ReadExtended(14, DeltaExtension(300) + rest) == Ok((65750, rest))
    ensures OptionTier.ReadExtended(14, OptionTier.Extension(300) + rest) == Ok((300, rest))
  {
    assert (DeltaExtension(300) + rest)[2..] == rest;
    OptionTier.TierRoundTrip(300, rest);
  }

  // ---------------------------------------------------------------------------
  // IsResponse (CoapMessage.cs:32-38) and the dispatch it drives (CoapEndpoint.cs:169-190)

  /** Every path of the source's `IsResponse` returns false. */
  predicate IsResponseAsWritten(m: Message) {
    if IsEmpty(m) then false else if IsRequest(m) then false else false
  }

  /**
   * The handler `BeginReceiving` picks with the source's `IsResponse`: requests still reach
   * the request handler, but nothing ever reaches the response handler.
   */
  function DispatchAsWritten(m: Message): (h: Endpoint.Handler)
    ensures h != Endpoint.ResponseHandler
    ensures h == Endpoint.RequestHandler <==> IsRequest(m)
  {
    if IsRequest(m) then Endpoint.RequestHandler
    else if IsResponseAsWritten(m) then Endpoint.ResponseHandler
    else Endpoint.EmptyHandler
  }

  /**
   * A 2.05 Content response (code 69) is handed to the empty-message handler and never
   * correlated; the corrected `Messages.IsResponse` sends it to the response handler.
   */
  lemma ResponseNeverRecognised(m: Message)
    requires m.code == 69
    ensures !IsResponseAsWritten(m) && DispatchAsWritten(m) == Endpoint.EmptyHandler
    ensures IsResponse(m) && Endpoint.Dispatch(m) == Endpoint.ResponseHandler
  {
  }

  // ---------------------------------------------------------------------------
  // The token length written by ToByteArray (CoapMessage.cs:357)

  /**
   * The `TokenLength` property is never set, so the header announces no token although the
   * token bytes follow; the message with token [7] then fails to decode, as the 7 is read as
   * an option header announcing seven bytes. The corrected `Codec.Encode` writes `|token|`.
   */
  lemma TokenLengthZeroBreaksRoundTrip()
    ensures Codec.EncodeWithTokenLength(TokenSeven(), 0) == [0x40, 1, 0, 0, 7]
    ensures Codec.Decode([0x40, 1, 0, 0, 7]) == Err(TruncatedOption)
    ensures Codec.Decode(Codec.Encode(TokenSeven())) == Ok(TokenSeven())
  {
    EncodeTokenSeven();
    DecodeSevenFails();
    var m := TokenSeven();
    assert Flatten(m.options) == [];
    CodecProofs.DecodeEncode(m);
  }

  /** With token length 0 in the header, the token byte 7 directly follows the ID. */
  lemma EncodeTokenSeven()
    ensures Codec.EncodeWithTokenLength(TokenSeven(), 0) == [0x40, 1, 0, 0, 7]
  {
    assert Codec.EncodeEntries([], 0) == [];
    assert Codec.HeaderByte(1, Confirmable, 0) == 0x40;
  }

  /** The byte 7 read as an option header announces a seven-byte value that is not there. */
  lemma DecodeSevenFails()
    ensures Codec.Decode([0x40, 1, 0, 0, 7]) == Err(TruncatedOption)
  {
    var bytes: Bytes := [0x40, 1, 0, 0, 7];
    assert bytes[4..] == [7];
    assert OptionTier.ReadExtended(0, [7][1..]) == Ok((0, []));
    assert OptionTier.ReadExtended(7, []) == Ok((7, []));
    assert Codec.DecodeOptions([7], 0, []) == Err(TruncatedOption);
    DecodeNoTokenFails(bytes, TruncatedOption);
  }

  /** A Confirmable GET with ID 0, the one-byte token [7], no options and no payload. */
  function TokenSeven(): Message {
    Message(1, Confirmable, [7], 1, 0, [], None)
  }

  // ---------------------------------------------------------------------------
  // The string option length (CoapOption.cs:17-22)

  /** The UTF-16 code units of one character: a character beyond U+FFFF takes a surrogate pair. */
  function Utf16Units(c: char): nat {
    if c as int >= 0x1_0000 then 2 else 1
  }

  /**
   * `Length = value.Length`: the length of the C# string in UTF-16 code units, not the number
   * of bytes its UTF-8 encoding takes. It never exceeds that number, and equals it exactly
   * for ASCII text.
   */
  function StringLength(s: string): (n: nat)
    ensures |s| <= n <= 2 * |s|
    ensures n <= |Utf8(s)|
    ensures n == |Utf8(s)| <==> IsAscii(s)
  {
    if |s| == 0 then 0
    else
      assert IsAscii(s) <==> s[0] as int < 128 && IsAscii(s[1..]) by {
        if s[0] as int < 128 && IsAscii(s[1..]) {
          forall i | 0 <= i < |s| ensures s[i] as int < 128 {
            if i > 0 {
              assert s[i] == s[1..][i - 1];
            }
          }
        }
      }
      Utf16Units(s[0]) + StringLength(s[1..])
  }

  /**
   * For "é" the length field says 1 while the value holds two UTF-8 bytes, and for the emoji
   * U+1F600 it says 2 while the value holds four, so the encoder announces fewer bytes than it
   * writes; the corrected `CoapOptions.StringOption` has `Length() == |Utf8(s)|`.
   */
  lemma StringLengthMismatch()
    ensures StringLength("é") == 1 && |Utf8("é")| == 2
    ensures StringLength("\U{1F600}") == 2 && |Utf8("\U{1F600}")| == 4
    ensures CoapOptions.StringOption(3, "é").Length() == 2
  {
  }

  // ---------------------------------------------------------------------------
  // The integer constructor of CoapOption (CoapOption.cs:31-48)

  /**
   * `new CoapOption(number, value)` with an `int` value: the value bytes are those of the
   * corrected `CoapOptions.UintOption`, but `Number` is never assigned and stays 0, so
   * `ToString` finds no case for it and renders nothing.
   */
  function UintOptionAsWritten(number: nat, v: int32): (o: CoapOptions.CoapOption)
    ensures o.value == CoapOptions.UintOption(number, v).value
    ensures CoapOptions.ToString(o) == ""
  {
    CoapOptions.ToStringCases(CoapOptions.CoapOption(0, CoapOptions.UintValue(v)));
    CoapOptions.CoapOption(0, CoapOptions.UintValue(v))
  }

  /**
   * `ComposeUri` on a message whose Uri-Port was added by `DecomposeUri`, which builds it with
   * the integer constructor (CoapMessage.cs:513-516): the port renders as the empty string and
   * only its ':' is written. Without a Uri-Port it is the corrected `Uri.Compose`.
   */
  function ComposeAsWritten(opts: Options, fallback: string): (uri: string)
    ensures |Lookup(opts, CoapOptions.UriPort)| == 0 ==> uri == Uri.Compose(opts, fallback)
    ensures |Lookup(opts, CoapOptions.UriPort)| > 0 ==>
      var colon := 7 + |Uri.HostText(opts, fallback)|;
      var digits := CoapOptions.ToString(CoapOptions.CoapOption(CoapOptions.UriPort, Lookup(opts, CoapOptions.UriPort)[0]));
      && colon < |uri| && uri[colon] == ':'
      && Uri.Compose(opts, fallback) == uri[..colon + 1] + digits + uri[colon + 1..]
  {
    var ports := Lookup(opts, CoapOptions.UriPort);
    var port := if |ports| > 0 then ":" + CoapOptions.ToString(UintOptionAsWritten(CoapOptions.UriPort, CoapOptions.UintFold(ports[0]))) else "";
    var head := "coap://" + Uri.HostText(opts, fallback);
    ComposeShape(opts, fallback);
    if |ports| > 0 then
      var digits := CoapOptions.ToString(CoapOptions.CoapOption(CoapOptions.UriPort, ports[0]));
      assert port == ":";
      DigitsInserted(head, digits, ResourceText(opts));
      head + port + ResourceText(opts)
    else
      head + port + ResourceText(opts)
  }

  /** The path (or "/") and the query of a composed URI: what follows the port. */
  function ResourceText(opts: Options): string {
    var resource := Uri.PathText(Lookup(opts, CoapOptions.UriPath));
    (if resource == "" then "/" else resource) + Uri.QueryText(Lookup(opts, CoapOptions.UriQuery), true)
  }

  lemma ComposeShape(opts: Options, fallback: string)
    ensures Uri.Compose(opts, fallback) == "coap://" + Uri.HostText(opts, fallback) + Uri.PortText(opts) + ResourceText(opts)
  {
    var resource := Uri.PathText(Lookup(opts, CoapOptions.UriPath));
    var head := "coap://" + Uri.HostText(opts, fallback) + Uri.PortText(opts);
    var r := if resource == "" then "/" else resource;
    var q := Uri.QueryText(Lookup(opts, CoapOptions.UriQuery), true);
    assert (head + r) + q == head + (r + q);
  }

  /** Putting the digits back after the ':' of `head + ":" + rest`. */
  lemma DigitsInserted(head: string, digits: string, rest: string)
    ensures var uri := head + ":" + rest;
      && |head| < |uri| && uri[|head|] == ':'
      && uri[..|head| + 1] + digits + uri[|head| + 1..] == head + (":" + digits) + rest
  {
    var uri := head + ":" + rest;
    assert uri[..|head| + 1] == head + ":";
    assert uri[|head| + 1..] == rest;
  }

  /** With a Uri-Port, the as-written URI is the host part, a bare ':' and the resource part. */
  lemma ComposedWithPort(opts: Options, fallback: string)
    requires |Lookup(opts, CoapOptions.UriPort)| > 0
    ensures ComposeAsWritten(opts, fallback) == "coap://" + Uri.HostText(opts, fallback) + ":" + ResourceText(opts)
  {
  }

  lemma Regroup(host: string, path: string, q: string)
    ensures "coap://" + host + ":" + ("/" + path + q) == "coap://" + host + ":/" + path + q
  {
  }

  /** The host, port and resource parts of the options a composable URI with a port decomposes to. */
  lemma AppliedParts(host: string, port: nat, path: string, query: string, fallback: string)
    requires UriProofs.Composable(host, Some(port), path, query)
    ensures var opts := Uri.Apply([], Uri.UriParts("coap", host, port, path, query));
      && Uri.HostText(opts, fallback) == host
      && |Lookup(opts, CoapOptions.UriPort)| > 0
      && ResourceText(opts) == "/" + path + (if query != "" then "?" + query else "")
  {
    var p := Uri.UriParts("coap", host, port, path, query);
    var opts := Uri.Apply([], p);
    UriProofs.AppliedToEmpty(p, CoapOptions.UriHost);
    UriProofs.AppliedToEmpty(p, CoapOptions.UriPort);
    UriProofs.AppliedToEmpty(p, CoapOptions.UriPath);
    UriProofs.AppliedToEmpty(p, CoapOptions.UriQuery);
    UriProofs.PlainAscii(host, {':', '/'});
    UriProofs.HostPart(opts, host, fallback);
    UriProofs.ComposePath(opts, path);
    UriProofs.ComposeQuery(opts, query);
  }

  /**
   * Decomposing a URI with a port and composing the result again loses the port's digits and
   * keeps its ':'; "coap://h:1234/" comes back as "coap://h:/". The corrected conversion gives
   * the URI back (`UriProofs.ComposeDecompose`).
   */
  lemma PortLostAsWritten(host: string, port: nat, path: string, query: string, fallback: string)
    requires UriProofs.Composable(host, Some(port), path, query)
    ensures Uri.Decompose([], UriProofs.CoapUri(host, Some(port), path, query)).Ok?
    ensures var d := Uri.Decompose([], UriProofs.CoapUri(host, Some(port), path, query));
      d.Ok? ==> ComposeAsWritten(d.value, fallback) == "coap://" + host + ":/" + path + (if query != "" then "?" + query else "")
    ensures var d := Uri.Decompose([], UriProofs.CoapUri(host, Some(port), path, query));
      d.Ok? ==> Uri.Compose(d.value, fallback) == UriProofs.CoapUri(host, Some(port), path, query)
  {
    var url := UriProofs.CoapUri(host, Some(port), path, query);
    var p := Uri.UriParts("coap", host, port, path, query);
    var opts := Uri.Apply([], p);
    var q := if query != "" then "?" + query else "";
    UriProofs.ParseCoapUri(host, Some(port), path, query);
    UriProofs.DecomposeParsed([], url, p);
    assert Uri.Decompose([], url) == Ok(opts);
    UriProofs.ComposeDecompose(host, Some(port), path, query, fallback);
    AppliedParts(host, port, path, query, fallback);
    ComposedWithPort(opts, fallback);
    assert ComposeAsWritten(opts, fallback) == "coap://" + host + ":" + ("/" + path + q);
    Regroup(host, path, q);
  }

  // ---------------------------------------------------------------------------
  // Retransmission in BeginSending (CoapEndpoint.cs:120, 196-229, 380-394)

  /** Every entry is Confirmable: `SendRequest` registers no other message (CoapEndpoint.cs:386-391). */
  predicate AllConfirmable(entries: seq<Endpoint.Unconfirmed>) {
    forall k :: 0 <= k < |entries| ==> entries[k].message.mtype == Confirmable
  }

  /** Every entry is on its first attempt, as `SendRequest` leaves it (CoapEndpoint.cs:384). */
  predicate AllFirstAttempt(entries: seq<Endpoint.Unconfirmed>) {
    forall k :: 0 <= k < |entries| ==> entries[k].attempts == 1
  }

  /** The position of the first entry the pass resends, or `|entries|` when none is due. */
  function FirstDue(entries: seq<Endpoint.Unconfirmed>, now: nat): (i: nat)
    ensures i <= |entries|
    ensures forall k :: 0 <= k < i ==> !Endpoint.Due(entries[k], now)
    ensures i < |entries| ==> Endpoint.Due(entries[i], now)
  {
    if |entries| == 0 || Endpoint.Due(entries[0], now) then 0
    else 1 + FirstDue(entries[1..], now)
  }

  /** The entry `SendRequest` leaves in the list after resending `e`: the same object, mutated. */
  function Reregistered(ep: Endpoint.Endpoint, e: Endpoint.Unconfirmed, uri: string, now: nat): Endpoint.Unconfirmed {
    var m := e.message;
    var stamped := if Uri.Decompose(m.options, uri).Ok? then m.(options := Uri.Decompose(m.options, uri).value, id := Endpoint.IdOf(ep.idHash)) else m;
    Endpoint.Unconfirmed(stamped, now, 1)
  }

  /** How one pass of the `BeginSending` loop ends. */
  datatype Pass = Pass(endpoint: Endpoint.Endpoint, sent: Option<Bytes>, faulted: bool)

  /**
   * One pass of the `BeginSending` loop as written. The first due entry goes through
   * `SendRequest`, which mutates it (attempts back to 1, the URI options added again, a fresh
   * ID) and appends it to the list being enumerated; the enumerator then throws, so the pass
   * faults and the removal loop never runs. `uri` is that entry's `Uri`. When nothing is due
   * the pass completes and removes the entries at the limit.
   */
  method SweepAsWritten(ep: Endpoint.Endpoint, hash: Bytes -> Endpoint.Digest, uri: string, now: nat, completed: bool)
    returns (p: Pass)
    requires AllConfirmable(ep.unconfirmed)
    ensures var i := FirstDue(ep.unconfirmed, now);
      i == |ep.unconfirmed| ==>
        p == Pass(ep.(unconfirmed := Sequences.Filter(ep.unconfirmed, Endpoint.Keeps)), None, false)
    ensures var i := FirstDue(ep.unconfirmed, now);
      i < |ep.unconfirmed| ==>
        var e' := Reregistered(ep, ep.unconfirmed[i], uri, now);
        && p.faulted
        && p.endpoint.unconfirmed == ep.unconfirmed[i := e'] + [e']
        && (p.sent.Some? ==> p.sent.value == Codec.Encode(e'.message))
        && (Uri.Decompose(ep.unconfirmed[i].message.options, uri).Err? ==> p.sent == None)
  {
    var i := FirstDue(ep.unconfirmed, now);
    if i == |ep.unconfirmed| {
      return Pass(ep.(unconfirmed := Sequences.Filter(ep.unconfirmed, Endpoint.Keeps)), None, false);
    }
    p := ResendAsWritten(ep, hash, uri, i, now, completed);
  }

  /** `SendRequest` on the entry at `i`, in the middle of the enumeration, and the fault after it. */
  method ResendAsWritten(ep: Endpoint.Endpoint, hash: Bytes -> Endpoint.Digest, uri: string, i: nat, now: nat, completed: bool)
    returns (p: Pass)
    requires i < |ep.unconfirmed| && ep.unconfirmed[i].message.mtype == Confirmable
    ensures var e' := Reregistered(ep, ep.unconfirmed[i], uri, now);
      && p.faulted
      && p.endpoint.unconfirmed == ep.unconfirmed[i := e'] + [e']
      && (p.sent.Some? ==> p.sent.value == Codec.Encode(e'.message))
      && (Uri.Decompose(ep.unconfirmed[i].message.options, uri).Err? ==> p.sent == None)
  {
    var m := ep.unconfirmed[i].message;
    var next, r := Endpoint.SendRequest(ep, hash, m, uri, now, completed);
    var e' := next.unconfirmed[|ep.unconfirmed|];
    assert r.Ok? ==> r.value.message == m.(options := Uri.Decompose(m.options, uri).value, id := Endpoint.IdOf(ep.idHash));
    assert e' == Reregistered(ep, ep.unconfirmed[i], uri, now);
    var sent := None;
    if r.Ok? {
      sent := r.value.datagram;
      assert sent.Some? ==> sent.value == Codec.Encode(r.value.message);
    }
    return Pass(next.(unconfirmed := ep.unconfirmed[i := e'] + [e']), sent, true);
  }

  /**
   * The `BeginSending` loop as written, one pass per time in `times`, on a list where every
   * entry is on its first attempt. No entry ever reaches `MAX_RETRANSMIT`, so none is ever
   * removed; the first resend faults the loop, so at most one message is ever resent. (The
   * loop is not even started: the `Task.Run` at CoapEndpoint.cs:120 is commented out.)
   */
  method SendingAsWritten(ep: Endpoint.Endpoint, hash: Bytes -> Endpoint.Digest, uri: string, times: seq<nat>, completed: bool)
    returns (next: Endpoint.Endpoint, resends: nat, faulted: bool)
    requires AllConfirmable(ep.unconfirmed) && AllFirstAttempt(ep.unconfirmed)
    ensures resends <= 1 && (resends == 1 <==> faulted)
    ensures |next.unconfirmed| == |ep.unconfirmed| + resends
    ensures AllFirstAttempt(next.unconfirmed)
    ensures !faulted ==> next.unconfirmed == ep.unconfirmed
  {
    next, resends, faulted := ep, 0, false;
    var j := 0;
    while j < |times| && !faulted
      invariant 0 <= j <= |times|
      invariant resends <= 1 && (resends == 1 <==> faulted)
      invariant |next.unconfirmed| == |ep.unconfirmed| + resends
      invariant AllFirstAttempt(next.unconfirmed)
      invariant !faulted ==> next.unconfirmed == ep.unconfirmed
    {
      var i := FirstDue(next.unconfirmed, times[j]);
      var p := SweepAsWritten(next, hash, uri, times[j], completed);
      if i < |next.unconfirmed| {
        ReplacedFirstAttempt(next.unconfirmed, i, Reregistered(next, next.unconfirmed[i], uri, times[j]));
        resends := 1;
      } else {
        Sequences.FilterNone(next.unconfirmed, Endpoint.Keeps);
      }
      next, faulted := p.endpoint, p.faulted;
      j := j + 1;
    }
  }

  lemma ReplacedFirstAttempt(entries: seq<Endpoint.Unconfirmed>, i: nat, e: Endpoint.Unconfirmed)
    requires AllFirstAttempt(entries) && i < |entries| && e.attempts == 1
    ensures AllFirstAttempt(entries[i := e] + [e]) && |entries[i := e] + [e]| == |entries| + 1
  {
  }

  // ---------------------------------------------------------------------------
  // ComposeUri on a received message (CoapMessage.cs:346, 585-596)

  /** The two null dereferences `ComposeUri` meets on a received message. */
  datatype Fault = NullOptions | NullDestination

  /**
   * `ComposeUri` as `FromByteArray` calls it. A datagram without options leaves `Options`
   * null, and the first `ContainsKey` dereferences it (CoapMessage.cs:590); with options but
   * no Uri-Host it reads `Destination.Address`, and `Destination` is never set on a received
   * message (CoapMessage.cs:596). With a Uri-Host the destination is never read, so the result
   * is what the corrected `Uri.Compose` gives for every fallback address.
   */
  function ComposeReceived(opts: Options): (r: Result<string, Fault>)
    ensures r.Err? <==> CoapOptions.UriHost !in Keys(opts)
    ensures r == Err(NullOptions) <==> opts == []
    ensures r.Ok? ==> forall fallback :: r.value == Uri.Compose(opts, fallback)
  {
    ContainsIffInstances(opts, CoapOptions.UriHost);
    if opts == [] then Err(NullOptions)
    else if |Lookup(opts, CoapOptions.UriHost)| == 0 then Err(NullDestination)
    else
      HostIgnoresFallback(opts);
      Ok(Uri.Compose(opts, ""))
  }

  lemma HostIgnoresFallback(opts: Options)
    requires |Lookup(opts, CoapOptions.UriHost)| > 0
    ensures forall fallback :: Uri.Compose(opts, fallback) == Uri.Compose(opts, "")
  {
  }

  /**
   * The empty message 40 00 00 00 decodes, and `FromByteArray` fails on it at the null
   * `Options`; the GET 40 01 00 00 B1 61, with the single Uri-Path "a", decodes and fails at
   * the null `Destination`. The corrected `Uri.FromByteArray` falls back to the source address
   * and succeeds on both.
   */
  lemma ReceivedWithoutHostFails(source: string)
    ensures Codec.Decode([0x40, 0, 0, 0]) == Ok(Message(1, Confirmable, [], 0, 0, [], None))
    ensures ComposeReceived([]) == Err(NullOptions)
    ensures Codec.Decode([0x40, 1, 0, 0, 0xB1, 0x61]) == Ok(Message(1, Confirmable, [], 1, 0, [Entry(11, [[0x61]])], None))
    ensures ComposeReceived([Entry(11, [[0x61]])]) == Err(NullDestination)
    ensures Uri.FromByteArray([0x40, 0, 0, 0], source).Ok?
    ensures Uri.FromByteArray([0x40, 1, 0, 0, 0xB1, 0x61], source).Ok?
  {
    EmptyMessageFails(source);
    GetWithoutHostFails(source);
  }

  lemma EmptyMessageFails(source: string)
    ensures Codec.Decode([0x40, 0, 0, 0]) == Ok(Message(1, Confirmable, [], 0, 0, [], None))
    ensures ComposeReceived([]) == Err(NullOptions)
    ensures Uri.FromByteArray([0x40, 0, 0, 0], source).Ok?
  {
    assert Codec.DecodeOptions([], 0, []) == Ok(([], None));
    assert TypeOf(0) == Confirmable;
  }

  lemma GetWithoutHostFails(source: string)
    ensures Codec.Decode([0x40, 1, 0, 0, 0xB1, 0x61]) == Ok(Message(1, Confirmable, [], 1, 0, [Entry(11, [[0x61]])], None))
    ensures ComposeReceived([Entry(11, [[0x61]])]) == Err(NullDestination)
    ensures Uri.FromByteArray([0x40, 1, 0, 0, 0xB1, 0x61], source).Ok?
  {
    DecodeGet();
    assert CoapOptions.UriHost !in Keys([Entry(11, [[0x61]])]);
  }

  lemma DecodeGet()
    ensures Codec.Decode([0x40, 1, 0, 0, 0xB1, 0x61]) == Ok(Message(1, Confirmable, [], 1, 0, [Entry(11, [[0x61]])], None))
  {
    var get: Bytes := [0x40, 1, 0, 0, 0xB1, 0x61];
    assert get[4..] == [0xB1, 0x61];
    GetOptions();
    DecodeNoToken(get, [Entry(11, [[0x61]])], None);
    assert TypeOf(0) == Confirmable;
  }

  /** A datagram with no token: the header fields, then whatever the options decode to. */
  lemma DecodeNoToken(bytes: Bytes, opts: Options, payload: Option<Bytes>)
    requires |bytes| >= 4 && bytes[0] % 16 == 0
    requires Codec.DecodeOptions(bytes[4..], 0, []) == Ok((opts, payload))
    ensures Codec.Decode(bytes) == Ok(Message(bytes[0] / 64, TypeOf((bytes[0] / 16) % 4), [], bytes[1], bytes[2] as int * 256 + bytes[3], opts, payload))
  {
    assert bytes[4..4] == [];
  }

  /** A failure of the option loop, with no token, is the failure of the whole decoding. */
  lemma DecodeNoTokenFails(bytes: Bytes, e: FormatError)
    requires |bytes| >= 4 && bytes[0] % 16 == 0
    requires Codec.DecodeOptions(bytes[4..], 0, []) == Err(e)
    ensures Codec.Decode(bytes) == Err(e)
  {
  }

  /** The option bytes B1 61: one Uri-Path instance "a", then the end of the datagram. */
  lemma GetOptions()
    ensures Codec.DecodeOptions([0xB1, 0x61], 0, []) == Ok(([Entry(11, [[0x61]])], None))
  {
    assert Codec.EncodeInstance(11, [0x61]) + [] == [0xB1, 0x61];
    CodecProofs.DecodeInstance([0xB1, 0x61], 11, [0x61], [], 0, []);
    assert Insert([], 11, [0x61]) == [Entry(11, [[0x61]])];
  }
}
