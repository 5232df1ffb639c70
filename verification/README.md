# CoAP message codec and endpoint bookkeeping in Dafny

This project models the protocol core of a small C# CoAP library (RFC 7252) and proves
properties of the model. It covers three parts:

- **The message codec** (`CoapMessage`, `CoapOption`, `CoapMessageCode`). `ToByteArray` and
  `FromByteArray` turn a message into the base format of section 3 of RFC 7252 and back. That
  format has a 4-byte header, a 0-8 byte token, delta-encoded options using the 13/269
  extended nibbles of section 3.1, and the 0xFF payload marker. The codec also holds the
  request/empty/response classification, the option map with its `AddOption` overloads, and
  `DecomposeUri`/`ComposeUri`. Those two convert between a `coap://host[:port]/path?query`
  string and the Uri-Host, Uri-Port, Uri-Path and Uri-Query options.
- **The option value formats** (`CoapOption`). The string, byte-string and integer
  constructors, the minimal big-endian uint encoding, and the format-dependent `ToString`.
- **The endpoint's reliability bookkeeping** (`CoapEndpoint`), as pure state transitions over
  a record. The record holds the unconfirmed list, the in-flight sends, the outgoing queue and
  the hash-chain state of the message-ID generator. The transitions are:
  - stamping a message ID and advancing the chain;
  - reaping finished sends and applying the in-flight cap;
  - registering Confirmable requests;
  - one retransmission sweep;
  - response correlation and handler dispatch.

  A send is an emitted datagram, and the clock is a number of seconds passed in.

## Module layout

| file | module | contents |
|---|---|---|
| wrappers.dfy | `Wrappers` | `Option`, `Result` with `:-` |
| bytes.dfy | `Bytes` | bytes, big-endian naturals, C# `int` as `int32` |
| text.dfy | `Text` | UTF-8 encoding, ASCII decoding, decimal rendering and parsing, `IndexOf`, `Split`, `Replace`, `ToLower` |
| message_code.dfy | `MessageCode` | the `CoapMessageCode` table and its class.detail packing |
| message.dfy | `Messages` | the message record, `CoapMessageType`, constructors, classification |
| coap_option.dfy | `CoapOptions` | option numbers and formats, the three constructors, `ToString` |
| option_map.dfy | `OptionMap` | the `SortedDictionary` of option lists, `AddOption` |
| option_tier.dfy | `OptionTier` | the nibble / one-byte / two-byte scheme for deltas and lengths |
| codec.dfy | `Codec` | `ToByteArray` and `FromByteArray` without the URI step |
| codec_proofs.dfy | `CodecProofs` | both codec round trips |
| uri.dfy | `Uri` | `DecomposeUri`, `ComposeUri`, and `FromByteArray` with its URI step |
| uri_proofs.dfy | `UriProofs` | the `DecomposeUri`/`ComposeUri` round trip |
| sequences.dfy | `Sequences` | the `List<T>` operations the endpoint uses (filtering, `Remove`) |
| endpoint.dfy | `Endpoint` | the `CoapEndpoint` state machine |
| as_written.dfy | `AsWritten` | source defects modelled as written, each with an input that shows it |

## Divergences from the code

The main model follows the evident intent, or RFC 7252, where the code is defective. Every such
place carries a `DIVERGENCE` comment. The ones with a concrete input are listed under
"## Findings", and `AsWritten` models each of them as written. The others are:

- `FromByteArray` treats a delta or length nibble of 15 outside the 0xFF marker byte as a
  format error, as section 3.1 of RFC 7252 requires (`OptionTier.ReadExtended`).
  - The code inspects the next byte after a delta of 15.
  - The code accepts a length of 15 as a literal length.
- A truncated extension, token or option value is a format error (`Codec.ReadOption`,
  `Codec.Decode`). The code's unchecked reads throw index or argument exceptions there. All
  exceptions of `FromByteArray` become one `FormatError` value each.
- The integer constructor of `CoapOption` never assigns `Number`; `CoapOptions.UintOption`
  does (Findings, row 8).
- A retransmission keeps the message and its ID, adds one attempt, sets `LastSent` to now and
  emits the datagram (`Endpoint.Retry`, `Endpoint.Sweep`). It does not go through the in-flight
  cap. Section 4.2 of RFC 7252 keeps the Message ID on retransmission. The code instead calls
  `SendRequest` in the middle of the `foreach` over the unconfirmed list (Findings, row 6).
  That call:
  - resets the attempts to 1;
  - adds the URI options again and stamps a fresh ID;
  - appends the entry to the list being enumerated, so the enumeration throws and the sweep
    loop ends.

  The loop is never started anyway: its `Task.Run` (CoapEndpoint.cs:120) is commented out.

## Model

| member | source | states |
|---|---|---|
| MessageCode.RequestCodesAreOneToFour | CoapMessageCode.cs:7 | a code is GET, POST, PUT or DELETE exactly when its value is 1 to 4 |
| MessageCode.EmptyIsZero | CoapMessageCode.cs:4 | `Empty` is 0, which is class 0, detail 0 |
| MessageCode.CodesDistinct | CoapMessageCode.cs:3-17 | no two members of the enumeration share a value, so the header code byte identifies the member |
| MessageCode.ResponseClasses | CoapMessageCode.cs:9-16 | success codes are class 2 with detail 1-5, client errors class 4, server errors class 5 |
| MessageCode.ResponsesAboveRequests | CoapMessageCode.cs:4-16 | every response code is above 4 and is neither a request code nor `Empty` |
| Messages.TypeRoundTrip | CoapMessage.cs:13 | the two type bits identify the message type: reading back the written number gives the same type |
| Messages.NewMessage | CoapMessage.cs:60-99 | a new message has version 1, no options, and the given type, token, code and payload; a token over 8 bytes throws |
| Messages.Classification | CoapMessage.cs:22-48 | `IsRequest` iff the code is 1-4, `IsEmpty` iff it is 0, never both, and with the corrected `IsResponse` exactly one of the three holds; every response code classifies as a response |
| CoapOptions.StringOption | CoapOption.cs:17-22 | the string constructor stores the number and the UTF-8 bytes of the text; `Length` is at least the character count, and equals it and decodes back to the text for ASCII |
| CoapOptions.UintValue | CoapOption.cs:31-48 | the integer constructor writes the value's 32-bit pattern big-endian in the fewest bytes; 0 gives no bytes, a positive value has a non-zero leading byte, a negative value takes 4 bytes |
| CoapOptions.UintValueBytes | CoapOption.cs:44-47 | byte `i` of the value, counted from the least significant end, lands at position `len - 1 - i` |
| CoapOptions.UintOption | CoapOption.cs:31-48 | the corrected integer constructor: the option carries the given number, and folding its bytes back gives the integer (as written, `Number` stays 0; Findings, row 8) |
| CoapOptions.UintRoundTrip | CoapOption.cs:80-87 | `ToString`'s uint fold undoes the integer constructor for every C# `int`, negative ones included |
| CoapOptions.FoldUint | CoapOption.cs:78-87 | the shift-and-add loop with 32-bit wrap-around computes the big-endian fold of the value |
| CoapOptions.ToStringCases | CoapOption.cs:50-167 | numbers 3, 8, 11, 15, 20, 35 and 39 render as text, 7, 12, 14, 17 and 60 as a decimal uint, and every other number as "" |
| CoapOptions.StringRendering | CoapOption.cs:60-63 | a string option built from ASCII text renders as that text |
| CoapOptions.UintRendering | CoapOption.cs:76-88 | a uint option built by the corrected constructor from `v` renders as the decimal of `v`, and an empty value renders as "0" |
| Text.Utf8 | CoapOption.cs:21 | the UTF-8 encoding has at least one byte per character, and exactly one per character for ASCII |
| Text.AsciiRoundTrip | CoapOption.cs:62 | `GetString` of the UTF-8 bytes of an ASCII string gives the string back |
| Text.IndexOfChar | CoapMessage.cs:487-488 | the result is -1 or a position at or after `from` that holds the character |
| Text.IndexOfCharFirst | CoapMessage.cs:487-488 | no position between `from` and the result holds the character, and none at all when the result is -1: the result is the first hit |
| Text.IndexOfString | CoapMessage.cs:465 | the result is the first position at or after `from` where the pattern occurs, or -1 when there is none |
| Text.Split | CoapMessage.cs:532 | the pieces between separators contain no separator, and there is at least one piece |
| Text.JoinSplit | CoapMessage.cs:542 | joining the pieces of a split with the same separator gives the string back, so no character is lost |
| OptionTier.Extension | CoapMessage.cs:412-433 | the extension after the option header is 0 bytes up to 12, 1 byte up to 268, and 2 bytes up to 65804 |
| OptionTier.ReadExtended | CoapMessage.cs:172-224 | reading a delta or length consumes only the bytes it was given and yields at most 65804; nibble 15 is a format error |
| OptionTier.TierBoundaries | CoapMessage.cs:383-407 | the tiers switch exactly at 12/13 and 268/269, and 65804 is the largest value written, as 0xFFFF |
| OptionTier.TierRoundTrip | CoapMessage.cs:383-433 | for every value up to 65804, reading the nibble and extension the encoder writes gives the value back and leaves the following bytes untouched |
| OptionTier.TierCanonical | CoapMessage.cs:203-218 | whatever the reader accepts is exactly the encoder's nibble and extension for the value read |
| OptionMap.ContainsIffInstances | CoapMessage.cs:576 | `ContainsKey` holds exactly when the number has at least one instance |
| OptionMap.InsertWellFormed | CoapMessage.cs:571-579 | adding an instance keeps the map sorted by number with no empty list |
| OptionMap.InsertSpec | CoapMessage.cs:569-582 | adding an instance adds its number to the keys, appends the value to that number's list, and leaves every other number's list as it was |
| OptionMap.AddOption | CoapMessage.cs:551-567 | the public overloads append the new option's value to the list of its own number and change no other list |
| Codec.EncodeInstance | CoapMessage.cs:409-436 | an encoded option never starts with the payload marker byte |
| Codec.Encode | CoapMessage.cs:352-455 | the datagram holds at least the 4 header bytes and the token |
| Codec.ReadOption | CoapMessage.cs:166-224 | one option read consumes at least its header byte |
| Codec.DecodeOptions | CoapMessage.cs:145-164 | a payload the loop returns is never empty |
| Codec.Decode | CoapMessage.cs:101-139 | fewer than 4 bytes, a token length over 8, and a token cut short are each rejected with their own error; a decoded payload is never empty |
| CodecProofs.EncodedFrame | CoapMessage.cs:356-368 | the encoder writes the version/type/token-length byte, the code, the ID high and low bytes, the token, then the options and the payload |
| CodecProofs.HeaderFieldsOf | CoapMessage.cs:357-363 | the header byte and ID bytes the encoder writes read back as the message's version, type, token length and ID |
| CodecProofs.HeaderLayout | CoapMessage.cs:105-139 | in a decoded message, version and type are below 4 and the token length is at most 8, and the first byte is 64 × version + 16 × type + token length; the code is byte 1; bytes 2-3 are the ID's high and low bytes; the token follows the header |
| CodecProofs.EntriesFlat | CoapMessage.cs:371-441 | the nested loops over keys and instances write the options in ascending number and, within a number, in list order |
| CodecProofs.BoundsFit | CoapMessage.cs:383-407 | option numbers up to 65535 and values up to 65804 bytes always fit the tiers |
| CodecProofs.DecodeInstance | CoapMessage.cs:166-341 | the decoder reads an encoded instance back: the running number grows by the delta and the value is appended to that number's list |
| CodecProofs.DecodeFlat | CoapMessage.cs:145-343 | decoding an encoded option sequence adds its instances one by one, in wire order, starting from the running number |
| CodecProofs.DecodePayload | CoapMessage.cs:443-447 | after the options, the decoder returns exactly the payload the encoder wrote, or none |
| CodecProofs.PayloadMarkerEnds | CoapMessage.cs:147-164 | after any encoded options, a marker byte followed by a non-empty payload decodes to those options and exactly that payload; a marker with nothing after it is a format error |
| CodecProofs.InsertAllLookup | CoapMessage.cs:326-341 | adding a sequence of instances appends, for each number, that number's values in arrival order |
| CodecProofs.RegroupFlatten | CoapMessage.cs:374-376 | re-adding a map's instances in wire order rebuilds the same map |
| CodecProofs.DecodeEncode | CoapMessage.cs:101-455 | decoding the encoding of a message reproduces its version, type, token, code, ID, every option list and its payload, when deltas and lengths fit the tiers and a payload is absent or non-empty |
| CodecProofs.DecodeEncodeBounded | CoapMessage.cs:352-455 | the round trip holds for every message with option numbers up to 65535, values up to 65804 bytes and an absent or non-empty payload |
| CodecProofs.Peel | CoapMessage.cs:166-236 | whenever the option loop accepts its first option, those bytes are the encoding of the delta and value it added |
| CodecProofs.AppendEncoding | CoapMessage.cs:374-439 | adding an instance at or above the running number appends exactly its encoding to the options' bytes |
| CodecProofs.EncodeDecoded | CoapMessage.cs:141-343 | what the option loop consumed is the encoding of the options and payload it produced |
| CodecProofs.EncodeDecode | CoapMessage.cs:101-349 | every datagram that decodes is re-encoded to the same bytes: the wire form is canonical |
| Uri.ParseInt | CoapMessage.cs:499-500 | a digit string parses to its value when that fits a C# `int`, and an empty port text is rejected |
| Uri.ParseIntDecimal | CoapMessage.cs:500 | the decimal text of any port below 2^31 parses back to the port |
| Uri.SplitQuery | CoapMessage.cs:520-527 | the path is the text before the first '?' and the query the text after it; with no '?' the query is empty |
| Uri.Parse | CoapMessage.cs:463-527 | the analysis fails with the missing-scheme error exactly when the string holds no "://"; a success has scheme coap or coaps, a host without ':' or '/', and a path without '?' |
| Uri.ParseAuthority | CoapMessage.cs:485-527 | after "://": a missing '/', or a first ':' after the first '/', is rejected as a malformed authority; a success keeps the scheme, its host holds no ':' or '/', and its path no '?' |
| Uri.ParseLocated | CoapMessage.cs:463-527 | a lower-cased scheme other than coap or coaps is unsupported. On success: the scheme is the lower-cased text before the first "://"; the host is the text after it, up to the first ':' or '/'; the port is the decimal between that ':' and the next '/', or 5683 for coap and 5684 for coaps when a '/' comes first; the path and query are the text after that '/', split at the first '?' |
| Uri.AuthorityLocated | CoapMessage.cs:485-527 | what a successful authority analysis returns lies in the text: the host right after "://", then '/' with the default port, or ':' and the port's decimal up to the next '/'; after that '/' come the path and, if anything follows, '?' and the query |
| Uri.HostClean | CoapMessage.cs:487-498 | the host is taken before the first ':' and the first '/', so it contains neither |
| Uri.AddStringsLookup | CoapMessage.cs:532-547 | each part is appended, left to right, to the instances of one number, and no other number changes |
| Uri.AddHost | CoapMessage.cs:509 | exactly one Uri-Host is added, and nothing else changes |
| Uri.AddPort | CoapMessage.cs:513-517 | a Uri-Port is added only for a port other than 5683 and 5684, and nothing else changes |
| Uri.AddPath | CoapMessage.cs:530-538 | one Uri-Path per '/'-separated piece is added, none for "" or "/", and nothing else changes |
| Uri.AddQuery | CoapMessage.cs:540-548 | one Uri-Query per '&'-separated piece is added, none for an empty query, and nothing else changes |
| Uri.ApplyLookup | CoapMessage.cs:504-548 | each number's list grows by exactly the instances the URI contributes for it, after the ones already there |
| Uri.Decompose | CoapMessage.cs:458-548 | without "://" it fails; on success exactly one Uri-Host is added and options other than the four URI options are untouched |
| Uri.EscapedPathClean | CoapMessage.cs:609 | an escaped path segment contains no ':' or '@' |
| Uri.EscapedQueryClean | CoapMessage.cs:629 | an escaped query part contains none of '&', ':', '@', '/' and '?' |
| Uri.Compose | CoapMessage.cs:585-636 | the composed URI always starts with "coap://" |
| Uri.FromByteArray | CoapMessage.cs:345-348 | a received datagram yields a message and URI exactly when it decodes, for every datagram, including one without Uri-Host |
| UriProofs.ParseCoapUri | CoapMessage.cs:464-527 | analysing a composable coap URI finds exactly its host, port (default 5683), path and query |
| UriProofs.HostPart | CoapMessage.cs:590-593 | an ASCII host stored as Uri-Host is written back unchanged |
| UriProofs.PortPart | CoapMessage.cs:599-602 | a stored Uri-Port is written back as ':' and its decimal; with none, nothing is written |
| UriProofs.PathSegment | CoapMessage.cs:607-610 | a path segment with no ':' or '@' is written back unescaped |
| UriProofs.QueryPart | CoapMessage.cs:617-630 | a query part with none of the escaped characters is written back unescaped |
| UriProofs.PathTextJoin | CoapMessage.cs:604-612 | the Uri-Path instances are written as '/' before each segment, which rejoins the split path |
| UriProofs.QueryTextJoin | CoapMessage.cs:614-631 | the Uri-Query instances are written as '?' before the first and '&' before each later one, which rejoins the split query |
| UriProofs.ComposeApply | CoapMessage.cs:585-636 | composing the options decomposed from a composable URI's parts gives the URI's text |
| UriProofs.ComposeDecompose | CoapMessage.cs:458-636 | with the corrected integer constructor, decomposing a composable coap URI succeeds, and composing the result gives the same string, whatever the fallback host |
| Sequences.RemoveFirst | CoapEndpoint.cs:180 | `List.Remove` leaves the list unchanged when the element is absent, and otherwise shortens it by one |
| Sequences.RemoveFirstCount | CoapEndpoint.cs:342 | `List.Remove` takes away exactly one occurrence of the element |
| Sequences.FilterSubsequence | CoapEndpoint.cs:225-229 | removing entries keeps the others in their original order |
| Endpoint.Init | CoapEndpoint.cs:52-96 | a new endpoint has empty lists and its ID chain starts at the hash of the local address |
| Endpoint.IdOf | CoapEndpoint.cs:322-323 | the message ID is the first hash byte times 256 plus the second, so it always fits 16 bits |
| Endpoint.Reap | CoapEndpoint.cs:331-343 | removing the collected finished sends leaves exactly the sends still in progress, in their original order |
| Endpoint.SendMessage | CoapEndpoint.cs:318-379 | with the URI decomposed, the message gets the current chain state's ID and the chain advances; past 100 sends in progress it is queued and nothing is sent, otherwise its encoding is sent and stays in flight unless it completed; a rejected URI changes nothing |
| Endpoint.SendRequest | CoapEndpoint.cs:380-394 | a Confirmable message, and only one, is appended to the unconfirmed list with `LastSent` now and one attempt, and the rest of the state is what `SendMessage` leaves |
| Endpoint.Retry | CoapEndpoint.cs:213-220 | an entry below the limit that has waited at least `ACK_TIMEOUT` is resent with one more attempt and `LastSent` now; any other entry is unchanged |
| Endpoint.Examine | CoapEndpoint.cs:207-222 | the pass marks exactly the entries at the limit, resends exactly the due ones in list order, and updates each entry as `Retry` does |
| Endpoint.RemoveMarked | CoapEndpoint.cs:225-229 | dropping the marked entries after the pass leaves the updated entries below the limit, in order |
| Endpoint.Sweep | CoapEndpoint.cs:204-229 | one sweep keeps and updates the entries below the limit, emits one datagram per due entry, and changes nothing else in the endpoint |
| Endpoint.SweepRemovesExactlyMarked | CoapEndpoint.cs:204-229 | the sweep removes every entry at the limit, keeps every other entry as often as it occurred, and keeps their order |
| Endpoint.GivingUpNotResent | CoapEndpoint.cs:209-212 | entries at the limit produce no datagram |
| Endpoint.ResendsBounded | CoapEndpoint.cs:207-222 | however the sweeps are timed, an entry is resent at most `MAX_RETRANSMIT` minus its attempts so far |
| Endpoint.Correlate | CoapEndpoint.cs:176-183 | correlation removes at most one unconfirmed entry |
| Endpoint.CorrelateRemovesFirstMatch | CoapEndpoint.cs:176-183 | the removed entry is the first whose ID matches the response, and with no match the list is unchanged |
| Endpoint.Dispatch | CoapEndpoint.cs:169-190 | exactly one handler runs: the request handler iff the message is a request, the response handler iff it is a response, the empty handler iff it is empty |
| Endpoint.Receive | CoapEndpoint.cs:154-192 | a datagram is handled exactly when it decodes; only a response changes the state, by correlating the unconfirmed list, and the handler is the dispatch choice |
| AsWritten.TypeField | CoapMessage.cs:118 | the type mask as written yields 0 for every header byte |
| AsWritten.TokenLengthField | CoapMessage.cs:119 | the token-length mask as written yields 0 for every header byte |
| AsWritten.HeaderMasksLoseFields | CoapMessage.cs:116-139 | header byte 0x51 reads as Confirmable with no token as written, while the corrected decoder reads NonConfirmable with token [7] |
| AsWritten.DeltaExtension | CoapMessage.cs:416-421 | as written, every delta from 269 to 65804 gets the extension bytes 0xFF 0xC9 |
| AsWritten.DeltaExtensionMisread | CoapMessage.cs:416-421 | a delta of 300 written as the code does reads back as 65750; the corrected extension reads back as 300 |
| AsWritten.DispatchAsWritten | CoapEndpoint.cs:169-190 | as written, the response handler never runs; the request handler runs exactly for requests |
| AsWritten.ResponseNeverRecognised | CoapMessage.cs:32-38 | a 2.05 response goes to the empty-message handler as written, and to the response handler in the corrected model |
| AsWritten.TokenLengthZeroBreaksRoundTrip | CoapMessage.cs:357 | with the token-length field left 0, a GET with token [7] encodes to bytes that fail to decode; the corrected encoder's output decodes back to the message |
| AsWritten.StringLength | CoapOption.cs:20 | the string constructor's `Length` counts UTF-16 code units: at least one and at most two per character, never more than the UTF-8 byte count, and equal to it exactly for ASCII text |
| AsWritten.StringLengthMismatch | CoapOption.cs:17-22 | "é" gets `Length` 1 and the emoji U+1F600 gets 2, while their values hold 2 and 4 bytes; the corrected length is the byte count |
| AsWritten.UintOptionAsWritten | CoapOption.cs:31-48 | the integer constructor writes the same value bytes as the corrected one, but its option renders as "" |
| AsWritten.ComposeAsWritten | CoapMessage.cs:585-602 | `ComposeUri` over a Uri-Port built by the integer constructor writes the ':' without the digits; the corrected URI is the as-written one with the port's digits put back after that ':', and without a Uri-Port the two agree |
| AsWritten.PortLostAsWritten | CoapMessage.cs:513-516 | for every composable URI with a non-default port, such as "coap://h:1234/", composing the decomposed options as written loses the port's digits, while the corrected conversion gives the URI back |
| AsWritten.FirstDue | CoapEndpoint.cs:207-222 | the position of the first entry below the limit that has waited `ACK_TIMEOUT`, or the list's length when there is none |
| AsWritten.ResendAsWritten | CoapEndpoint.cs:380-394 | as written, resending the entry at `i` mutates it in place: attempts back to 1, `LastSent` now, the URI options added again, a fresh ID. It also appends it to the list, and the enumeration faults |
| AsWritten.SweepAsWritten | CoapEndpoint.cs:204-229 | one pass as written: with no due entry it removes the entries at the limit; otherwise it resends the first due entry, appends it and faults, and removes nothing |
| AsWritten.SendingAsWritten | CoapEndpoint.cs:196-234 | the sending loop as written, on entries on their first attempt: no entry is ever removed, at most one message is ever resent, and the loop faults exactly when one is |
| AsWritten.ComposeReceived | CoapMessage.cs:585-597 | `ComposeUri` on a decoded message fails exactly when it has no Uri-Host; with no options at all it fails at the null option map; with a Uri-Host it is the corrected `ComposeUri` for every fallback address |
| AsWritten.ReceivedWithoutHostFails | CoapMessage.cs:585-596 | the empty message 40 00 00 00 decodes, and `FromByteArray` fails on it at the null option map. The GET 40 01 00 00 B1 61, with Uri-Path "a", decodes and fails at the null destination. The corrected `FromByteArray` succeeds on both |

## Left out

- UDP sockets, `ReceiveAsync`/`SendAsync`, the `Task.WhenAny`/`Task.Delay` polling and the one-second sweep cadence (CoapEndpoint.cs:92-93, 139-152, 197-234, 362): these are I/O and concurrency. A send is an emitted datagram. Whether `SendAsync` completed at once is a parameter (`completed`), and a task's later state is a field of `SendTask`.
- `StartListening`, `WaitForStop` and the Ctrl-C wiring (CoapEndpoint.cs:106-136): process lifecycle.
- The `With…Handler` setters and the handler classes and interfaces: the handler call is modelled as the choice of handler (`Endpoint.Handler`).
- `SendGet`, `SendPost`, `SendPut`, `SendDelete` (CoapEndpoint.cs:238-313): each builds a message (`Messages.NewMessage`) and calls `SendRequest` (`Endpoint.SendRequest`). Their JSON serialisation of the payload is not modelled.
- `SendResponse` (CoapEndpoint.cs:396-402): an empty stub.
- SHA-256 (CoapEndpoint.cs:59, 96, 326): a foreign call, passed in as the parameter `hash`, whose results are 32 bytes long.
- `ACK_RANDOM_FACTOR` (a float, never used) and `NSTART`, `DEFAULT_LEISURE`, `PROBING_RATE` (never used).
- The outgoing queue is only ever appended to. The code never drains it ("kick queue" is not written), so the model has no transition that drains it either.
- `System.Uri` (CoapMessage.cs:464, 635): a URI is its plain string. `Uri.ToString` normalisation and the validation in `new Uri(…)` are not modelled.
- Uri.ParseInt: accepts an optional sign and decimal digits within the range of a C# `int`. It does not model the leading and trailing white space `int.Parse` also accepts.
- Uri.ParseAuthority: a missing '/', or a ':' after the first '/', is reported as `MalformedAuthority`. `DecomposeUri` throws an `ArgumentOutOfRangeException` there, from `Substring` with a negative length.
- Uri.Parse: its own contract covers the missing scheme and what a success cannot contain. Where the parts lie in the text is stated by `Uri.ParseLocated`, which also covers the unsupported scheme.
- Text.TextOf: `Encoding.UTF8.GetString` is exact on ASCII bytes only; any other byte decodes to U+FFFD, so multi-byte characters are not reassembled.
- Text.ToLower: lowers the ASCII letters only, which is all that matters for comparing against "coap" and "coaps".
- `CoapMessageType` and `CoapOptionNumber` are not part of this model's source. Their values are taken from RFC 7252: Confirmable 0 to Reset 3, and the option numbers of section 5.10.
- `IPEndPoint` source and destination addresses are not part of the message record. The fallback host of `ComposeUri` is passed in explicitly.
- The exception types of `FromByteArray` and `DecomposeUri` become `FormatError` and `UriError` values. The code's unchecked reads throw index or argument exceptions, not `CoapMessageFormatException`.
- `Receive` rethrows the decode exception, which ends the receive loop; here it is an `Err` result.
- OptionMap.Insert: its properties are stated by the lemma `OptionMap.InsertSpec` instead of its own contract. This keeps proofs that mention it cheap.
- Endpoint.SendRequest: the unconfirmed list holds the message object itself, which `SendMessage` mutates afterwards. The entry is modelled as the stamped message, the one `SendMessage` sent.
- Codec.Encode: its own contract is only a length bound. What it writes is stated by `CodecProofs.EncodedFrame` and the round trips.
- Uri.Compose: its own contract only fixes the scheme. What it writes is stated by the `UriProofs` lemmas.
- Codec.ReadOption: its own contract only says that it consumes input. What it reads is stated by `CodecProofs.ReadOptionOf`, `CodecProofs.Peel` and `OptionTier.TierCanonical`.
- Codec.DecodeOptions: its own contract only excludes an empty payload. What it builds is stated by `CodecProofs.DecodeFlat`, `CodecProofs.EncodeDecoded` and `CodecProofs.PayloadMarkerEnds`.
- Codec.EncodeInstance: its own contract only keeps the first byte off the marker. How an instance reads back is stated by `CodecProofs.DecodeInstance`.
- Uri.Decompose: its own contract covers the missing scheme, the one added Uri-Host and the untouched other options. The full effect is stated by `Uri.ParseLocated` with `Uri.ApplyLookup`.
- Endpoint.Correlate: its own contract only bounds the length. Which entry goes is stated by `Endpoint.CorrelateRemovesFirstMatch`.
- Text.IndexOfChar: its own contract only says the result is -1 or a hit. That it is the first hit, and -1 only when there is none, is stated by `Text.IndexOfCharFirst`.
- Text.Split: its own contract only says what the pieces lack. That nothing is lost is stated by `Text.JoinSplit`.
- AsWritten.StringLength: a Dafny `char` is a Unicode scalar value, so the lone surrogates a C# string may hold (each one code unit) cannot be expressed; a character above U+FFFF counts as its surrogate pair.
- AsWritten.SweepAsWritten: the message record carries no `Uri` property, so the URI `SendMessage` decomposes again is passed in as `uri`. Only the first due entry is resent in a pass, so one URI suffices.
- AsWritten.SendingAsWritten: requires every entry to be Confirmable and on its first attempt. `SendRequest` creates no other entry, and the as-written sweep keeps it that way.

## Findings

| source | as written | input that shows it | evidently intended | confidence | as-written member | corrected member |
|---|---|---|---|---|---|---|
| CoapMessage.cs:118-119 | `(b & 0x30000000) >> 4` and `b & 0x0f000000` on a header byte | header byte 0x51 (NonConfirmable, one-byte token) reads as Confirmable with no token | `(b & 0x30) >> 4` and `b & 0x0f` | high, not executed | AsWritten.HeaderMasksLoseFields | CodecProofs.DecodeEncode |
| CoapMessage.cs:418 | `val = optionDelta - 69`, where `optionDelta` is the nibble 14 | an option delta of 300 is written as 0xFF 0xC9 and read back as 65750 | `delta - 269`, as the length branch at line 430 does | high, not executed | AsWritten.DeltaExtensionMisread | OptionTier.TierRoundTrip |
| CoapMessage.cs:37 | `IsResponse` returns false on every path | a 2.05 Content message (code 69) goes to the empty-message handler | true when the code is neither empty nor a request | high, not executed | AsWritten.ResponseNeverRecognised | Messages.Classification |
| CoapMessage.cs:357 | the header carries the `TokenLength` property, which the token constructors never set | a GET with token [7] encodes to 40 01 00 00 07, which fails to decode | the token-length field is the token's length | high, not executed | AsWritten.TokenLengthZeroBreaksRoundTrip | CodecProofs.DecodeEncode |
| CoapOption.cs:20 | `Length = value.Length` counts UTF-16 code units | "é" gets `Length` 1 and a two-byte value; U+1F600 gets 2 and a four-byte value | `Length` is the number of UTF-8 bytes | high, not executed | AsWritten.StringLengthMismatch | CoapOptions.StringOption |
| CoapEndpoint.cs:207-229 | a due entry is resent through `SendRequest` inside the `foreach` over `unconfirmed`. `SendRequest` sets `SendAttempts` to 1, re-runs `DecomposeUri` (a second Uri-Host), stamps a fresh ID and appends the entry to `unconfirmed` (line 390) | one unanswered Confirmable request 2 s after it was sent: it is resent, listed twice, and the next `MoveNext` throws `InvalidOperationException`. The sweep loop ends, so nothing is ever resent again, and no entry is ever removed | one more attempt per resend with the same ID, no re-registration, and removal at `MAX_RETRANSMIT` | high, not executed | AsWritten.SendingAsWritten | Endpoint.ResendsBounded |
| CoapMessage.cs:585-596 | `ComposeUri` dereferences `Options`, which stays null when no option was read (line 328), and reads `Destination.Address`, and `Destination` is never set on a received message | the empty message 40 00 00 00 throws at line 590; the GET 40 01 00 00 B1 61 (Uri-Path "a") throws at line 596 | no null map on a message without options, and the address the datagram came from as the fallback host | high, not executed | AsWritten.ReceivedWithoutHostFails | Uri.FromByteArray |
| CoapOption.cs:31-48 | the integer constructor never assigns `Number`, so `ToString` (line 52) falls through to `string.Empty` (line 166) | `ComposeUri` after `DecomposeUri("coap://h:1234/")` writes "coap://h:/" (CoapMessage.cs:601) | `Number = number`, as the other two constructors do | high, not executed | AsWritten.PortLostAsWritten | UriProofs.ComposeDecompose |
