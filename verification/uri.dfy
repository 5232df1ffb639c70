/**
 * `DecomposeUri` and `ComposeUri`: the conversion between a `coap://host[:port]/path?query`
 * string and the Uri-Host, Uri-Port, Uri-Path and Uri-Query options (sections 6.4 and 6.5
 * of RFC 7252, as far as the source follows them). A URI is a plain string here.
 */
module Uri {
  import opened Wrappers
  import opened Bytes
  import opened Text
  import opened CoapOptions
  import opened OptionMap
  import opened Messages
  import Codec

  /** The exceptions `DecomposeUri` throws, one variant per cause. */
  datatype UriError =
    | MissingScheme       // no "://" in the string
    | UnsupportedScheme   // a scheme other than coap or coaps
    | MalformedAuthority  // no '/' after the authority, or the first ':' lies after it
    | InvalidPort         // `int.Parse` rejects the port text

  const CoapPort: int32 := 5683
  const CoapsPort: int32 := 5684

  function DefaultPort(scheme: string): int32 {
    if scheme == "coap" then CoapPort else CoapsPort
  }

  /**
   * `int.Parse` of the port text: an optional sign and at least one decimal digit, within
   * the range of a C# `int`.
   */
  function ParseInt(s: string): (r: Result<int32, UriError>)
    ensures IsDigits(s) && |s| > 0 ==> (r.Ok? <==> ParseDigits(s) < TWO31)
    ensures IsDigits(s) && r.Ok? ==> r.value == ParseDigits(s)
    ensures |s| == 0 ==> r == Err(InvalidPort)
  {
    if |s| > 0 && (s[0] == '-' || s[0] == '+') then
      var digits := s[1..];
      if |digits| == 0 || !IsDigits(digits) then Err(InvalidPort)
      else
        var n: int := ParseDigits(digits);
        if s[0] == '-' then (if n <= TWO31 then Ok(-n) else Err(InvalidPort))
        else (if n < TWO31 then Ok(n) else Err(InvalidPort))
    else if |s| == 0 || !IsDigits(s) then Err(InvalidPort)
    else
      var n := ParseDigits(s);
      if n < TWO31 then Ok(n) else Err(InvalidPort)
  }

  /** The decimal text of a port is parsed back to the port. */
  lemma ParseIntDecimal(n: nat)
    requires n < TWO31
    ensures ParseInt(Decimal(n)) == Ok(n)
  {
    ParseDecimal(n);
  }

  /** The path and query of the text after the first '/': split at the first '?'. */
  function SplitQuery(s: string): (r: (string, string))
    ensures '?' !in r.0
    ensures '?' in s ==> s == r.0 + "?" + r.1
    ensures '?' !in s ==> r == (s, "")
  {
    var idx := IndexOfChar(s, '?', 0);
    IndexOfCharFirst(s, '?', 0);
    if idx == -1 then (s, "") else (s[..idx], s[idx + 1..])
  }

  /** What `DecomposeUri` reads out of the string before it adds any option. */
  datatype UriParts = UriParts(scheme: string, host: string, port: int32, path: string, query: string)

  /**
   * The string analysis of `DecomposeUri` (CoapMessage.cs:458-502, 520-527). The scheme is the
   * lower-cased text before the first "://" and must be coap or coaps. The host follows the
   * "://" up to the first ':' or '/'. The port is the decimal text between that ':' and the next
   * '/', or the scheme's default port when a '/' comes first. After the '/' come the path and,
   * after the first '?', the query. Where each part lies in `url` is stated by `ParseLocated`.
   */
  function Parse(url: string): (r: Result<UriParts, UriError>)
    ensures IndexOfString(url, "://", 0) == -1 <==> r == Err(MissingScheme)
    ensures r.Ok? ==> r.value.scheme == "coap" || r.value.scheme == "coaps"
    ensures r.Ok? ==> ':' !in r.value.host && '/' !in r.value.host && '?' !in r.value.path
  {
    var idx := IndexOfString(url, "://", 0);
    if idx == -1 then Err(MissingScheme)
    else
      var scheme := ToLower(url[..idx]);
      if scheme != "coap" && scheme != "coaps" then Err(UnsupportedScheme)
      else ParseAuthority(url, scheme, idx + 3)
  }

  /** What follows the "://": host, optional port, then the path and query after the first '/'. */
  function ParseAuthority(url: string, scheme: string, start: nat): (r: Result<UriParts, UriError>)
    requires start <= |url|
    ensures IndexOfChar(url, '/', start) == -1 ==> r == Err(MalformedAuthority)
    ensures var colon := IndexOfChar(url, ':', start);
      colon != -1 && IndexOfChar(url, '/', start) < colon ==> r == Err(MalformedAuthority)
    ensures r.Ok? ==> r.value.scheme == scheme && ':' !in r.value.host && '/' !in r.value.host && '?' !in r.value.path
  {
    var colon := IndexOfChar(url, ':', start);
    var slash := IndexOfChar(url, '/', start);
    // `Substring` throws on the negative length these two cases produce
    if slash == -1 || (colon != -1 && slash < colon) then Err(MalformedAuthority)
    else
      var port := if colon == -1 then Ok(DefaultPort(scheme)) else ParseInt(url[colon + 1..slash]);
      if port.Err? then Err(port.error)
      else
        var host := if colon == -1 then url[start..slash] else url[start..colon];
        HostClean(url, start, colon, slash);
        var split := SplitQuery(url[slash + 1..]);
        Ok(UriParts(scheme, host, port.value, split.0, split.1))
  }

  /**
   * Where `Parse` finds the parts: an unsupported scheme is an error; otherwise the scheme is
   * the lower-cased text before the first "://", and the host, port, path and query sit after
   * it as `HostPortAt` and `PathAt` say.
   */
  lemma ParseLocated(url: string)
    ensures var idx := IndexOfString(url, "://", 0);
      idx != -1 && ToLower(url[..idx]) != "coap" && ToLower(url[..idx]) != "coaps" ==> Parse(url) == Err(UnsupportedScheme)
    ensures var r := Parse(url); var idx := IndexOfString(url, "://", 0);
      r.Ok? ==>
        && idx != -1 && r.value.scheme == ToLower(url[..idx])
        && HostPortAt(url, idx + 3, r.value.scheme, r.value.host, r.value.port)
        && PathAt(url, idx + 3, r.value.path, r.value.query)
  {
    var idx := IndexOfString(url, "://", 0);
    if idx != -1 {
      var scheme := ToLower(url[..idx]);
      if scheme == "coap" || scheme == "coaps" {
        AuthorityLocated(url, scheme, idx + 3);
      }
    }
  }

  /** The parts `ParseAuthority` returns sit in `url` after `start` as `HostPortAt` and `PathAt` say. */
  lemma AuthorityLocated(url: string, scheme: string, start: nat)
    requires start <= |url|
    ensures var r := ParseAuthority(url, scheme, start);
      r.Ok? ==> HostPortAt(url, start, scheme, r.value.host, r.value.port) && PathAt(url, start, r.value.path, r.value.query)
  {
    var colon := IndexOfChar(url, ':', start);
    var slash := IndexOfChar(url, '/', start);
    var r := ParseAuthority(url, scheme, start);
    if r.Ok? {
      HostLocated(url, start, colon, slash, scheme, r.value.host, r.value.port);
    }
  }

  /** The host lies before the first ':' and the first '/', so it holds neither. */
  lemma HostClean(url: string, start: nat, colon: int, slash: int)
    requires start <= |url| && colon == IndexOfChar(url, ':', start) && slash == IndexOfChar(url, '/', start)
    requires slash != -1 && (colon == -1 || colon <= slash)
    ensures var host := if colon == -1 then url[start..slash] else url[start..colon];
      ':' !in host && '/' !in host
  {
    IndexOfCharFirst(url, ':', start);
    IndexOfCharFirst(url, '/', start);
  }

  /**
   * Where `host` and `port` sit in `url` after position `start`: the host text comes first;
   * then either a '/', and the port is the scheme's default, or a ':' followed by the port's
   * decimal text up to the next '/'.
   */
  predicate HostPortAt(url: string, start: nat, scheme: string, host: string, port: int32) {
    var after := start + |host|;
    && after < |url| && url[start..after] == host
    && (url[after] == '/' ==> port == (if scheme == "coap" then CoapPort else CoapsPort))
    && (url[after] != '/' ==>
          var slash := IndexOfChar(url, '/', after);
          url[after] == ':' && after < slash && ParseInt(url[after + 1..slash]) == Ok(port))
  }

  /** After the first '/' from `start` comes `path`, then, if the text goes on, '?' and `query`. */
  predicate PathAt(url: string, start: nat, path: string, query: string) {
    var slash := IndexOfChar(url, '/', start);
    && slash != -1
    && (url[slash + 1..] == path || url[slash + 1..] == path + "?" + query)
  }

  lemma HostLocated(url: string, start: nat, colon: int, slash: int, scheme: string, host: string, port: int32)
    requires start <= |url| && colon == IndexOfChar(url, ':', start) && slash == IndexOfChar(url, '/', start)
    requires slash != -1 && (colon == -1 || colon < slash)
    requires host == if colon == -1 then url[start..slash] else url[start..colon]
    requires colon == -1 ==> port == DefaultPort(scheme)
    requires colon != -1 ==> ParseInt(url[colon + 1..slash]) == Ok(port)
    ensures HostPortAt(url, start, scheme, host, port)
  {
    if colon != -1 {
      IndexOfCharFirst(url, '/', start);
      IndexOfCharFrom(url, '/', start, colon);
    }
  }

  /** Searching from a later position finds the same character when none was skipped. */
  lemma {:induction false} IndexOfCharFrom(s: string, c: char, from: nat, mid: nat)
    requires from <= mid <= |s|
    requires forall i :: from <= i < mid ==> s[i] != c
    ensures IndexOfChar(s, c, mid) == IndexOfChar(s, c, from)
    decreases mid - from
  {
    if from < mid {
      IndexOfCharFrom(s, c, from + 1, mid);
    }
  }

  function Utf8All(parts: seq<string>): (r: seq<Bytes>)
    ensures |r| == |parts|
    ensures forall i :: 0 <= i < |parts| ==> r[i] == Utf8(parts[i])
  {
    if |parts| == 0 then [] else [Utf8(parts[0])] + Utf8All(parts[1..])
  }

  /** The `foreach` loops of `DecomposeUri`: one string option per part, left to right. */
  function AddStrings(opts: Options, number: nat, parts: seq<string>): Options
    decreases |parts|
  {
    if |parts| == 0 then opts else AddStrings(AddString(opts, number, parts[0]), number, parts[1..])
  }

  /** The parts are appended, in order, to the instances of `number`, and no other key changes. */
  lemma {:induction false} AddStringsLookup(opts: Options, number: nat, parts: seq<string>, k: nat)
    ensures Lookup(AddStrings(opts, number, parts), k)
         == if k == number then Lookup(opts, number) + Utf8All(parts) else Lookup(opts, k)
    decreases |parts|
  {
    if |parts| > 0 {
      var next := AddString(opts, number, parts[0]);
      AddStringsLookup(next, number, parts[1..], k);
      assert Utf8All(parts) == [Utf8(parts[0])] + Utf8All(parts[1..]);
    }
  }

  /** A path of "" or "/" adds no Uri-Path option. */
  predicate HasPath(path: string) {
    path != "" && path != "/"
  }

  lemma AddStringsLookups(opts: Options, number: nat, parts: seq<string>)
    ensures forall k ::
      Lookup(AddStrings(opts, number, parts), k) == Lookup(opts, k) + (if k == number then Utf8All(parts) else [])
  {
    forall k ensures Lookup(AddStrings(opts, number, parts), k)
         == Lookup(opts, k) + (if k == number then Utf8All(parts) else [])
    {
      AddStringsLookup(opts, number, parts, k);
    }
  }

  /** The instances `DecomposeUri` adds under the option number `k`. */
  function Added(p: UriParts, k: nat): seq<Bytes> {
    if k == UriHost then [Utf8(p.host)]
    else if k == UriPort then (if p.port != CoapPort && p.port != CoapsPort then [UintValue(p.port)] else [])
    else if k == UriPath then (if HasPath(p.path) then Utf8All(Split(p.path, '/')) else [])
    else if k == UriQuery then (if p.query != "" then Utf8All(Split(p.query, '&')) else [])
    else []
  }

  /** Uri-Host is always added (CoapMessage.cs:509). */
  function AddHost(opts: Options, p: UriParts): (r: Options)
    ensures forall k :: Lookup(r, k) == Lookup(opts, k) + (if k == UriHost then Added(p, k) else [])
  {
    AddString(opts, UriHost, p.host)
  }

  /** Uri-Port only for a port other than 5683 and 5684, whatever the scheme (CoapMessage.cs:513-517). */
  function AddPort(opts: Options, p: UriParts): (r: Options)
    ensures forall k :: Lookup(r, k) == Lookup(opts, k) + (if k == UriPort then Added(p, k) else [])
  {
    if p.port != CoapPort && p.port != CoapsPort then AddUint(opts, UriPort, p.port) else opts
  }

  /** One Uri-Path per piece between '/', unless the path is "" or "/" (CoapMessage.cs:530-538). */
  function AddPath(opts: Options, p: UriParts): (r: Options)
    ensures forall k :: Lookup(r, k) == Lookup(opts, k) + (if k == UriPath then Added(p, k) else [])
  {
    if HasPath(p.path) then
      AddStringsLookups(opts, UriPath, Split(p.path, '/'));
      AddStrings(opts, UriPath, Split(p.path, '/'))
    else opts
  }

  /** One Uri-Query per piece between '&', unless the query is empty (CoapMessage.cs:540-548). */
  function AddQuery(opts: Options, p: UriParts): (r: Options)
    ensures forall k :: Lookup(r, k) == Lookup(opts, k) + (if k == UriQuery then Added(p, k) else [])
  {
    if p.query != "" then
      AddStringsLookups(opts, UriQuery, Split(p.query, '&'));
      AddStrings(opts, UriQuery, Split(p.query, '&'))
    else opts
  }

  /** The options `DecomposeUri` adds once the string is analysed (CoapMessage.cs:509-548). */
  function Apply(opts: Options, p: UriParts): Options {
    AddQuery(AddPath(AddPort(AddHost(opts, p), p), p), p)
  }

  /** `Apply` adds exactly `Added(p, k)` under each number `k`, after what was there. */
  lemma ApplyLookup(opts: Options, p: UriParts)
    ensures forall k :: Lookup(Apply(opts, p), k) == Lookup(opts, k) + Added(p, k)
  {
    forall k ensures Lookup(Apply(opts, p), k) == Lookup(opts, k) + Added(p, k) {
      ApplyLookupAt(opts, p, k);
    }
  }

  lemma ApplyLookupAt(opts: Options, p: UriParts, k: nat)
    ensures Lookup(Apply(opts, p), k) == Lookup(opts, k) + Added(p, k)
  {
    var a := AddHost(opts, p);
    var b := AddPort(a, p);
    var c := AddPath(b, p);
    var none: seq<Bytes> := [];
    assert Lookup(a, k) == Lookup(opts, k) + (if k == UriHost then Added(p, k) else none);
    assert Lookup(b, k) == Lookup(a, k) + (if k == UriPort then Added(p, k) else none);
    assert Lookup(c, k) == Lookup(b, k) + (if k == UriPath then Added(p, k) else none);
    assert Lookup(Apply(opts, p), k) == Lookup(c, k) + (if k == UriQuery then Added(p, k) else none);
    if k != UriHost && k != UriPort && k != UriPath && k != UriQuery {
      assert Added(p, k) == none;
    }
  }

  /**
   * `DecomposeUri` (CoapMessage.cs:458-548): the URI options appended to `opts`.
   * No option is added when the string is rejected.
   */
  function Decompose(opts: Options, url: string): (r: Result<Options, UriError>)
    ensures IndexOfString(url, "://", 0) == -1 ==> r == Err(MissingScheme)
    ensures r.Ok? ==> |Lookup(r.value, UriHost)| == |Lookup(opts, UriHost)| + 1
    ensures r.Ok? ==> forall k :: k != UriHost && k != UriPort && k != UriPath && k != UriQuery ==> Lookup(r.value, k) == Lookup(opts, k)
  {
    var p :- Parse(url);
    ApplyLookup(opts, p);
    Ok(Apply(opts, p))
  }

  // ---------------------------------------------------------------------------
  // ComposeUri

  function EscapePath(s: string): string {
    ReplaceChar(ReplaceChar(s, ':', "%3A"), '@', "%40")
  }

  function EscapeQuery(s: string): string {
    ReplaceChar(ReplaceChar(ReplaceChar(ReplaceChar(ReplaceChar(s, '&', "%26"), ':', "%3A"), '@', "%40"), '/', "%2F"), '?', "%3F")
  }

  /** The first Uri-Host instance, or the fallback address when there is none. */
  function HostText(opts: Options, fallback: string): string {
    var hosts := Lookup(opts, UriHost);
    if |hosts| > 0 then CoapOptions.ToString(CoapOption(UriHost, hosts[0])) else fallback
  }

  /** ":" and the first Uri-Port instance, or nothing. */
  function PortText(opts: Options): string {
    var ports := Lookup(opts, UriPort);
    if |ports| > 0 then ":" + CoapOptions.ToString(CoapOption(UriPort, ports[0])) else ""
  }

  /** "/" and the escaped text of each Uri-Path instance. */
  function PathText(parts: seq<Bytes>): string {
    if |parts| == 0 then ""
    else "/" + EscapePath(CoapOptions.ToString(CoapOption(UriPath, parts[0]))) + PathText(parts[1..])
  }

  /** "?" before the first Uri-Query instance, "&" before each later one, each escaped. */
  function QueryText(parts: seq<Bytes>, first: bool): string {
    if |parts| == 0 then ""
    else
      var separator := if first then "?" else "&";
      separator + EscapeQuery(CoapOptions.ToString(CoapOption(UriQuery, parts[0]))) + QueryText(parts[1..], false)
  }

  /**
   * `ComposeUri` (CoapMessage.cs:585-636). The scheme is always coap. `ContainsKey` is
   * "has an instance" (`OptionMap.ContainsIffInstances`).
   * DIVERGENCE (CoapMessage.cs:590, 596): the source dereferences `Options`, which is null on a
   * message without options, and `Destination`, which is null on a decoded message; here an
   * absent map is the empty one and the host falls back to the `fallback` address.
   */
  function Compose(opts: Options, fallback: string): (uri: string)
    ensures |uri| > 7 && uri[..7] == "coap://"
  {
    var resource := PathText(Lookup(opts, UriPath));
    "coap://" + HostText(opts, fallback) + PortText(opts) + (if resource == "" then "/" else resource)
      + QueryText(Lookup(opts, UriQuery), true)
  }

  /**
   * `FromByteArray` (CoapMessage.cs:100-349): decoding followed by `ComposeUri`, which takes
   * its fallback host from the remote endpoint the datagram came from.
   */
  function FromByteArray(bytes: Bytes, source: string): (r: Result<(Message, string), FormatError>)
    ensures r.Ok? <==> Codec.Decode(bytes).Ok?
    ensures r.Ok? ==> r.value.0 == Codec.Decode(bytes).value && |r.value.1| > 7 && r.value.1[..7] == "coap://"
  {
    match Codec.Decode(bytes)
    case Err(e) => Err(e)
    case Ok(m) => Ok((m, Compose(m.options, source)))
  }

  // ---------------------------------------------------------------------------
  // Escaping

  lemma {:induction false} ReplaceRemoves(s: string, c: char, r: string)
    requires c !in r
    ensures c !in ReplaceChar(s, c, r)
  {
    if |s| > 0 {
      ReplaceRemoves(s[1..], c, r);
    }
  }

  lemma {:induction false} ReplaceKeepsAbsent(s: string, c: char, r: string, d: char)
    requires d !in s && d !in r
    ensures d !in ReplaceChar(s, c, r)
  {
    if |s| > 0 {
      assert s[0] in s;
      ReplaceKeepsAbsent(s[1..], c, r, d);
    }
  }

  /** An escaped path segment holds no ':' or '@'. */
  lemma EscapedPathClean(s: string)
    ensures ':' !in EscapePath(s) && '@' !in EscapePath(s)
  {
    var a := ReplaceChar(s, ':', "%3A");
    ReplaceRemoves(s, ':', "%3A");
    ReplaceRemoves(a, '@', "%40");
    ReplaceKeepsAbsent(a, '@', "%40", ':');
  }

  /** An escaped query part holds none of the separators, so '?' and '&' in a composed URI only separate. */
  lemma EscapedQueryClean(s: string)
    ensures var e := EscapeQuery(s);
      '&' !in e && ':' !in e && '@' !in e && '/' !in e && '?' !in e
  {
    var a := ReplaceChar(s, '&', "%26");
    var b := ReplaceChar(a, ':', "%3A");
    var c := ReplaceChar(b, '@', "%40");
    var d := ReplaceChar(c, '/', "%2F");
    ReplaceRemoves(s, '&', "%26");
    ReplaceRemoves(a, ':', "%3A");
    ReplaceKeepsAbsent(a, ':', "%3A", '&');
    ReplaceRemoves(b, '@', "%40");
    ReplaceKeepsAbsent(b, '@', "%40", '&');
    ReplaceKeepsAbsent(b, '@', "%40", ':');
    ReplaceRemoves(c, '/', "%2F");
    ReplaceKeepsAbsent(c, '/', "%2F", '&');
    ReplaceKeepsAbsent(c, '/', "%2F", ':');
    ReplaceKeepsAbsent(c, '/', "%2F", '@');
    ReplaceRemoves(d, '?', "%3F");
    ReplaceKeepsAbsent(d, '?', "%3F", '&');
    ReplaceKeepsAbsent(d, '?', "%3F", ':');
    ReplaceKeepsAbsent(d, '?', "%3F", '@');
    ReplaceKeepsAbsent(d, '?', "%3F", '/');
  }
}
