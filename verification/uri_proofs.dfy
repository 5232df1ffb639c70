/**
 * `ComposeUri` undoes `DecomposeUri`: for a coap URI whose host, path and query carry no
 * character either side treats specially, and whose explicit port is not a default one,
 * decomposing into an empty option map and composing again gives the URI back.
 */
module UriProofs {
  import opened Wrappers
  import opened Bytes
  import opened Text
  import opened CoapOptions
  import opened OptionMap
  import opened Uri
  import Sequences

  /** Every character of `s` is ASCII and none is in `reserved`. */
  predicate Plain(s: string, reserved: set<char>) {
    forall i :: 0 <= i < |s| ==> s[i] as int < 128 && s[i] !in reserved
  }

  lemma PlainAbsent(s: string, reserved: set<char>, c: char)
    requires Plain(s, reserved) && c in reserved
    ensures c !in s
  {
  }

  lemma PlainAscii(s: string, reserved: set<char>)
    requires Plain(s, reserved)
    ensures IsAscii(s)
  {
  }

  /** ":" and the decimal port, when a port is written. */
  function PortSuffix(port: Option<nat>): (r: string)
    ensures port.None? ==> r == ""
    ensures port.Some? ==> |r| >= 2 && r[0] == ':' && IsDigits(r[1..])
  {
    if port.Some? then ":" + Decimal(port.value) else ""
  }

  /** `coap://host[:port]/path[?query]`. */
  function CoapUri(host: string, port: Option<nat>, path: string, query: string): string {
    "coap://" + host + PortSuffix(port) + "/" + path + (if query != "" then "?" + query else "")
  }

  /**
   * The URIs that survive the conversion both ways: an ASCII host without ':' or '/', a
   * port that is written only when it is not a default one, a path that is not "/" and holds
   * none of '?', ':' and '@', and a query that holds none of ':', '@', '/' and '?'.
   */
  predicate Composable(host: string, port: Option<nat>, path: string, query: string) {
    && Plain(host, {':', '/'})
    && (port.Some? ==> port.value < TWO31 && port.value != CoapPort && port.value != CoapsPort)
    && Plain(path, {'?', ':', '@'}) && path != "/"
    && Plain(query, {':', '@', '/', '?'})
  }

  function PortOf(port: Option<nat>): int32
    requires port.Some? ==> port.value < TWO31
  {
    if port.Some? then port.value else CoapPort
  }

  // ---------------------------------------------------------------------------
  // Finding the separators

  /** `IndexOfChar` is determined by its contract. */
  lemma FirstIndex(s: string, c: char, from: nat, i: int)
    requires i == -1 || (from <= i < |s| && s[i] == c)
    requires forall j :: from <= j < |s| && (i == -1 || j < i) ==> s[j] != c
    ensures IndexOfChar(s, c, from) == i
  {
    IndexOfCharFirst(s, c, from);
  }

  /** `IndexOfString` is determined by its contract. */
  lemma FirstOccurrence(s: string, pat: string, from: nat, i: nat)
    requires from <= i && OccursAt(s, pat, i)
    requires forall j: nat :: from <= j < i ==> !OccursAt(s, pat, j)
    ensures IndexOfString(s, pat, from) == i
  {
  }

  lemma SchemeSeparator(url: string)
    requires |url| >= 7 && url[..7] == "coap://"
    ensures IndexOfString(url, "://", 0) == 4
  {
    assert url[4..7] == url[..7][4..7];
    forall j: nat | j < 4 ensures !OccursAt(url, "://", j) {
      assert url[j..j + 3][0] == url[..7][j];
    }
    FirstOccurrence(url, "://", 0, 4);
  }

  lemma LowerCoap()
    ensures ToLower("coap") == "coap"
  {
    assert ToLower("p") == "p";
    assert "ap"[1..] == "p";
    assert "oap"[1..] == "ap";
    assert "coap"[1..] == "oap";
  }

  /** The scheme of a string that starts with "coap://" lower-cases to coap. */
  lemma LowerScheme(url: string)
    requires |url| >= 7 && url[..7] == "coap://"
    ensures ToLower(url[..4]) == "coap"
  {
    assert url[..4] == "coap" by {
      assert url[..4] == url[..7][..4];
      assert "coap://"[..4] == "coap";
    }
    LowerCoap();
  }

  /** Where the pieces of `a + b + c + "/" + d` sit. */
  lemma Pieces(a: string, b: string, c: string, d: string)
    ensures var u := a + b + c + "/" + d; var s := |a| + |b| + |c|;
      && |u| == s + 1 + |d|
      && u[..|a|] == a && u[|a|..|a| + |b|] == b && u[|a| + |b|..s] == c
      && u[s] == '/' && u[s + 1..] == d
  {
  }

  lemma SliceAbsent(u: string, lo: nat, hi: nat, c: char)
    requires lo <= hi <= |u| && c !in u[lo..hi]
    ensures forall j :: lo <= j < hi ==> u[j] != c
  {
    forall j | lo <= j < hi ensures u[j] != c {
      assert u[j] == u[lo..hi][j - lo];
    }
  }

  lemma SuffixClean(port: Option<nat>)
    ensures '/' !in PortSuffix(port)
  {
    if port.Some? {
      var digits := Decimal(port.value);
      assert forall i :: 0 <= i < |digits| ==> IsDigit(digits[i]);
      assert '/' !in digits;
    }
  }

  /** Where the '/' after the authority of a `CoapUri` sits, and what follows it. */
  lemma LayoutSlash(host: string, port: Option<nat>, path: string, query: string, slash: int)
    requires slash == 7 + |host| + |PortSuffix(port)|
    ensures var url := CoapUri(host, port, path, query);
      && slash < |url| && url[slash] == '/'
      && url[slash + 1..] == path + (if query != "" then "?" + query else "")
  {
    var q := if query != "" then "?" + query else "";
    var authority := "coap://" + host + PortSuffix(port);
    assert CoapUri(host, port, path, query) == authority + "/" + (path + q);
    AfterSlash(authority, path + q);
  }

  /** Where the host of a `CoapUri` sits, and the port digits after its ':' when there is a port. */
  lemma LayoutColon(host: string, port: Option<nat>, path: string, query: string, slash: int)
    requires slash == 7 + |host| + |PortSuffix(port)|
    ensures var url := CoapUri(host, port, path, query);
      && slash < |url|
      && (port.Some? ==>
            && url[7..7 + |host|] == host && url[7 + |host|] == ':'
            && url[7 + |host| + 1..slash] == Decimal(port.value))
      && (port.None? ==> url[7..slash] == host)
  {
    var q := if query != "" then "?" + query else "";
    var url := CoapUri(host, port, path, query);
    if port.Some? {
      var digits := Decimal(port.value);
      assert url == "coap://" + host + (":" + digits) + "/" + (path + q);
      AroundColon("coap://", host, digits, path + q);
    } else {
      assert url == "coap://" + host + "/" + (path + q);
      BeforeSlash("coap://", host, path + q);
    }
  }

  lemma AroundColon(a: string, b: string, digits: string, d: string)
    ensures var u := a + b + (":" + digits) + "/" + d; var colon := |a| + |b|;
      && colon + 1 + |digits| < |u|
      && u[|a|..colon] == b && u[colon] == ':' && u[colon + 1..colon + 1 + |digits|] == digits
  {
    var u := a + b + (":" + digits) + "/" + d;
    assert u == (a + b) + (":" + digits + "/" + d);
    assert u[|a|..|a| + |b|] == (a + b)[|a|..];
  }

  lemma BeforeSlash(a: string, b: string, d: string)
    ensures var u := a + b + "/" + d; |a| + |b| < |u| && u[|a|..|a| + |b|] == b
  {
    var u := a + b + "/" + d;
    assert u[|a|..|a| + |b|] == (a + b)[|a|..];
  }

  lemma AfterSlash(a: string, d: string)
    ensures var u := a + "/" + d; |a| < |u| && u[|a|] == '/' && u[|a| + 1..] == d
  {
  }

  /** The separators `Parse` searches for are absent from the host, and ':' from a port-less URI. */
  lemma LayoutAbsent(host: string, port: Option<nat>, path: string, query: string)
    requires Composable(host, port, path, query)
    ensures var url := CoapUri(host, port, path, query);
      var slash := 7 + |host| + |PortSuffix(port)|;
      && slash <= |url|
      && (forall j :: 7 <= j < slash ==> url[j] != '/')
      && (forall j :: 7 <= j < 7 + |host| ==> url[j] != ':')
      && (port.None? ==> forall j :: 7 <= j < |url| ==> url[j] != ':')
  {
    var suffix := PortSuffix(port);
    var q := if query != "" then "?" + query else "";
    var url := CoapUri(host, port, path, query);
    var slash := 7 + |host| + |suffix|;
    assert url == "coap://" + host + suffix + "/" + (path + q);
    Pieces("coap://", host, suffix, path + q);
    PlainAbsent(host, {':', '/'}, '/');
    PlainAbsent(host, {':', '/'}, ':');
    SuffixClean(port);
    SliceAbsent(url, 7, 7 + |host|, '/');
    SliceAbsent(url, 7 + |host|, slash, '/');
    SliceAbsent(url, 7, 7 + |host|, ':');
    if port.None? {
      assert url[7 + |host|..slash] == "";
      assert url[slash] == '/';
      PlainAbsent(path, {'?', ':', '@'}, ':');
      PlainAbsent(query, {':', '@', '/', '?'}, ':');
      assert ':' !in path + q;
      SliceAbsent(url, slash + 1, |url|, ':');
    }
  }

  /** Splitting at the first '?' is unique. */
  lemma SplitAtFirst(a: string, b: string, c: string, d: string)
    requires '?' !in a && '?' !in c && a + "?" + b == c + "?" + d
    ensures a == c && b == d
  {
    var s := a + "?" + b;
    assert s == c + "?" + d;
    forall j | 0 <= j < |a| ensures s[j] != '?' {
      assert s[j] == a[j];
    }
    forall j | 0 <= j < |c| ensures s[j] != '?' {
      assert s[j] == c[j];
    }
    FirstIndex(s, '?', 0, |a|);
    FirstIndex(s, '?', 0, |c|);
    assert a == s[..|a|] && c == s[..|c|];
    assert b == s[|a| + 1..] && d == s[|c| + 1..];
  }

  lemma QuerySplit(path: string, query: string)
    requires '?' !in path && '?' !in query
    ensures SplitQuery(path + (if query != "" then "?" + query else "")) == (path, query)
  {
    var s := path + (if query != "" then "?" + query else "");
    var r := SplitQuery(s);
    if query != "" {
      assert s == path + "?" + query;
      assert s[|path|] == '?';
      SplitAtFirst(r.0, r.1, path, query);
    } else {
      assert s == path;
    }
  }

  /** The separators of a coap URI, as `Parse` finds them. */
  predicate Located(url: string, colon: int, port: int32, host: string, path: string, query: string) {
    var slash := IndexOfChar(url, '/', 7);
    && |url| >= 7 && IndexOfString(url, "://", 0) == 4 && ToLower(url[..4]) == "coap"
    && slash != -1
    && colon == IndexOfChar(url, ':', 7) && (colon == -1 || colon < slash)
    && (colon == -1 ==> port == CoapPort && host == url[7..slash])
    && (colon != -1 ==> ParseInt(url[colon + 1..slash]) == Ok(port) && host == url[7..colon])
    && SplitQuery(url[slash + 1..]) == (path, query)
  }

  /** What `Parse` returns once the separators of a coap URI are located. */
  lemma ParseWith(url: string, colon: int, port: int32, host: string, path: string, query: string)
    requires Located(url, colon, port, host, path, query)
    ensures Parse(url) == Ok(UriParts("coap", host, port, path, query))
  {
    SchemeCoap(url);
    AuthorityWith(url, colon, port, host, path, query);
  }

  /** A "coap://" prefix hands the text after it to `ParseAuthority`. */
  lemma SchemeCoap(url: string)
    requires |url| >= 7 && IndexOfString(url, "://", 0) == 4 && ToLower(url[..4]) == "coap"
    ensures Parse(url) == ParseAuthority(url, "coap", 7)
  {
  }

  lemma AuthorityWith(url: string, colon: int, port: int32, host: string, path: string, query: string)
    requires Located(url, colon, port, host, path, query)
    ensures ParseAuthority(url, "coap", 7) == Ok(UriParts("coap", host, port, path, query))
  {
  }

  lemma CoapPrefix(host: string, port: Option<nat>, path: string, query: string)
    ensures var url := CoapUri(host, port, path, query);
      |url| >= 7 && url[..7] == "coap://"
  {
    var a := "coap://" + host;
    var b := a + PortSuffix(port);
    var c := b + "/";
    var d := c + path;
    var q := if query != "" then "?" + query else "";
    Sequences.TakeConcat(d, q, 7);
    Sequences.TakeConcat(c, path, 7);
    Sequences.TakeConcat(b, "/", 7);
    Sequences.TakeConcat(a, PortSuffix(port), 7);
    Sequences.TakeConcat("coap://", host, 7);
    assert "coap://"[..7] == "coap://";
  }

  /** The first '/' after the authority of a composable URI, and what follows it. */
  lemma SlashAt(host: string, port: Option<nat>, path: string, query: string) returns (slash: nat)
    requires Composable(host, port, path, query)
    ensures slash == 7 + |host| + |PortSuffix(port)|
    ensures var url := CoapUri(host, port, path, query);
      && slash < |url| && IndexOfChar(url, '/', 7) == slash
      && SplitQuery(url[slash + 1..]) == (path, query)
  {
    var url := CoapUri(host, port, path, query);
    slash := 7 + |host| + |PortSuffix(port)|;
    LayoutSlash(host, port, path, query, slash);
    LayoutAbsent(host, port, path, query);
    FirstIndex(url, '/', 7, slash);
    PlainAbsent(path, {'?', ':', '@'}, '?');
    PlainAbsent(query, {':', '@', '/', '?'}, '?');
    QuerySplit(path, query);
  }

  /**
   * The first ':' after the "://" of a composable URI, and the host and port around it:
   * the one after the host when there is a port, none otherwise.
   */
  lemma ColonAt(host: string, port: Option<nat>, path: string, query: string, slash: int) returns (colon: int)
    requires Composable(host, port, path, query)
    requires slash == 7 + |host| + |PortSuffix(port)|
    ensures port.Some? ==> colon == 7 + |host|
    ensures port.None? ==> colon == -1
    ensures var url := CoapUri(host, port, path, query);
      && IndexOfChar(url, ':', 7) == colon && colon < slash
      && (port.Some? ==> host == url[7..colon] && ParseInt(url[colon + 1..slash]) == Ok(PortOf(port)))
      && (port.None? ==> host == url[7..slash])
  {
    var url := CoapUri(host, port, path, query);
    LayoutColon(host, port, path, query, slash);
    LayoutAbsent(host, port, path, query);
    if port.Some? {
      colon := 7 + |host|;
      FirstIndex(url, ':', 7, colon);
      ParseIntDecimal(port.value);
    } else {
      colon := -1;
      FirstIndex(url, ':', 7, -1);
    }
  }

  /** The separators of any "coap://" text, from where its first '/' and ':' lie. */
  lemma LocatedAt(url: string, slash: nat, colon: int, port: int32, host: string, path: string, query: string)
    requires |url| >= 7 && url[..7] == "coap://"
    requires slash < |url| && IndexOfChar(url, '/', 7) == slash && SplitQuery(url[slash + 1..]) == (path, query)
    requires colon == IndexOfChar(url, ':', 7) && (colon == -1 || colon < slash)
    requires colon == -1 ==> port == CoapPort && host == url[7..slash]
    requires colon != -1 ==> ParseInt(url[colon + 1..slash]) == Ok(port) && host == url[7..colon]
    ensures Located(url, colon, port, host, path, query)
  {
    SchemeSeparator(url);
    LowerScheme(url);
  }

  /** Where `Parse` finds the separators of a composable coap URI, with and without a port. */
  lemma SeparatorsAt(host: string, port: Option<nat>, path: string, query: string)
    requires Composable(host, port, path, query)
    ensures port.Some? ==> Located(CoapUri(host, port, path, query), 7 + |host|, PortOf(port), host, path, query)
    ensures port.None? ==> Located(CoapUri(host, port, path, query), -1, PortOf(port), host, path, query)
  {
    CoapPrefix(host, port, path, query);
    var slash := SlashAt(host, port, path, query);
    var colon := ColonAt(host, port, path, query, slash);
    LocatedAt(CoapUri(host, port, path, query), slash, colon, PortOf(port), host, path, query);
  }

  /** Analysing a composable coap URI finds its host, port, path and query. */
  lemma ParseCoapUri(host: string, port: Option<nat>, path: string, query: string)
    requires Composable(host, port, path, query)
    ensures Parse(CoapUri(host, port, path, query)) == Ok(UriParts("coap", host, PortOf(port), path, query))
  {
    SeparatorsAt(host, port, path, query);
    if port.Some? {
      ParseWith(CoapUri(host, port, path, query), 7 + |host|, PortOf(port), host, path, query);
    } else {
      ParseWith(CoapUri(host, port, path, query), -1, PortOf(port), host, path, query);
    }
  }

  // ---------------------------------------------------------------------------
  // Composing the pieces again

  lemma {:induction false} SplitPlain(s: string, c: char, reserved: set<char>)
    requires Plain(s, reserved)
    ensures forall i :: 0 <= i < |Split(s, c)| ==> Plain(Split(s, c)[i], reserved + {c})
    decreases |s|
  {
    if |s| > 0 {
      var rest := Split(s[1..], c);
      SplitPlain(s[1..], c, reserved);
      if s[0] != c {
        var first := [s[0]] + rest[0];
        assert Plain(first, reserved + {c}) by {
          forall i | 0 <= i < |first| ensures first[i] as int < 128 && first[i] !in reserved + {c} {
            if i > 0 {
              assert first[i] == rest[0][i - 1];
            }
          }
        }
      }
    }
  }

  /** A plain segment is rendered as itself, unescaped. */
  lemma PathSegment(s: string, reserved: set<char>)
    requires Plain(s, reserved) && ':' in reserved && '@' in reserved
    ensures EscapePath(CoapOptions.ToString(CoapOption(UriPath, Utf8(s)))) == s
  {
    PlainAscii(s, reserved);
    AsciiRoundTrip(s);
    PlainAbsent(s, reserved, ':');
    PlainAbsent(s, reserved, '@');
    ReplaceAbsent(s, ':', "%3A");
    ReplaceAbsent(s, '@', "%40");
  }

  lemma QueryPart(s: string, reserved: set<char>)
    requires Plain(s, reserved)
    requires '&' in reserved && ':' in reserved && '@' in reserved && '/' in reserved && '?' in reserved
    ensures EscapeQuery(CoapOptions.ToString(CoapOption(UriQuery, Utf8(s)))) == s
  {
    PlainAscii(s, reserved);
    AsciiRoundTrip(s);
    PlainAbsent(s, reserved, '&');
    PlainAbsent(s, reserved, ':');
    PlainAbsent(s, reserved, '@');
    PlainAbsent(s, reserved, '/');
    PlainAbsent(s, reserved, '?');
    ReplaceAbsent(s, '&', "%26");
    ReplaceAbsent(s, ':', "%3A");
    ReplaceAbsent(s, '@', "%40");
    ReplaceAbsent(s, '/', "%2F");
    ReplaceAbsent(s, '?', "%3F");
  }

  lemma {:induction false} PathTextJoin(parts: seq<string>, reserved: set<char>)
    requires |parts| >= 1 && ':' in reserved && '@' in reserved
    requires forall i :: 0 <= i < |parts| ==> Plain(parts[i], reserved)
    ensures PathText(Utf8All(parts)) == "/" + Join(parts, '/')
    decreases |parts|
  {
    var encoded := Utf8All(parts);
    PathSegment(parts[0], reserved);
    assert encoded[1..] == Utf8All(parts[1..]);
    if |parts| > 1 {
      PathTextJoin(parts[1..], reserved);
    }
  }

  lemma {:induction false} QueryTextJoin(parts: seq<string>, first: bool, reserved: set<char>)
    requires |parts| >= 1
    requires '&' in reserved && ':' in reserved && '@' in reserved && '/' in reserved && '?' in reserved
    requires forall i :: 0 <= i < |parts| ==> Plain(parts[i], reserved)
    ensures QueryText(Utf8All(parts), first) == (if first then "?" else "&") + Join(parts, '&')
    decreases |parts|
  {
    var encoded := Utf8All(parts);
    QueryPart(parts[0], reserved);
    assert encoded[1..] == Utf8All(parts[1..]);
    if |parts| > 1 {
      QueryTextJoin(parts[1..], false, reserved);
    }
  }

  lemma ComposePath(opts: Options, path: string)
    requires Plain(path, {'?', ':', '@'}) && path != "/"
    requires Lookup(opts, UriPath) == if HasPath(path) then Utf8All(Split(path, '/')) else []
    ensures var resource := PathText(Lookup(opts, UriPath));
      (if resource == "" then "/" else resource) == "/" + path
  {
    if HasPath(path) {
      SplitPlain(path, '/', {'?', ':', '@'});
      PathTextJoin(Split(path, '/'), {'?', ':', '@'} + {'/'});
      JoinSplit(path, '/');
    }
  }

  lemma ComposeQuery(opts: Options, query: string)
    requires Plain(query, {':', '@', '/', '?'})
    requires Lookup(opts, UriQuery) == if query != "" then Utf8All(Split(query, '&')) else []
    ensures QueryText(Lookup(opts, UriQuery), true) == if query != "" then "?" + query else ""
  {
    if query != "" {
      SplitPlain(query, '&', {':', '@', '/', '?'});
      QueryTextJoin(Split(query, '&'), true, {':', '@', '/', '?'} + {'&'});
      JoinSplit(query, '&');
    }
  }

  lemma HostPart(opts: Options, host: string, fallback: string)
    requires Lookup(opts, UriHost) == [Utf8(host)] && IsAscii(host)
    ensures HostText(opts, fallback) == host
  {
    AsciiRoundTrip(host);
  }

  lemma PortPart(opts: Options, port: Option<nat>)
    requires port.Some? ==> port.value < TWO31
    requires Lookup(opts, UriPort) == if port.Some? then [UintValue(port.value)] else []
    ensures PortText(opts) == PortSuffix(port)
  {
    if port.Some? {
      UintRoundTrip(port.value);
    }
  }

  lemma ComposeWith(opts: Options, fallback: string, host: string, port: Option<nat>, path: string, query: string)
    requires HostText(opts, fallback) == host && PortText(opts) == PortSuffix(port)
    requires var resource := PathText(Lookup(opts, UriPath));
      (if resource == "" then "/" else resource) == "/" + path
    requires QueryText(Lookup(opts, UriQuery), true) == if query != "" then "?" + query else ""
    ensures Compose(opts, fallback) == CoapUri(host, port, path, query)
  {
  }

  lemma AppliedToEmpty(p: UriParts, k: nat)
    ensures Lookup(Apply([], p), k) == Added(p, k)
  {
    ApplyLookup([], p);
    assert Lookup([], k) + Added(p, k) == Added(p, k);
  }

  lemma ComposeApply(host: string, port: Option<nat>, path: string, query: string, fallback: string)
    requires Composable(host, port, path, query)
    ensures Compose(Apply([], UriParts("coap", host, PortOf(port), path, query)), fallback)
         == CoapUri(host, port, path, query)
  {
    var p := UriParts("coap", host, PortOf(port), path, query);
    var opts := Apply([], p);
    AppliedToEmpty(p, UriHost);
    AppliedToEmpty(p, UriPort);
    AppliedToEmpty(p, UriPath);
    AppliedToEmpty(p, UriQuery);
    ComposeAdded(opts, p, port, fallback);
  }

  /** Composing any map that holds exactly the four options `Apply` adds for `p`. */
  lemma ComposeAdded(opts: Options, p: UriParts, port: Option<nat>, fallback: string)
    requires Composable(p.host, port, p.path, p.query)
    requires p.scheme == "coap" && p.port == PortOf(port)
    requires Lookup(opts, UriHost) == Added(p, UriHost) && Lookup(opts, UriPort) == Added(p, UriPort)
    requires Lookup(opts, UriPath) == Added(p, UriPath) && Lookup(opts, UriQuery) == Added(p, UriQuery)
    ensures Compose(opts, fallback) == CoapUri(p.host, port, p.path, p.query)
  {
    PlainAscii(p.host, {':', '/'});
    HostPart(opts, p.host, fallback);
    PortPart(opts, port);
    ComposePath(opts, p.path);
    ComposeQuery(opts, p.query);
    ComposeWith(opts, fallback, p.host, port, p.path, p.query);
  }

  /**
   * The round trip of `DecomposeUri` and `ComposeUri` (CoapMessage.cs:458-548, 585-636):
   * decomposing a composable coap URI into an empty option map succeeds, and composing the
   * options gives the same string, whatever the fallback host.
   */
  lemma ComposeDecompose(host: string, port: Option<nat>, path: string, query: string, fallback: string)
    requires Composable(host, port, path, query)
    ensures var url := CoapUri(host, port, path, query); var d := Decompose([], url);
      d.Ok? && Compose(d.value, fallback) == url
  {
    var url := CoapUri(host, port, path, query);
    var p := UriParts("coap", host, PortOf(port), path, query);
    ParseCoapUri(host, port, path, query);
    DecomposeParsed([], url, p);
    ComposeApply(host, port, path, query, fallback);
  }

  lemma DecomposeParsed(opts: Options, url: string, p: UriParts)
    requires Parse(url) == Ok(p)
    ensures Decompose(opts, url) == Ok(Apply(opts, p))
  {
  }
}
