/**
 * The codec round trips: `Decode(Encode(m)) == Ok(m)` for every message whose option
 * deltas and value lengths fit the tiers and whose payload is absent or non-empty, and
 * `Encode(m) == bytes` for every message `m` decoded from `bytes`.
 */
module CodecProofs {
  import opened Wrappers
  import opened Bytes
  import opened OptionMap
  import opened Messages
  import opened OptionTier
  import opened Codec
  import opened Sequences

  /** Option instances in wire order, as (number, value) pairs. */
  type Flat = seq<(nat, Bytes)>

  /** The option number in force after `flat`, starting from `last`. */
  function LastOf(flat: Flat, last: nat): nat {
    if |flat| == 0 then last else flat[|flat| - 1].0
  }

  function Dist(number: nat, last: nat): nat {
    if number >= last then number - last else 0
  }

  /** The encoder's option bytes for a flat instance list. */
  function EncodeFlat(flat: Flat, last: nat): Bytes {
    if |flat| == 0 then []
    else EncodeInstance(Dist(flat[0].0, last), flat[0].1) + EncodeFlat(flat[1..], flat[0].0)
  }

  /** Numbers never decrease, and every delta and length fits the three tiers. */
  predicate Fits(flat: Flat, last: nat) {
    |flat| == 0 ||
    (&& last <= flat[0].0 <= last + MaxExtended
     && |flat[0].1| <= MaxExtended
     && Fits(flat[1..], flat[0].0))
  }

  /** What the decoder does with a flat instance list: add each instance in turn. */
  function InsertAll(acc: Options, flat: Flat): Options
    decreases |flat|
  {
    if |flat| == 0 then acc else InsertAll(Insert(acc, flat[0].0, flat[0].1), flat[1..])
  }

  /** The values of number `k` in `flat`, in order. */
  function ValuesOf(flat: Flat, k: nat): seq<Bytes> {
    if |flat| == 0 then []
    else (if flat[0].0 == k then [flat[0].1] else []) + ValuesOf(flat[1..], k)
  }

  /** A message the encoder can represent faithfully. */
  predicate Encodable(m: Message) {
    Fits(Flatten(m.options), 0) && m.payload != Some([])
  }

  // ---------------------------------------------------------------------------
  // Flat lists

  lemma EncodeFlatConcat(f1: Flat, f2: Flat, last: nat)
    ensures EncodeFlat(f1 + f2, last) == EncodeFlat(f1, last) + EncodeFlat(f2, LastOf(f1, last))
  {
    EncodeFlatChain(f1 + f2, last);
    EncodeFlatChain(f1, last);
    EncodeFlatChain(f2, LastOf(f1, last));
    ChainConcat(f1, f2, last, EncodeInstance);
  }

  /**
   * `EncodeFlat` with the encoding of one instance left abstract, so that facts about the
   * shape of the list do not depend on the option header layout.
   */
  function Chain(flat: Flat, last: nat, encode: (nat, Bytes) -> Bytes): Bytes {
    if |flat| == 0 then []
    else encode(Dist(flat[0].0, last), flat[0].1) + Chain(flat[1..], flat[0].0, encode)
  }

  lemma {:induction false} EncodeFlatChain(flat: Flat, last: nat)
    ensures EncodeFlat(flat, last) == Chain(flat, last, EncodeInstance)
  {
    if |flat| > 0 {
      EncodeFlatChain(flat[1..], flat[0].0);
    }
  }

  lemma {:induction false} ChainConcat(f1: Flat, f2: Flat, last: nat, encode: (nat, Bytes) -> Bytes)
    ensures Chain(f1 + f2, last, encode) == Chain(f1, last, encode) + Chain(f2, LastOf(f1, last), encode)
  {
    if |f1| > 0 {
      var head := encode(Dist(f1[0].0, last), f1[0].1);
      var rest := f1[1..];
      var g := f1 + f2;
      TailConcat(f1, f2);
      assert g[0] == f1[0];
      ChainConcat(rest, f2, f1[0].0, encode);
      LastOfTail(f1, last);
      ConcatAssoc(head, Chain(rest, f1[0].0, encode), Chain(f2, LastOf(f1, last), encode));
    } else {
      assert f1 + f2 == f2;
    }
  }

  /** After a non-empty list, the number in force no longer depends on where it started. */
  lemma LastOfTail(flat: Flat, last: nat)
    requires |flat| > 0
    ensures LastOf(flat[1..], flat[0].0) == LastOf(flat, last)
  {
  }

  lemma {:induction false} FitsConcat(f1: Flat, f2: Flat, last: nat)
    requires Fits(f1, last) && Fits(f2, LastOf(f1, last))
    ensures Fits(f1 + f2, last)
  {
    if |f1| > 0 {
      assert (f1 + f2)[1..] == f1[1..] + f2;
      if |f1| > 1 {
        assert LastOf(f1[1..], f1[0].0) == LastOf(f1, last);
      }
      FitsConcat(f1[1..], f2, f1[0].0);
    } else {
      assert f1 + f2 == f2;
    }
  }

  lemma {:induction false} ValuesOfConcat(f1: Flat, f2: Flat, k: nat)
    ensures ValuesOf(f1 + f2, k) == ValuesOf(f1, k) + ValuesOf(f2, k)
  {
    if |f1| > 0 {
      assert (f1 + f2)[1..] == f1[1..] + f2;
      ValuesOfConcat(f1[1..], f2, k);
    } else {
      assert f1 + f2 == f2;
    }
  }

  lemma {:induction false} ValuesOfPairs(number: nat, values: seq<Bytes>, k: nat)
    ensures ValuesOf(Pairs(number, values), k) == if number == k then values else []
  {
    if |values| > 0 {
      assert Pairs(number, values)[1..] == Pairs(number, values[1..]);
      ValuesOfPairs(number, values[1..], k);
    }
  }

  lemma {:induction false} GroupFlat(number: nat, values: seq<Bytes>, last: nat)
    requires last <= number
    ensures EncodeGroup(number, values, last) == EncodeFlat(Pairs(number, values), last)
  {
    if |values| > 0 {
      assert Pairs(number, values)[1..] == Pairs(number, values[1..]);
      GroupFlat(number, values[1..], number);
    }
  }

  lemma {:induction false} FitsPairs(number: nat, values: seq<Bytes>, last: nat)
    requires last <= number <= last + MaxExtended
    requires forall i :: 0 <= i < |values| ==> |values[i]| <= MaxExtended
    ensures Fits(Pairs(number, values), last)
  {
    if |values| > 0 {
      assert Pairs(number, values)[1..] == Pairs(number, values[1..]);
      FitsPairs(number, values[1..], number);
    }
  }

  lemma LastOfPairs(number: nat, values: seq<Bytes>, last: nat)
    ensures LastOf(Pairs(number, values), last) == if |values| == 0 then last else number
  {
  }

  /** The nested `foreach` loops of the encoder write the flat instance list. */
  lemma {:induction false} EntriesFlat(entries: seq<Entry>, last: nat)
    requires WellFormed(entries)
    requires |entries| > 0 ==> last <= entries[0].number
    ensures EncodeEntries(entries, last) == EncodeFlat(Flatten(entries), last)
  {
    if |entries| > 0 {
      var e := entries[0];
      var rest := entries[1..];
      assert WellFormed(rest) by {
        forall i, j | 0 <= i < j < |rest| ensures rest[i].number < rest[j].number {
          assert rest[i] == entries[i + 1] && rest[j] == entries[j + 1];
        }
        forall i | 0 <= i < |rest| ensures |rest[i].instances| > 0 {
          assert rest[i] == entries[i + 1];
        }
      }
      if |rest| > 0 {
        assert rest[0] == entries[1];
      }
      GroupFlat(e.number, e.instances, last);
      EntriesFlat(rest, e.number);
      EncodeFlatConcat(Pairs(e.number, e.instances), Flatten(rest), last);
      LastOfPairs(e.number, e.instances, last);
    }
  }

  /** Option numbers up to 65535 and value lengths up to 65804 always fit the tiers. */
  lemma {:induction false} BoundsFit(entries: seq<Entry>, last: nat)
    requires WellFormed(entries)
    requires forall i :: 0 <= i < |entries| ==> last <= entries[i].number <= 0xFFFF
    requires forall i, j :: 0 <= i < |entries| && 0 <= j < |entries[i].instances| ==> |entries[i].instances[j]| <= MaxExtended
    ensures Fits(Flatten(entries), last)
  {
    if |entries| > 0 {
      var e := entries[0];
      var rest := entries[1..];
      assert WellFormed(rest) by {
        forall i, j | 0 <= i < j < |rest| ensures rest[i].number < rest[j].number {
          assert rest[i] == entries[i + 1] && rest[j] == entries[j + 1];
        }
        forall i | 0 <= i < |rest| ensures |rest[i].instances| > 0 {
          assert rest[i] == entries[i + 1];
        }
      }
      assert forall i :: 0 <= i < |rest| ==> rest[i] == entries[i + 1];
      assert forall i :: 0 <= i < |e.instances| ==> |e.instances[i]| <= MaxExtended by {
        forall i | 0 <= i < |e.instances| ensures |e.instances[i]| <= MaxExtended {
          assert 0 < |entries|;
        }
      }
      FitsPairs(e.number, e.instances, last);
      BoundsFit(rest, e.number);
      LastOfPairs(e.number, e.instances, last);
      FitsConcat(Pairs(e.number, e.instances), Flatten(rest), last);
    }
  }

  // ---------------------------------------------------------------------------
  // Decoding what was encoded

  /** One pass of the option loop over a header byte other than the marker. */
  lemma DecodeStep(rest: Bytes, number: nat, acc: Options, option: nat, r1: Bytes, value: Bytes, tail: Bytes)
    requires |rest| > 0 && rest[0] != PayloadMarker && number <= option
    requires ReadExtended(rest[0] / 16, rest[1..]) == Ok((option - number, r1))
    requires ReadExtended(rest[0] % 16, r1) == Ok((|value|, value + tail))
    ensures DecodeOptions(rest, number, acc) == DecodeOptions(tail, option, Insert(acc, option, value))
  {
    var r2 := value + tail;
    SplitConcat(value, tail);
    assert r2[|value|..] == tail && r2[..|value|] == value;
    assert number + (option - number) == option;
    DecodeStepRead(rest, number, acc, option - number, r1, |value|, r2);
  }

  lemma HeaderNibbles(a: nat, b: nat)
    requires a <= 14 && b <= 14
    ensures (a * 16 + b) / 16 == a && (a * 16 + b) % 16 == b
  {
  }

  /** Decoding one encoded instance reads its delta, length and value, then continues. */
  lemma DecodeInstance(rest: Bytes, option: nat, value: Bytes, tail: Bytes, number: nat, acc: Options)
    requires number <= option <= number + MaxExtended && |value| <= MaxExtended
    requires rest == EncodeInstance(option - number, value) + tail
    ensures DecodeOptions(rest, number, acc) == DecodeOptions(tail, option, Insert(acc, option, value))
  {
    var delta := option - number;
    var r1 := Extension(|value|) + (value + tail);
    assert rest == [Nibble(delta) * 16 + Nibble(|value|)] + (Extension(delta) + r1);
    HeaderNibbles(Nibble(delta), Nibble(|value|));
    TierRoundTrip(delta, r1);
    TierRoundTrip(|value|, value + tail);
    DecodeStep(rest, number, acc, option, r1, value, tail);
  }

  /** Decoding the encoding of a flat list adds its instances in order (the inductive core). */
  lemma {:induction false} DecodeFlat(rest: Bytes, flat: Flat, tail: Bytes, number: nat, acc: Options)
    requires Fits(flat, number) && rest == EncodeFlat(flat, number) + tail
    ensures DecodeOptions(rest, number, acc) == DecodeOptions(tail, LastOf(flat, number), InsertAll(acc, flat))
    decreases |flat|
  {
    if |flat| > 0 {
      var k, v := flat[0].0, flat[0].1;
      var later := EncodeFlat(flat[1..], k) + tail;
      DecodeInstance(rest, k, v, later, number, acc);
      DecodeFlat(later, flat[1..], tail, k, Insert(acc, k, v));
      assert LastOf(flat[1..], k) == LastOf(flat, number);
    } else {
      assert rest == tail;
    }
  }

  /** The loop ends at the end of the datagram or at the marker of a non-empty payload. */
  lemma DecodePayload(rest: Bytes, number: nat, acc: Options, payload: Option<Bytes>)
    requires payload != Some([]) && rest == PayloadBytes(payload)
    ensures DecodeOptions(rest, number, acc) == Ok((acc, payload))
  {
    if payload.Some? {
      assert rest[1..] == payload.value;
    }
  }

  /**
   * Whatever options precede it, a marker byte ends the option loop: every byte after it is
   * the payload, and a marker with nothing after it is a format error.
   */
  lemma PayloadMarkerEnds(flat: Flat, number: nat, acc: Options, payload: Bytes)
    requires Fits(flat, number)
    ensures |payload| > 0 ==>
      DecodeOptions(EncodeFlat(flat, number) + [PayloadMarker] + payload, number, acc)
        == Ok((InsertAll(acc, flat), Some(payload)))
    ensures DecodeOptions(EncodeFlat(flat, number) + [PayloadMarker], number, acc) == Err(EmptyPayloadAfterMarker)
  {
    var tail := [PayloadMarker] + payload;
    ConcatAssoc(EncodeFlat(flat, number), [PayloadMarker], payload);
    DecodeFlat(EncodeFlat(flat, number) + tail, flat, tail, number, acc);
    assert tail[1..] == payload;
    DecodeFlat(EncodeFlat(flat, number) + [PayloadMarker], flat, [PayloadMarker], number, acc);
  }

  lemma {:induction false} InsertAllLookup(acc: Options, flat: Flat, k: nat)
    ensures Lookup(InsertAll(acc, flat), k) == Lookup(acc, k) + ValuesOf(flat, k)
    decreases |flat|
  {
    if |flat| > 0 {
      InsertSpec(acc, flat[0].0, flat[0].1);
      InsertAllLookup(Insert(acc, flat[0].0, flat[0].1), flat[1..], k);
    }
  }

  lemma {:induction false} FlattenValues(opts: Options, k: nat)
    ensures ValuesOf(Flatten(opts), k) == Lookup(opts, k)
  {
    if |opts| > 0 {
      var e := opts[0];
      var rest: Options := opts[1..];
      ValuesOfConcat(Pairs(e.number, e.instances), Flatten(rest), k);
      ValuesOfPairs(e.number, e.instances, k);
      FlattenValues(rest, k);
      assert Flatten(opts) == Pairs(e.number, e.instances) + Flatten(rest);
      if e.number == k {
        SortedTail(opts);
        LookupAbsent(rest, k);
      }
    }
  }

  lemma InKeys(entries: seq<Entry>, i: nat)
    requires i < |entries|
    ensures entries[i].number in Keys(entries)
  {
  }

  lemma LookupHead(entries: seq<Entry>)
    requires |entries| > 0
    ensures Lookup(entries, entries[0].number) == entries[0].instances
  {
  }

  /** Two well-formed option maps with the same instances for every number are equal. */
  lemma {:induction false} Extensional(a: Options, b: Options)
    requires forall k :: Lookup(a, k) == Lookup(b, k)
    ensures a == b
    decreases |a| + |b|
  {
    if |a| == 0 && |b| == 0 {
    } else if |a| == 0 {
      LookupHead(b);
      assert false;
    } else if |b| == 0 {
      LookupHead(a);
      assert false;
    } else {
      var x, y := a[0].number, b[0].number;
      SortedTail(a);
      SortedTail(b);
      TailKeys(a);
      TailKeys(b);
      if x < y {
        assert x !in Keys(b);
        LookupAbsent(b, x);
      } else if y < x {
        assert y !in Keys(a);
        LookupAbsent(a, y);
      } else {
        var ra: Options := a[1..];
        var rb: Options := b[1..];
        assert Lookup(a, x) == a[0].instances && Lookup(b, x) == b[0].instances;
        forall k ensures Lookup(ra, k) == Lookup(rb, k) {
          if k == x {
            LookupAbsent(ra, k);
            LookupAbsent(rb, k);
          } else {
            assert Lookup(a, k) == Lookup(ra, k) && Lookup(b, k) == Lookup(rb, k);
          }
        }
        Extensional(ra, rb);
        assert a == [a[0]] + ra && b == [b[0]] + rb;
      }
    }
  }

  /** Adding the flattened instances of a map to an empty map rebuilds it. */
  lemma RegroupFlatten(opts: Options)
    ensures InsertAll([], Flatten(opts)) == opts
  {
    forall k ensures Lookup(InsertAll([], Flatten(opts)), k) == Lookup(opts, k) {
      InsertAllLookup([], Flatten(opts), k);
      FlattenValues(opts, k);
    }
    Extensional(InsertAll([], Flatten(opts)), opts);
  }

  /** The fixed header and the token, once the option loop has succeeded. */
  lemma DecodeHeader(bytes: Bytes, opts: Options, payload: Option<Bytes>)
    requires |bytes| >= 4 && bytes[0] % 16 <= 8 && |bytes| >= 4 + bytes[0] % 16
    requires DecodeOptions(bytes[4 + bytes[0] % 16..], 0, []) == Ok((opts, payload))
    ensures Decode(bytes) == Ok(Message(bytes[0] / 64, TypeOf((bytes[0] / 16) % 4), bytes[4..4 + bytes[0] % 16],
                                        bytes[1], bytes[2] as int * 256 + bytes[3], opts, payload))
  {
  }

  /**
   * Where a decoded message's fields sit in the datagram (section 3 of RFC 7252): the first
   * byte is 64 * version + 16 * type + token length, that is bits 7-6, 5-4 and 3-0; then the
   * code in the second byte, the message ID big-endian in the next two, then the token.
   */
  lemma HeaderLayout(bytes: Bytes)
    requires Decode(bytes).Ok?
    ensures var m := Decode(bytes).value;
      && m.version < 4 && TypeValue(m.mtype) < 4 && |m.token| <= 8
      && bytes[0] == 64 * m.version + 16 * TypeValue(m.mtype) + |m.token|
      && m.code == bytes[1]
      && bytes[2] == m.id / 256 && bytes[3] == m.id % 256
      && bytes[4..4 + |m.token|] == m.token
  {
    var m := Decode(bytes).value;
    FirstByte(bytes[0]);
    DivModUnique(m.id, 256, bytes[2], bytes[3]);
  }

  /** A byte is its top two bits, the next two and the low four, put back together. */
  lemma FirstByte(x: byte)
    ensures x == 64 * (x / 64) + 16 * ((x / 16) % 4) + x % 16
  {
    var hi := x / 16;
    assert x == 16 * hi + x % 16;
    assert hi == 4 * (hi / 4) + hi % 4;
    DivDiv(x, 16, 4);
    assert hi / 4 == x / 64;
  }

  /** `decode(encode(m))` reproduces every field of an encodable message. */
  lemma DecodeEncode(m: Message)
    requires Encodable(m)
    ensures Decode(Encode(m)) == Ok(m)
  {
    DecodeEncoded(Encode(m), m);
  }

  lemma DecodeEncoded(bytes: Bytes, m: Message)
    requires Encodable(m) && bytes == Encode(m)
    ensures Decode(bytes) == Ok(m)
  {
    var flat := Flatten(m.options);
    var tail := PayloadBytes(m.payload);
    var body := EncodeFlat(flat, 0) + tail;
    EncodedFrame(m);
    Frame(bytes, HeaderByte(m.version, m.mtype, |m.token|), m.code, m.id / 256, m.id % 256, m.token, body);
    DecodeFlat(body, flat, tail, 0, []);
    RegroupFlatten(m.options);
    DecodePayload(tail, LastOf(flat, 0), m.options, m.payload);
    DecodeFields(bytes, m);
  }

  /** `Encode` writes the header, the token, the options and the payload, in that order. */
  lemma EncodedFrame(m: Message)
    ensures Encode(m) == [HeaderByte(m.version, m.mtype, |m.token|), m.code, m.id / 256, m.id % 256] + m.token
                         + (EncodeFlat(Flatten(m.options), 0) + PayloadBytes(m.payload))
  {
    EntriesFlat(m.options, 0);
    var head := [HeaderByte(m.version, m.mtype, |m.token|), m.code, m.id / 256, m.id % 256] + m.token;
    ConcatAssoc(head, EncodeEntries(m.options, 0), PayloadBytes(m.payload));
  }

  /** Where the header bytes, the token and the rest sit in a datagram. */
  lemma Frame(bytes: Bytes, h: byte, c: byte, i1: byte, i2: byte, token: Bytes, body: Bytes)
    requires bytes == [h, c, i1, i2] + token + body
    ensures |bytes| >= 4 + |token|
    ensures bytes[0] == h && bytes[1] == c && bytes[2] == i1 && bytes[3] == i2
    ensures bytes[4..4 + |token|] == token && bytes[4 + |token|..] == body
  {
  }

  /** The header byte's three fields read back from their bit positions. */
  lemma HeaderSplit(b: int, version: nat, t: nat, tkl: nat)
    requires version < 4 && t < 4 && tkl < 16 && b == version * 64 + t * 16 + tkl
    ensures b % 16 == tkl && b / 64 == version && (b / 16) % 4 == t
  {
    DivModUnique(b, 16, version * 4 + t, tkl);
    DivModUnique(version * 4 + t, 4, version, t);
    DivModUnique(b, 64, version, t * 16 + tkl);
  }

  /** The fields of `m` read back from the four header bytes `Encode` writes. */
  lemma HeaderFieldsOf(m: Message, b0: byte, b2: byte, b3: byte)
    requires |m.token| < 16 && b0 == HeaderByte(m.version, m.mtype, |m.token|)
    requires b2 == m.id / 256 && b3 == m.id % 256
    ensures b0 % 16 == |m.token| && b0 / 64 == m.version && TypeOf((b0 / 16) % 4) == m.mtype
    ensures b2 as int * 256 + b3 == m.id
  {
    HeaderSplit(b0, m.version, TypeValue(m.mtype), |m.token|);
    TypeRoundTrip(m.mtype);
  }

  /** A datagram carrying the fields of `m` in the header and the token decodes to `m`. */
  lemma DecodeFields(bytes: Bytes, m: Message)
    requires |bytes| >= 4 + |m.token|
    requires bytes[0] == HeaderByte(m.version, m.mtype, |m.token|)
    requires bytes[1] == m.code && bytes[2] == m.id / 256 && bytes[3] == m.id % 256
    requires bytes[4..4 + |m.token|] == m.token
    requires DecodeOptions(bytes[4 + |m.token|..], 0, []) == Ok((m.options, m.payload))
    ensures Decode(bytes) == Ok(m)
  {
    HeaderFieldsOf(m, bytes[0], bytes[2], bytes[3]);
    DecodeHeader(bytes, m.options, m.payload);
  }

  /** Messages with option numbers up to 65535, short enough values and a non-empty or absent payload round-trip. */
  lemma DecodeEncodeBounded(m: Message)
    requires forall i :: 0 <= i < |m.options| ==> m.options[i].number <= 0xFFFF
    requires forall i, j :: 0 <= i < |m.options| && 0 <= j < |m.options[i].instances| ==> |m.options[i].instances[j]| <= MaxExtended
    requires m.payload != Some([])
    ensures Decode(Encode(m)) == Ok(m)
  {
    BoundsFit(m.options, 0);
    DecodeEncode(m);
  }

  // ---------------------------------------------------------------------------
  // Encoding what was decoded

  lemma {:induction false} FlattenInsertLast(acc: Options, k: nat, v: Bytes)
    requires forall key :: key in Keys(acc) ==> key <= k
    ensures Flatten(Insert(acc, k, v)) == Flatten(acc) + [(k, v)]
    decreases |acc|
  {
    if |acc| == 0 {
      assert Insert(acc, k, v) == [Entry(k, [v])];
    } else if acc[0].number == k {
      OnlyEntry(acc, k);
      assert acc == [Entry(k, acc[0].instances)];
      InsertLastSame(acc[0].instances, k, v);
    } else {
      var rest: Options := acc[1..];
      TailKeys(acc);
      InsertPast(acc, k, v);
      FlattenInsertLast(rest, k, v);
    }
  }

  /** Inserting under the only key appends to its instances. */
  lemma InsertLastSame(instances: seq<Bytes>, k: nat, v: Bytes)
    requires |instances| > 0
    ensures Flatten(Insert([Entry(k, instances)], k, v)) == Flatten([Entry(k, instances)]) + [(k, v)]
  {
    var e := Entry(k, instances + [v]);
    assert Insert([Entry(k, instances)], k, v) == [e];
    assert Flatten([e]) == Pairs(k, e.instances) by { assert [e][1..] == []; }
    assert Flatten([Entry(k, instances)]) == Pairs(k, instances) by { assert [Entry(k, instances)][1..] == []; }
  }

  /** A map whose first key is its largest has a single entry. */
  lemma OnlyEntry(acc: Options, k: nat)
    requires |acc| > 0 && acc[0].number == k
    requires forall key :: key in Keys(acc) ==> key <= k
    ensures |acc| == 1
  {
    TailKeys(acc);
    SortedTail(acc);
    if |acc| > 1 {
      InKeys(acc[1..], 0);
    }
  }

  /** Inserting a key beyond the first entry keeps that entry in front. */
  lemma InsertPast(acc: Options, k: nat, v: Bytes)
    requires |acc| > 0 && acc[0].number < k
    ensures Flatten(Insert(acc, k, v))
         == Pairs(acc[0].number, acc[0].instances) + Flatten(Insert(acc[1..], k, v))
  {
    var tail := Insert(acc[1..], k, v);
    assert Insert(acc, k, v) == [acc[0]] + tail;
    assert ([acc[0]] + tail)[1..] == tail;
  }

  lemma {:induction false} LastOfFlatten(acc: Options)
    ensures |acc| > 0 ==> LastOf(Flatten(acc), 0) == acc[|acc| - 1].number
  {
    if |acc| > 0 {
      var rest: Options := acc[1..];
      LastOfFlatten(rest);
      assert |acc[0].instances| > 0;
      if |rest| > 0 {
        assert rest[|rest| - 1] == acc[|acc| - 1];
      }
    }
  }

  /** The running option number of the decoder is the number of the last instance decoded. */
  predicate Running(acc: Options, number: nat) {
    LastOf(Flatten(acc), 0) == number
  }

  /** Every key of a well-formed map is at most the number of its last instance. */
  lemma KeysAtMostLast(acc: Options)
    ensures forall key :: key in Keys(acc) ==> key <= LastOf(Flatten(acc), 0)
  {
    LastOfFlatten(acc);
    forall key | key in Keys(acc) ensures key <= LastOf(Flatten(acc), 0) {
      var i :| 0 <= i < |acc| && acc[i].number == key;
      if i < |acc| - 1 {
        assert acc[i].number < acc[|acc| - 1].number;
      }
    }
  }

  /** The bytes of one instance read by the option loop are what the encoder writes for it. */
  lemma ReadInstance(rest: Bytes, d: nat, r1: Bytes, l: nat, r2: Bytes)
    requires |rest| > 0 && rest[0] != PayloadMarker
    requires ReadExtended(rest[0] / 16, rest[1..]) == Ok((d, r1))
    requires ReadExtended(rest[0] % 16, r1) == Ok((l, r2))
    requires l <= |r2|
    ensures rest == EncodeInstance(d, r2[..l]) + r2[l..]
  {
    var h := rest[0];
    TierCanonical(h / 16, rest[1..]);
    TierCanonical(h % 16, r1);
    var value, after := r2[..l], r2[l..];
    TakeDrop(r2, l);
    NibbleSplit(h);
    HeadTail(rest);
    InstanceBytes(rest, h, Extension(d), Extension(l), value, after, r1, r2);
  }

  lemma NibbleSplit(h: int)
    ensures h == (h / 16) * 16 + h % 16
  {
  }

  lemma InstanceBytes(rest: Bytes, h: byte, e1: Bytes, e2: Bytes, value: Bytes, after: Bytes, r1: Bytes, r2: Bytes)
    requires |rest| > 0 && rest == [h] + rest[1..] && rest[1..] == e1 + r1 && r1 == e2 + r2 && r2 == value + after
    ensures rest == [h] + e1 + e2 + value + after
  {
  }

  lemma ReadOptionOf(rest: Bytes, d: nat, r1: Bytes, l: nat, r2: Bytes)
    requires |rest| > 0
    requires ReadExtended(rest[0] / 16, rest[1..]) == Ok((d, r1))
    requires ReadExtended(rest[0] % 16, r1) == Ok((l, r2))
    requires l <= |r2|
    ensures ReadOption(rest) == Ok((d, r2[..l], r2[l..]))
  {
  }

  /** The loop step in terms of what `ReadExtended` returned. */
  lemma DecodeStepRead(rest: Bytes, number: nat, acc: Options, d: nat, r1: Bytes, l: nat, r2: Bytes)
    requires |rest| > 0 && rest[0] != PayloadMarker
    requires ReadExtended(rest[0] / 16, rest[1..]) == Ok((d, r1))
    requires ReadExtended(rest[0] % 16, r1) == Ok((l, r2))
    requires l <= |r2|
    ensures DecodeOptions(rest, number, acc) == DecodeOptions(r2[l..], number + d, Insert(acc, number + d, r2[..l]))
  {
    ReadOptionOf(rest, d, r1, l, r2);
  }

  /** `DecodeOptions` behind a non-recursive name, so that a goal about it unfolds at most once. */
  function Decoded(rest: Bytes, number: nat, acc: Options): Result<(Options, Option<Bytes>), FormatError> {
    DecodeOptions(rest, number, acc)
  }

  /** The first instance the option loop reads is the encoding of what it adds. */
  lemma Peel(rest: Bytes, number: nat, acc: Options) returns (d: nat, value: Bytes, after: Bytes)
    requires |rest| > 0 && rest[0] != PayloadMarker && Decoded(rest, number, acc).Ok?
    ensures d <= MaxExtended && |value| <= MaxExtended
    ensures rest == EncodeInstance(d, value) + after
    ensures |after| < |rest|
    ensures Decoded(rest, number, acc) == Decoded(after, number + d, Insert(acc, number + d, value))
  {
    assert ReadOption(rest).Ok?;
    var delta := ReadExtended(rest[0] / 16, rest[1..]);
    assert delta.Ok?;
    var r1;
    d, r1 := delta.value.0, delta.value.1;
    var length := ReadExtended(rest[0] % 16, r1);
    assert length.Ok?;
    var l, r2 := length.value.0, length.value.1;
    assert l <= |r2|;
    value, after := r2[..l], r2[l..];
    ReadInstance(rest, d, r1, l, r2);
    DecodeStepRead(rest, number, acc, d, r1, l, r2);
  }

  lemma EncodeSingle(d: nat, value: Bytes, number: nat)
    ensures EncodeFlat([(number + d, value)], number) == EncodeInstance(d, value)
  {
    assert [(number + d, value)][1..] == [];
  }

  /** Whatever the option loop consumed is the encoding of what it produced (the inductive core). */
  lemma {:induction false} EncodeDecoded(rest: Bytes, number: nat, acc: Options)
    requires Decoded(rest, number, acc).Ok?
    requires Running(acc, number)
    ensures var (opts, payload) := Decoded(rest, number, acc).value;
      EncodeFlat(Flatten(opts), 0) + PayloadBytes(payload) == EncodeFlat(Flatten(acc), 0) + rest
    decreases |rest|, 1
  {
    if |rest| == 0 {
    } else if rest[0] == PayloadMarker {
      assert rest == [PayloadMarker] + rest[1..];
    } else {
      var d, value, after := Peel(rest, number, acc);
      EncodeDecodedRest(rest, number, acc, d, value, after);
      var (opts, payload) := Decoded(rest, number, acc).value;
      StepBack(acc, number, d, value, after, rest, EncodeFlat(Flatten(opts), 0) + PayloadBytes(payload));
    }
  }

  /** `EncodeDecoded` for the bytes after the first instance. */
  lemma {:induction false} EncodeDecodedRest(rest: Bytes, number: nat, acc: Options, d: nat, value: Bytes, after: Bytes)
    requires Decoded(rest, number, acc).Ok? && Running(acc, number)
    requires Decoded(rest, number, acc) == Decoded(after, number + d, Insert(acc, number + d, value))
    requires |after| < |rest|
    ensures var (opts, payload) := Decoded(rest, number, acc).value;
      EncodeFlat(Flatten(opts), 0) + PayloadBytes(payload) == EncodeFlat(Flatten(Insert(acc, number + d, value)), 0) + after
    decreases |rest|, 0
  {
    RunningInsert(acc, number, d, value);
    EncodeDecoded(after, number + d, Insert(acc, number + d, value));
  }

  /** The bytes before `after` are the instance just added, so the equation extends to `rest`. */
  lemma StepBack(acc: Options, number: nat, d: nat, value: Bytes, after: Bytes, rest: Bytes, encoded: Bytes)
    requires Running(acc, number)
    requires rest == EncodeInstance(d, value) + after
    requires encoded == EncodeFlat(Flatten(Insert(acc, number + d, value)), 0) + after
    ensures encoded == EncodeFlat(Flatten(acc), 0) + rest
  {
    AppendEncoding(acc, number, d, value);
    ConcatAssoc(EncodeFlat(Flatten(acc), 0), EncodeInstance(d, value), after);
  }

  lemma ConcatAssoc(a: Bytes, b: Bytes, c: Bytes)
    ensures (a + b) + c == a + (b + c)
  {
  }

  /** Adding an instance at or after the running number keeps the running invariant. */
  lemma RunningInsert(acc: Options, number: nat, d: nat, value: Bytes)
    requires Running(acc, number)
    ensures Running(Insert(acc, number + d, value), number + d)
  {
    var option := number + d;
    KeysAtMostLast(acc);
    FlattenInsertLast(acc, option, value);
    var f := Flatten(acc) + [(option, value)];
    assert f[|f| - 1] == (option, value);
  }

  /** Adding an instance at or after the running number appends its encoding. */
  lemma AppendEncoding(acc: Options, number: nat, d: nat, value: Bytes)
    requires Running(acc, number)
    ensures EncodeFlat(Flatten(Insert(acc, number + d, value)), 0) == EncodeFlat(Flatten(acc), 0) + EncodeInstance(d, value)
  {
    var option := number + d;
    KeysAtMostLast(acc);
    FlattenInsertLast(acc, option, value);
    EncodeFlatConcat(Flatten(acc), [(option, value)], 0);
    EncodeSingle(d, value, number);
  }

  lemma HeaderFields(b: byte)
    ensures (b / 64) * 64 + ((b / 16) % 4) * 16 + b % 16 == b
  {
  }

  lemma IdBytes(hi: byte, lo: byte)
    ensures (hi as int * 256 + lo) / 256 == hi && (hi as int * 256 + lo) % 256 == lo
  {
  }

  /** A message whose fields are read from `bytes`, re-encoded, gives `bytes` back. */
  lemma EncodeFields(bytes: Bytes, m: Message)
    requires |bytes| >= 4 && bytes[0] % 16 == |m.token| && |bytes| >= 4 + |m.token|
    requires m.version == bytes[0] / 64 && TypeValue(m.mtype) == (bytes[0] / 16) % 4
    requires m.code == bytes[1] && m.id == bytes[2] as int * 256 + bytes[3]
    requires m.token == bytes[4..4 + |m.token|]
    requires EncodeEntries(m.options, 0) + PayloadBytes(m.payload) == bytes[4 + |m.token|..]
    ensures Encode(m) == bytes
  {
    HeaderFields(bytes[0]);
    IdBytes(bytes[2], bytes[3]);
    assert HeaderByte(m.version, m.mtype, |m.token|) == bytes[0];
    assert bytes == [bytes[0], bytes[1], bytes[2], bytes[3]] + bytes[4..4 + |m.token|] + bytes[4 + |m.token|..];
  }

  /** `encode(decode(bytes)) == bytes` whenever `bytes` decodes: every wire image is canonical. */
  lemma EncodeDecode(bytes: Bytes)
    requires Decode(bytes).Ok?
    ensures Encode(Decode(bytes).value) == bytes
  {
    var tkl := bytes[0] % 16;
    var body := bytes[4 + tkl..];
    var r := Decoded(body, 0, []);
    assert r.Ok?;
    var opts, payload := r.value.0, r.value.1;
    var m := Message(bytes[0] / 64, TypeOf((bytes[0] / 16) % 4), bytes[4..4 + tkl],
                     bytes[1], bytes[2] as int * 256 + bytes[3], opts, payload);
    DecodeHeader(bytes, opts, payload);
    OptionsCanonical(body, opts, payload);
    EncodeFields(bytes, m);
  }

  /** The option loop reads only what the encoder writes for the map and payload it returns. */
  lemma OptionsCanonical(body: Bytes, opts: Options, payload: Option<Bytes>)
    requires Decoded(body, 0, []) == Ok((opts, payload))
    ensures EncodeEntries(opts, 0) + PayloadBytes(payload) == body
  {
    EncodeDecoded(body, 0, []);
    EntriesFlat(opts, 0);
    assert Flatten([]) == [];
  }
}
