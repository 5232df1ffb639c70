/**
 * The reliability bookkeeping of `CoapEndpoint` as a pure state machine over the endpoint's
 * record: message-ID stamping from a hash chain, reaping of finished sends and the in-flight
 * cap, registration of Confirmable messages, the retransmission sweep, and response
 * correlation and dispatch. A send is an emitted datagram, a task is its observed state,
 * SHA-256 is a hash parameter and the clock is a number of seconds.
 */
module Endpoint {
  import opened Wrappers
  import opened Bytes
  import opened Sequences
  import opened OptionMap
  import opened Messages
  import Codec
  import Uri

  const AckTimeout: nat := 2
  const MaxRetransmit: nat := 4
  /** With more sends than this still in flight, a new message is queued instead of sent. */
  const MaxInFlight: nat := 100

  /** A SHA-256 digest. */
  type Digest = d: Bytes | |d| == 32 witness seq(32, _ => 0)

  /** What a `SendAsync` task reports: still running, or one of its three final states. */
  datatype TaskState = Running | RanToCompletion | Canceled | Faulted

  datatype SendTask = SendTask(datagram: Bytes, state: TaskState)

  /** `t.IsCompleted || t.IsCanceled || t.IsFaulted`. */
  predicate Finished(t: SendTask) {
    t.state.RanToCompletion? || t.state.Canceled? || t.state.Faulted?
  }

  predicate InProgress(t: SendTask) {
    !Finished(t)
  }

  /** An entry of the unconfirmed list: the message with its `LastSent` and `SendAttempts`. */
  datatype Unconfirmed = Unconfirmed(message: Message, lastSent: nat, attempts: nat)

  datatype Endpoint = Endpoint(
    idHash: Digest,
    unconfirmed: seq<Unconfirmed>,
    inFlight: seq<SendTask>,
    outgoing: seq<Message>)

  datatype SendStatus = SentImmediately | BusyQueued | Sending

  /**
   * The constructor and `WithLocalEndpoint` (CoapEndpoint.cs:52-63, 96): empty lists and a
   * hash chain seeded with the hash of the local address.
   */
  function Init(hash: Bytes -> Digest, localAddress: Bytes): (ep: Endpoint)
    ensures ep.idHash == hash(localAddress)
    ensures ep.unconfirmed == [] && ep.inFlight == [] && ep.outgoing == []
  {
    Endpoint(hash(localAddress), [], [], [])
  }

  /** The message ID a hash-chain state gives: its first two bytes, big-endian (CoapEndpoint.cs:322-323). */
  function IdOf(d: Digest): (id: MessageId)
    ensures id / 256 == d[0] && id % 256 == d[1]
  {
    var hi: int, lo: int := d[0], d[1];
    DivModUnique(hi * 256 + lo, 256, hi, lo);
    hi * 256 + lo
  }

  // ---------------------------------------------------------------------------
  // SendMessage

  lemma FilterSnoc<T>(s: seq<T>, x: T, keep: T -> bool)
    ensures Filter(s + [x], keep) == Filter(s, keep) + (if keep(x) then [x] else [])
  {
    FilterConcat(s, [x], keep);
    assert [x][1..] == [];
  }

  /** Removing one collected send keeps the running sends and uses up one collected entry. */
  lemma ReapStep(r: seq<SendTask>, t: SendTask, rest: seq<SendTask>, running: seq<SendTask>)
    requires Finished(t)
    requires Filter(r, InProgress) == running
    requires multiset(Filter(r, Finished)) == multiset([t] + rest)
    ensures Filter(RemoveFirst(r, t), InProgress) == running
    ensures multiset(Filter(RemoveFirst(r, t), Finished)) == multiset(rest)
  {
    FilterCount(r, Finished, t);
    assert t in r;
    RemoveFirstCount(r, t);
    RemoveFirstFilter(r, t, InProgress);
    forall y ensures multiset(Filter(RemoveFirst(r, t), Finished))[y] == multiset(rest)[y] {
      FilterCount(RemoveFirst(r, t), Finished, y);
      FilterCount(r, Finished, y);
    }
  }

  /** With no finished send left, every send is still in progress. */
  lemma ReapDone(r: seq<SendTask>)
    requires multiset(Filter(r, Finished)) == multiset{}
    ensures Filter(r, InProgress) == r
  {
    forall k | 0 <= k < |r| ensures InProgress(r[k]) {
      FilterCount(r, Finished, r[k]);
    }
    FilterNone(r, InProgress);
  }

  /**
   * The reaping loops of `SendMessage` (CoapEndpoint.cs:331-343): collect the finished sends,
   * then `Remove` each of them; what is left is exactly the sends still in progress, in order.
   */
  method Reap(inFlight: seq<SendTask>) returns (r: seq<SendTask>)
    ensures r == Filter(inFlight, InProgress)
  {
    var toRemove: seq<SendTask> := [];
    for i := 0 to |inFlight|
      invariant toRemove == Filter(inFlight[..i], Finished)
    {
      TakeSnoc(inFlight, i);
      FilterSnoc(inFlight[..i], inFlight[i], Finished);
      if Finished(inFlight[i]) {
        toRemove := toRemove + [inFlight[i]];
      }
    }
    assert inFlight[..|inFlight|] == inFlight;
    r := inFlight;
    for j := 0 to |toRemove|
      invariant Filter(r, InProgress) == Filter(inFlight, InProgress)
      invariant multiset(Filter(r, Finished)) == multiset(toRemove[j..])
    {
      DropCons(toRemove, j);
      ReapStep(r, toRemove[j], toRemove[j + 1..], Filter(inFlight, InProgress));
      r := RemoveFirst(r, toRemove[j]);
    }
    ReapDone(r);
  }

  /** What `SendMessage` leaves behind when the URI decomposes. */
  datatype Sent = Sent(endpoint: Endpoint, status: SendStatus, message: Message, datagram: Option<Bytes>)

  /**
   * The message `SendMessage` sends: the URI options added and the ID of the current
   * hash-chain state, which then advances; the unconfirmed list is not touched.
   */
  predicate Stamped(ep: Endpoint, hash: Bytes -> Digest, m: Message, uri: string, s: Sent) {
    && Uri.Decompose(m.options, uri).Ok?
    && s.message == m.(options := Uri.Decompose(m.options, uri).value, id := IdOf(ep.idHash))
    && s.endpoint.idHash == hash(ep.idHash)
    && s.endpoint.unconfirmed == ep.unconfirmed
  }

  /**
   * Where the stamped message goes: with more than `MaxInFlight` sends still in progress it
   * is queued and nothing is emitted; otherwise its encoding is emitted, and the send stays
   * in flight unless it completed at once. Finished sends are gone either way.
   */
  predicate Dispatched(ep: Endpoint, completed: bool, s: Sent) {
    var pending := Filter(ep.inFlight, InProgress);
    if |pending| > MaxInFlight then
      && s.status == BusyQueued && s.datagram == None
      && s.endpoint.inFlight == pending && s.endpoint.outgoing == ep.outgoing + [s.message]
    else
      && s.datagram == Some(Codec.Encode(s.message)) && s.endpoint.outgoing == ep.outgoing
      && s.status == (if completed then SentImmediately else Sending)
      && s.endpoint.inFlight == pending + (if completed then [] else [SendTask(Codec.Encode(s.message), Running)])
  }

  /**
   * `SendMessage` (CoapEndpoint.cs:318-379). The URI options are added, the message is
   * stamped with the ID of the current hash-chain state and the chain advances, finished
   * sends are reaped; then the message is queued when more than `MaxInFlight` sends remain,
   * and otherwise encoded and emitted, staying in flight when the send did not complete at once.
   * `completed` is whether `SendAsync` returned an already completed task.
   */
  method SendMessage(ep: Endpoint, hash: Bytes -> Digest, m: Message, uri: string, completed: bool)
    returns (r: Result<Sent, Uri.UriError>)
    ensures r.Ok? <==> Uri.Decompose(m.options, uri).Ok?
    ensures r.Err? ==> r.error == Uri.Decompose(m.options, uri).error
    ensures r.Ok? ==> Stamped(ep, hash, m, uri, r.value)
    ensures r.Ok? ==> Dispatched(ep, completed, r.value)
  {
    var opts :- Uri.Decompose(m.options, uri);
    var stamped := m.(options := opts, id := IdOf(ep.idHash));
    var next := hash(ep.idHash);
    var pending := Reap(ep.inFlight);
    if |pending| > MaxInFlight {
      return Ok(Sent(Endpoint(next, ep.unconfirmed, pending, ep.outgoing + [stamped]), BusyQueued, stamped, None));
    }
    var datagram := Codec.Encode(stamped);
    if completed {
      return Ok(Sent(Endpoint(next, ep.unconfirmed, pending, ep.outgoing), SentImmediately, stamped, Some(datagram)));
    }
    return Ok(Sent(Endpoint(next, ep.unconfirmed, pending + [SendTask(datagram, Running)], ep.outgoing), Sending, stamped, Some(datagram)));
  }

  /**
   * `SendRequest` (CoapEndpoint.cs:380-394): `LastSent` is now and `SendAttempts` is 1, a
   * Confirmable message joins the unconfirmed list, and the message is sent. The list holds
   * the message object itself, so the entry carries the stamped ID and the URI options once
   * `SendMessage` has run; when the URI is rejected the entry has already been added.
   */
  method SendRequest(ep: Endpoint, hash: Bytes -> Digest, m: Message, uri: string, now: nat, completed: bool)
    returns (next: Endpoint, r: Result<Sent, Uri.UriError>)
    ensures r.Ok? <==> Uri.Decompose(m.options, uri).Ok?
    ensures |next.unconfirmed| == |ep.unconfirmed| + (if m.mtype == Confirmable then 1 else 0)
    ensures next.unconfirmed[..|ep.unconfirmed|] == ep.unconfirmed
    ensures m.mtype == Confirmable ==>
      next.unconfirmed[|ep.unconfirmed|] == Unconfirmed(if r.Ok? then r.value.message else m, now, 1)
    ensures r.Ok? ==> Stamped(ep, hash, m, uri, r.value) && Dispatched(ep, completed, r.value)
    ensures r.Ok? ==> next == r.value.endpoint.(unconfirmed := next.unconfirmed)
    ensures r.Err? ==> next == ep.(unconfirmed := next.unconfirmed)
  {
    r := SendMessage(ep, hash, m, uri, completed);
    var sent := if r.Ok? then r.value.message else m;
    var registered := if m.mtype == Confirmable then ep.unconfirmed + [Unconfirmed(sent, now, 1)] else ep.unconfirmed;
    assert registered[..|ep.unconfirmed|] == ep.unconfirmed;
    next := if r.Ok? then r.value.endpoint.(unconfirmed := registered) else ep.(unconfirmed := registered);
  }

  // ---------------------------------------------------------------------------
  // The retransmission sweep of BeginSending

  /** `SendAttempts >= MAX_RETRANSMIT`: the entry is marked for removal and not resent. */
  predicate GivesUp(e: Unconfirmed) {
    e.attempts >= MaxRetransmit
  }

  predicate Keeps(e: Unconfirmed) {
    !GivesUp(e)
  }

  /** Below the limit and unanswered for at least `ACK_TIMEOUT` seconds. */
  predicate Due(e: Unconfirmed, now: nat) {
    !GivesUp(e) && now - e.lastSent >= AckTimeout
  }

  /**
   * The entry after the sweep has looked at it: a due entry is resent with the same message
   * and ID, one more attempt and `LastSent` now; any other entry is unchanged.
   * DIVERGENCE (CoapEndpoint.cs:219, 384, 390, 322): the source resends through `SendRequest`,
   * which resets the attempts to 1, appends the entry a second time while the list is being
   * enumerated, and stamps a fresh ID; section 4.2 of RFC 7252 keeps the Message ID.
   */
  function Retry(e: Unconfirmed, now: nat): (r: Unconfirmed)
    ensures r.message == e.message
    ensures Due(e, now) ==> r.attempts == e.attempts + 1 && r.lastSent == now
    ensures !Due(e, now) ==> r == e
  {
    if Due(e, now) then e.(lastSent := now, attempts := e.attempts + 1) else e
  }

  function Retried(entries: seq<Unconfirmed>, now: nat): (r: seq<Unconfirmed>)
    ensures |r| == |entries|
    ensures forall k :: 0 <= k < |entries| ==> r[k] == Retry(entries[k], now)
  {
    seq(|entries|, k requires 0 <= k < |entries| => Retry(entries[k], now))
  }

  /** The datagrams the sweep emits: the encoding of each due entry's message, in list order. */
  function Resent(entries: seq<Unconfirmed>, now: nat): seq<Bytes> {
    if |entries| == 0 then []
    else
      var last := entries[|entries| - 1];
      Resent(entries[..|entries| - 1], now) + (if Due(last, now) then [Codec.Encode(last.message)] else [])
  }

  lemma ResentSnoc(entries: seq<Unconfirmed>, i: nat, now: nat)
    requires i < |entries|
    ensures Resent(entries[..i + 1], now)
         == Resent(entries[..i], now) + (if Due(entries[i], now) then [Codec.Encode(entries[i].message)] else [])
  {
    assert entries[..i + 1][..i] == entries[..i];
  }

  lemma RetriedSnoc(entries: seq<Unconfirmed>, e: Unconfirmed, now: nat)
    ensures Retried(entries + [e], now) == Retried(entries, now) + [Retry(e, now)]
  {
  }

  /**
   * The `foreach` over the unconfirmed list (CoapEndpoint.cs:211-226): an entry at the limit
   * is marked for removal, a due entry is resent, and every entry is left as `Retry` makes it.
   */
  method Examine(entries: seq<Unconfirmed>, now: nat) returns (updated: seq<Unconfirmed>, marked: seq<bool>, sent: seq<Bytes>)
    ensures |updated| == |entries| && |marked| == |entries|
    ensures forall k :: 0 <= k < |entries| ==> updated[k] == Retry(entries[k], now)
    ensures forall k :: 0 <= k < |entries| ==> (marked[k] <==> GivesUp(entries[k]))
    ensures sent == Resent(entries, now)
  {
    updated, marked, sent := [], [], [];
    for i := 0 to |entries|
      invariant |marked| == i
      invariant updated == Retried(entries[..i], now)
      invariant forall k :: 0 <= k < i ==> (marked[k] <==> GivesUp(entries[k]))
      invariant sent == Resent(entries[..i], now)
    {
      var e := entries[i];
      ResentSnoc(entries, i, now);
      TakeSnoc(entries, i);
      RetriedSnoc(entries[..i], e, now);
      var giveUp := e.attempts >= MaxRetransmit;
      var after := e;
      if giveUp {
      } else if now - e.lastSent >= AckTimeout {
        sent := sent + [Codec.Encode(e.message)];
        after := e.(lastSent := now, attempts := e.attempts + 1);
      }
      marked := marked + [giveUp];
      updated := updated + [after];
    }
    assert entries[..|entries|] == entries;
  }

  /** The `foreach` over `toDelete` (CoapEndpoint.cs:219-223): the marked entries are dropped. */
  method RemoveMarked(entries: seq<Unconfirmed>, updated: seq<Unconfirmed>, marked: seq<bool>, now: nat)
    returns (survivors: seq<Unconfirmed>)
    requires |updated| == |entries| && |marked| == |entries|
    requires forall k :: 0 <= k < |entries| ==> updated[k] == Retry(entries[k], now)
    requires forall k :: 0 <= k < |entries| ==> (marked[k] <==> GivesUp(entries[k]))
    ensures survivors == Retried(Filter(entries, Keeps), now)
  {
    survivors := [];
    for j := 0 to |entries|
      invariant survivors == Retried(Filter(entries[..j], Keeps), now)
    {
      TakeSnoc(entries, j);
      FilterSnoc(entries[..j], entries[j], Keeps);
      if !marked[j] {
        RetriedSnoc(Filter(entries[..j], Keeps), entries[j], now);
        survivors := survivors + [updated[j]];
      }
    }
    assert entries[..|entries|] == entries;
  }

  /**
   * One pass of the `BeginSending` loop (CoapEndpoint.cs:204-229): every entry is examined,
   * due ones are resent, and the entries marked for removal are removed after the full pass.
   */
  method Sweep(ep: Endpoint, now: nat) returns (next: Endpoint, sent: seq<Bytes>)
    ensures next.unconfirmed == Retried(Filter(ep.unconfirmed, Keeps), now)
    ensures sent == Resent(ep.unconfirmed, now)
    ensures next == ep.(unconfirmed := next.unconfirmed)
  {
    var updated, marked;
    updated, marked, sent := Examine(ep.unconfirmed, now);
    var survivors := RemoveMarked(ep.unconfirmed, updated, marked, now);
    next := ep.(unconfirmed := survivors);
  }

  /**
   * The sweep removes exactly the entries that had reached the limit, keeps every other one
   * as often as it occurred, and keeps them in their original order.
   */
  lemma SweepRemovesExactlyMarked(entries: seq<Unconfirmed>, e: Unconfirmed)
    ensures multiset(Filter(entries, Keeps))[e] == if GivesUp(e) then 0 else multiset(entries)[e]
    ensures Subsequence(Filter(entries, Keeps), entries)
  {
    FilterCount(entries, Keeps, e);
    FilterSubsequence(entries, Keeps);
  }

  /** An entry that has reached the limit contributes no datagram. */
  lemma {:induction false} GivingUpNotResent(entries: seq<Unconfirmed>, now: nat)
    requires forall k :: 0 <= k < |entries| ==> GivesUp(entries[k])
    ensures Resent(entries, now) == []
  {
    if |entries| > 0 {
      GivingUpNotResent(entries[..|entries| - 1], now);
    }
  }

  /** How often successive sweeps at `times` resend `e` before it is removed. */
  function Resends(e: Unconfirmed, times: seq<nat>): nat
    decreases |times|
  {
    if |times| == 0 || GivesUp(e) then 0
    else (if Due(e, times[0]) then 1 else 0) + Resends(Retry(e, times[0]), times[1..])
  }

  /**
   * However the sweeps are timed, an entry is resent at most `MAX_RETRANSMIT` minus its
   * attempts so far; a request registered with one attempt is resent at most three times.
   */
  lemma {:induction false} ResendsBounded(e: Unconfirmed, times: seq<nat>)
    ensures Resends(e, times) <= if GivesUp(e) then 0 else MaxRetransmit - e.attempts
    decreases |times|
  {
    if |times| > 0 && !GivesUp(e) {
      ResendsBounded(Retry(e, times[0]), times[1..]);
    }
  }

  // ---------------------------------------------------------------------------
  // BeginReceiving

  /**
   * The correlation loop of `BeginReceiving` (CoapEndpoint.cs:176-183): the first entry
   * whose message has the incoming ID is removed, and the search stops there.
   */
  function Correlate(entries: seq<Unconfirmed>, id: MessageId): (r: seq<Unconfirmed>)
    ensures |r| == |entries| || |r| == |entries| - 1
  {
    if |entries| == 0 then []
    else if entries[0].message.id == id then entries[1..]
    else [entries[0]] + Correlate(entries[1..], id)
  }

  /** With no entry of that ID nothing changes; otherwise exactly the first match is removed. */
  lemma {:induction false} CorrelateRemovesFirstMatch(entries: seq<Unconfirmed>, id: MessageId, i: nat)
    requires i <= |entries|
    requires forall j :: 0 <= j < i ==> entries[j].message.id != id
    requires i < |entries| ==> entries[i].message.id == id
    ensures Correlate(entries, id) == if i == |entries| then entries else entries[..i] + entries[i + 1..]
  {
    if i > 0 {
      CorrelateRemovesFirstMatch(entries[1..], id, i - 1);
      if i == |entries| {
        assert entries == [entries[0]] + entries[1..];
      } else {
        assert entries[..i] == [entries[0]] + entries[1..][..i - 1];
        assert entries[i + 1..] == entries[1..][i..];
      }
    }
  }

  datatype Handler = RequestHandler | ResponseHandler | EmptyHandler

  /** The handler `BeginReceiving` invokes (CoapEndpoint.cs:169-190): exactly one per message. */
  function Dispatch(m: Message): (h: Handler)
    ensures h == RequestHandler <==> IsRequest(m)
    ensures h == ResponseHandler <==> IsResponse(m)
    ensures h == EmptyHandler <==> IsEmpty(m)
  {
    if IsRequest(m) then RequestHandler else if IsResponse(m) then ResponseHandler else EmptyHandler
  }

  datatype Received = Received(endpoint: Endpoint, handler: Handler, message: Message, uri: string)

  /**
   * The body of the `BeginReceiving` loop for one datagram from `source` (CoapEndpoint.cs:154-192):
   * decode it, correlate a response with the unconfirmed list, and choose the handler.
   * A datagram that does not decode ends the loop with the exception (:162-165).
   */
  function Receive(ep: Endpoint, datagram: Bytes, source: string): (r: Result<Received, FormatError>)
    ensures r.Ok? <==> Codec.Decode(datagram).Ok?
    ensures r.Ok? ==> r.value.message == Codec.Decode(datagram).value && r.value.handler == Dispatch(r.value.message)
    ensures r.Ok? ==> r.value.endpoint == ep.(unconfirmed := r.value.endpoint.unconfirmed)
    ensures r.Ok? && !IsResponse(r.value.message) ==> r.value.endpoint == ep
    ensures r.Ok? && IsResponse(r.value.message) ==> r.value.endpoint.unconfirmed == Correlate(ep.unconfirmed, r.value.message.id)
  {
    match Uri.FromByteArray(datagram, source)
    case Err(e) => Err(e)
    case Ok((m, uri)) =>
      var unconfirmed := if IsResponse(m) then Correlate(ep.unconfirmed, m.id) else ep.unconfirmed;
      Ok(Received(ep.(unconfirmed := unconfirmed), Dispatch(m), m, uri))
  }
}
