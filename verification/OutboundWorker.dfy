/**
 cmd/witself-worker/agent_email_outbound.go: one claimed dispatch, and the batch that counts
 the outcomes. Store and provider answers are inputs; the calls made are an output.
 */
module OutboundWorker {
  import opened Prelude
  import opened OutboundStore

  const PROVIDER := "cloudflare_email_sending"
  const SCHEMA := "witself.agent-email-dispatch.v1"
  const MAX_TEXT := 256 * 1024
  const MAX_SUBJECT := 4 * 1024
  const MAX_REFERENCES := 16

  datatype Envelope = Envelope(
    schema: string, sendId: string, accountId: string, realmId: string, agentId: string,
    fromAddress: string, replyTo: string, to: string, subject: string, text: string,
    inReplyTo: string, references: seq<string>)

  /** agentEmailOutboundWireDispatch. */
  function WireDispatch(c: Content): Envelope {
    Envelope(SCHEMA, c.id, c.account, c.realm, c.agent, c.fromAddress, c.replyTo, c.to, c.subject, c.text,
             c.inReplyTo, c.references)
  }

  /** The length limits of Dispatch.Validate; its address and id patterns are not part of this model. */
  predicate ValidEnvelope(e: Envelope) {
    && e.schema == SCHEMA
    && |e.subject| <= MAX_SUBJECT
    && 1 <= |e.text| <= MAX_TEXT
    && |e.references| <= MAX_REFERENCES
  }

  // ------------------------------------------------------------ the adapter's reply

  datatype ReplyState =
    | RAccepted | RDelivered | RQueued | RPermanentBounce | RRejected | RRetryable | RAmbiguous | ROther

  datatype Response = Response(
    sendId: string, state: ReplyState, provider: string, messageId: string, errorCode: string, retryAfter: int)

  datatype SendError = NoSendError | DeadlineExceeded | NetworkTimeout | InvalidResponse | OtherSendError

  /** What comes back over HTTP: nothing, bytes that do not decode, or a status with a decoded body. */
  datatype Wire = TransportFailure(err: SendError) | Undecodable | Reply(status: int, body: Response)

  /** Response.Validate, with its name patterns reduced to non-emptiness. */
  predicate ValidResponse(r: Response, sendId: string) {
    && r.sendId == sendId && r.provider != ""
    && (match r.state
        case RAccepted => 0 < |r.messageId| <= 512 && r.errorCode == ""
        case RDelivered => 0 < |r.messageId| <= 512 && r.errorCode == ""
        case RQueued => 0 < |r.messageId| <= 512 && r.errorCode == ""
        case ROther => false
        case _ => r.errorCode != "" && |r.messageId| <= 512)
    && 0 <= r.retryAfter <= 24 * 60 * 60
    && (r.state == RRetryable || r.retryAfter == 0)
  }

  predicate NamesMessage(s: ReplyState) {
    s.RAccepted? || s.RDelivered? || s.RQueued?
  }

  /** A valid reply either names the provider's message and no error or an error, and only a Retryable one a delay, of at most a day. */
  lemma ValidReplyIs(r: Response, sendId: string)
    ensures ValidResponse(r, sendId) <==>
              && r.sendId == sendId && r.provider != "" && !r.state.ROther? && |r.messageId| <= 512
              && (if NamesMessage(r.state) then r.messageId != "" && r.errorCode == "" else r.errorCode != "")
              && (r.retryAfter == 0 || (r.state.RRetryable? && 1 <= r.retryAfter <= 86400))
  {
  }

  /** Every projection has the schema; what may not fit is its size. */
  lemma EnvelopeFits(c: Content)
    ensures ValidEnvelope(WireDispatch(c)) <==>
              c.text != "" && |c.text| <= 262144 && |c.subject| <= 4096 && |c.references| <= 16
  {
  }

  function Managed(sendId: string): Response {
    Response(sendId, RAmbiguous, "managed", "", "", 0)
  }

  /** Client.Send: everything it cannot read or trust becomes an ambiguous response. */
  function ClientSend(wire: Wire, sendId: string): (Response, SendError) {
    match wire
    case TransportFailure(err) => (Managed(sendId), if err.NoSendError? then OtherSendError else err)
    case Undecodable => (Managed(sendId), InvalidResponse)
    case Reply(status, body) =>
      if !ValidResponse(body, sendId) then (Managed(sendId), InvalidResponse)
      else if status < 200 || status >= 300 then
        if (body.state != RRetryable && body.state != RRejected && body.state != RAmbiguous) then (Managed(sendId), InvalidResponse)
        else (body, OtherSendError)
      else (body, NoSendError)
  }

  /** agentEmailOutboundAmbiguousError. */
  function AmbiguousCode(err: SendError): ErrorCode {
    match err
    case DeadlineExceeded => ProviderTimeout
    case NetworkTimeout => ProviderTimeout
    case InvalidResponse => ProviderResponseInvalid
    case NoSendError => ProviderResponseInvalid
    case OtherSendError => ProviderConnectionReset
  }

  /** time.Duration(seconds) * time.Second, then at least one second when not positive. */
  function RetryDelay(seconds: int): int {
    var d := Wrap64(seconds * SECOND);
    if d <= 0 then SECOND else d
  }

  // ------------------------------------------------------------ the calls of one dispatch

  /** One call the worker makes; detached means its context outlives the batch. */
  datatype Call =
    | CStart(id: string, f: Fence)
    | CSend(envelope: Envelope)
    | CFinalize(id: string, f: Fence, state: State, messageId: string, code: ErrorCode, detached: bool)
    | CRetry(id: string, f: Fence, delay: int, code: ErrorCode, preserve: bool, detached: bool)
    | CMark(id: string, f: Fence, code: ErrorCode)

  datatype Dispatch = Dispatch(content: Content, f: Fence)

  datatype SettleAnswer = SettleFailed | SettledAs(state: State)

  /** The answers one dispatch meets: to Start, to Send, and to the store call that closes it. */
  datatype Answers = Answers(start: StartAnswer, wire: Wire, settle: SettleAnswer)

  datatype Outcome = Done(state: State) | Broke

  function RetryOutcome(a: SettleAnswer): Outcome {
    match a
    case SettleFailed => Broke
    case SettledAs(s) =>
      if (s == Queued || s == ProviderStarted) then Done(Queued)
      else if (s == Failed || s == Canceled || s == Ambiguous) then Done(s)
      else Broke
  }

  function FixedOutcome(s: State, a: SettleAnswer): Outcome {
    if a.SettleFailed? then Broke else Done(s)
  }

  /** The store call that settles a response; the only call after a Send. */
  function Settlement(d: Dispatch, r: Response, err: SendError): Call {
    var id := d.content.id;
    if r.provider != "" && r.provider != PROVIDER && (err.NoSendError? || !r.state.RAmbiguous?) then
      CRetry(id, d.f, SECOND, ProviderResponseInvalid, true, true)
    else
      match r.state
      case RAccepted => CFinalize(id, d.f, Accepted, r.messageId, NoError, true)
      case RQueued => CFinalize(id, d.f, Accepted, r.messageId, NoError, true)
      case RDelivered => CFinalize(id, d.f, Delivered, r.messageId, NoError, true)
      case RPermanentBounce => CFinalize(id, d.f, Bounced, "", RecipientHardBounce, true)
      case RRejected => CFinalize(id, d.f, Rejected, "", ProviderRejected, true)
      case RRetryable =>
        CRetry(id, d.f, RetryDelay(r.retryAfter),
               if Contains(r.errorCode, "rate") || Contains(r.errorCode, "daily")
               then ProviderRateLimited else ProviderFailed, false, true)
      case RAmbiguous => CRetry(id, d.f, SECOND, AmbiguousCode(err), true, true)
      case ROther => CRetry(id, d.f, SECOND, ProviderResponseInvalid, true, true)
  }

  /** The outcomes the batch has a counter for. */
  predicate HasCounter(s: State) {
    s != Claimed && s != ProviderStarted && s != Deferred
  }

  predicate MaySend(a: StartAnswer) {
    a.Started? || a.AlreadyStarted?
  }

  /** The calls one dispatch makes, as a function of the answers it meets. */
  function Trace(d: Dispatch, a: Answers): seq<Call> {
    var start := [CStart(d.content.id, d.f)];
    if a.start.RateLimited? && a.start.retryable then
      start + [CRetry(d.content.id, d.f, Max(a.start.retryAfter, SECOND), ProviderRateLimited,
                       a.start.state == ProviderStarted, false)]
    else if !MaySend(a.start) then start
    else if !ValidEnvelope(WireDispatch(d.content)) then start + [CMark(d.content.id, d.f, ProviderResponseInvalid)]
    else
      var (r, err) := ClientSend(a.wire, d.content.id);
      start + [CSend(WireDispatch(d.content)), Settlement(d, r, err)]
  }

  /** What one dispatch comes to, by the answer to its Start and the answer to its last call. */
  function OutcomeOf(d: Dispatch, a: Answers): Outcome {
    match a.start
    case StartBroken => Broke
    case StartClaimLost => Done(Canceled)
    case PolicyDenied(state) => Done(if state == Ambiguous then Ambiguous else Canceled)
    case RateLimited(retryable, _, _) => if retryable then RetryOutcome(a.settle) else Broke
    case _ =>
      match Trace(d, a)[|Trace(d, a)| - 1]
      case CFinalize(_, _, state, _, _, _) => FixedOutcome(state, a.settle)
      case CMark(_, _, _) => FixedOutcome(Ambiguous, a.settle)
      case _ => RetryOutcome(a.settle)
  }

  /** dispatchClaimedAgentEmail. */
  method DispatchClaimed(d: Dispatch, a: Answers) returns (o: Outcome, calls: seq<Call>)
    ensures calls == Trace(d, a) && o == OutcomeOf(d, a)
    ensures o.Done? ==> HasCounter(o.state)
  {
    var id := d.content.id;
    calls := [CStart(id, d.f)];
    match a.start {
      case PolicyDenied(state) =>
        if state == Ambiguous { return Done(Ambiguous), calls; }
        return Done(Canceled), calls;
      case StartClaimLost =>
        return Done(Canceled), calls;
      case StartBroken =>
        return Broke, calls;
      case RateLimited(retryable, retryAfter, state) =>
        if !retryable { return Broke, calls; }
        calls := calls + [CRetry(id, d.f, Max(retryAfter, SECOND), ProviderRateLimited, state == ProviderStarted, false)];
        return RetryOutcome(a.settle), calls;
      case Started =>
      case AlreadyStarted =>
    }
    var envelope := WireDispatch(d.content);
    if !ValidEnvelope(envelope) {
      calls := calls + [CMark(id, d.f, ProviderResponseInvalid)];
      return FixedOutcome(Ambiguous, a.settle), calls;
    }
    calls := calls + [CSend(envelope)];
    var (r, err) := ClientSend(a.wire, id);
    if r.provider != "" && r.provider != PROVIDER && (err.NoSendError? || !r.state.RAmbiguous?) {
      calls := calls + [CRetry(id, d.f, SECOND, ProviderResponseInvalid, true, true)];
      return RetryOutcome(a.settle), calls;
    }
    var result: State;
    match r.state {
      case RAccepted =>
        calls, result := calls + [CFinalize(id, d.f, Accepted, r.messageId, NoError, true)], Accepted;
      case RQueued =>
        calls, result := calls + [CFinalize(id, d.f, Accepted, r.messageId, NoError, true)], Accepted;
      case RDelivered =>
        calls, result := calls + [CFinalize(id, d.f, Delivered, r.messageId, NoError, true)], Delivered;
      case RPermanentBounce =>
        calls, result := calls + [CFinalize(id, d.f, Bounced, "", RecipientHardBounce, true)], Bounced;
      case RRejected =>
        calls, result := calls + [CFinalize(id, d.f, Rejected, "", ProviderRejected, true)], Rejected;
      case RRetryable =>
        var delay := Wrap64(r.retryAfter * SECOND);
        if delay <= 0 { delay := SECOND; }
        var code := ProviderFailed;
        if Contains(r.errorCode, "rate") || Contains(r.errorCode, "daily") { code := ProviderRateLimited; }
        calls := calls + [CRetry(id, d.f, delay, code, false, true)];
        return RetryOutcome(a.settle), calls;
      case RAmbiguous =>
        calls := calls + [CRetry(id, d.f, SECOND, AmbiguousCode(err), true, true)];
        return RetryOutcome(a.settle), calls;
      case ROther =>
        calls := calls + [CRetry(id, d.f, SECOND, ProviderResponseInvalid, true, true)];
        return RetryOutcome(a.settle), calls;
    }
    return FixedOutcome(result, a.settle), calls;
  }

  // ------------------------------------------------------------ one batch

  datatype BatchResult = BatchResult(
    claimed: int, accepted: int, delivered: int, retried: int, bounced: int, rejected: int,
    failed: int, ambiguous: int, canceled: int, expiredReconciled: int)
  {
    function Settled(): int {
      accepted + delivered + retried + bounced + rejected + failed + ambiguous + canceled
    }

    function Counter(s: State): int {
      match s
      case Accepted => accepted
      case Delivered => delivered
      case Queued => retried
      case Bounced => bounced
      case Rejected => rejected
      case Failed => failed
      case Ambiguous => ambiguous
      case Canceled => canceled
      case _ => 0
    }
  }

  datatype BatchError =
    | NoBatchError | ConfigInvalid | ReconcileFailed | ContextDone | ClaimFailed | DispatchFailed | UnknownOutcome

  /** The outcome switch: the counter named after the outcome goes up by one, and no other. */
  method Count(r: BatchResult, s: State) returns (c: BatchResult, known: bool)
    ensures known <==> HasCounter(s)
    ensures c.claimed == r.claimed && c.expiredReconciled == r.expiredReconciled
    ensures !known ==> c == r
    ensures known ==> forall t :: c.Counter(t) == r.Counter(t) + if t == s then 1 else 0
  {
    match s {
      case Accepted => return r.(accepted := r.accepted + 1), true;
      case Delivered => return r.(delivered := r.delivered + 1), true;
      case Queued => return r.(retried := r.retried + 1), true;
      case Bounced => return r.(bounced := r.bounced + 1), true;
      case Rejected => return r.(rejected := r.rejected + 1), true;
      case Failed => return r.(failed := r.failed + 1), true;
      case Ambiguous => return r.(ambiguous := r.ambiguous + 1), true;
      case Canceled => return r.(canceled := r.canceled + 1), true;
      case _ => return r, false;
    }
  }

  /** What one round of the batch loop meets. */
  datatype ClaimAnswer = QueueEmpty | ClaimError | Got(d: Dispatch)
  datatype Round = Round(contextDone: bool, claim: ClaimAnswer, answers: Answers)

  predicate Settles(c: Call) {
    (c.CFinalize? || c.CRetry?) && c.detached
  }

  /** A Send follows a Start that allowed it, and exactly one settling call follows the Send. */
  lemma SendsAreStartedAndSettled(d: Dispatch, a: Answers)
    ensures var calls := Trace(d, a);
            && calls[0] == CStart(d.content.id, d.f)
            && (forall i :: 0 <= i < |calls| && calls[i].CSend? ==>
                  i == 1 && MaySend(a.start) && calls[1].envelope == WireDispatch(d.content) && |calls| == 3 && Settles(calls[2]))
            && (forall i :: 0 <= i < |calls| && Settles(calls[i]) ==> i == 2 && calls[1].CSend?)
            && (forall i :: 1 <= i < |calls| && !calls[i].CSend? ==> calls[i].id == d.content.id && calls[i].f == d.f)
  {
  }

  predicate IsTraceOf(calls: seq<Call>, round: Round) {
    round.claim.Got? && calls == Trace(round.claim.d, round.answers)
  }

  /** The dispatch of a round came to this. */
  predicate CameTo(o: Outcome, round: Round) {
    round.claim.Got? && o == OutcomeOf(round.claim.d, round.answers)
  }

  /** The books of a batch: each counter holds the number of dispatches that ended in its outcome. */
  predicate Balanced(r: BatchResult, outcomes: seq<State>) {
    forall s :: r.Counter(s) == multiset(outcomes)[s]
  }

  /** One claim of the batch: dispatched, traced, and booked under its outcome unless the dispatch failed. */
  method TakeClaim(r: BatchResult, outcomes: seq<State>, d: Dispatch, a: Answers)
    returns (c: BatchResult, err: BatchError, calls: seq<Call>, booked: seq<State>)
    requires Balanced(r, outcomes)
    ensures c.claimed == r.claimed + 1 && calls == Trace(d, a)
    ensures Balanced(c, booked)
    ensures match OutcomeOf(d, a)
            case Done(state) => err == NoBatchError && booked == outcomes + [state]
            case Broke => err == DispatchFailed && booked == outcomes
  {
    var o;
    o, calls := DispatchClaimed(d, a);
    c := r.(claimed := r.claimed + 1);
    assert forall s :: c.Counter(s) == r.Counter(s);
    if o.Broke? { return c, DispatchFailed, calls, outcomes; }
    var known;
    c, known := Count(c, o.state);
    return c, if known then NoBatchError else UnknownOutcome, calls, outcomes + [o.state];
  }

  /** processAgentEmailOutboundBatch: every claim is traced and booked under exactly one outcome, or ends the batch. */
  method ProcessBatch(batchSize: int, configValid: bool, reconciled: Option<int>, rounds: nat -> Round)
    returns (r: BatchResult, err: BatchError, traces: seq<seq<Call>>, outcomes: seq<State>)
    requires configValid ==> 1 <= batchSize <= 100
    ensures err != UnknownOutcome
    ensures Balanced(r, outcomes)
    ensures r.claimed == |outcomes| + if err == DispatchFailed then 1 else 0
    ensures forall k :: 0 <= k < |outcomes| ==> CameTo(Done(outcomes[k]), rounds(k))
    ensures err == DispatchFailed ==> CameTo(Broke, rounds(|outcomes|))
    ensures 0 <= r.claimed && (configValid ==> r.claimed <= batchSize)
    ensures |traces| == r.claimed
    ensures forall k :: 0 <= k < |traces| ==> IsTraceOf(traces[k], rounds(k))
  {
    r := BatchResult(0, 0, 0, 0, 0, 0, 0, 0, 0, if reconciled.Some? then reconciled.value else 0);
    traces, outcomes := [], [];
    assert Balanced(r, outcomes);
    if !configValid { return r, ConfigInvalid, traces, outcomes; }
    if reconciled.None? { return r, ReconcileFailed, traces, outcomes; }
    for i := 0 to batchSize
      invariant r.claimed == |outcomes| == |traces| == i
      invariant Balanced(r, outcomes)
      invariant forall k :: 0 <= k < i ==> IsTraceOf(traces[k], rounds(k))
      invariant forall k :: 0 <= k < i ==> CameTo(Done(outcomes[k]), rounds(k))
    {
      var round := rounds(i);
      if round.contextDone { return r, ContextDone, traces, outcomes; }
      if round.claim.QueueEmpty? { return r, NoBatchError, traces, outcomes; }
      if round.claim.ClaimError? { return r, ClaimFailed, traces, outcomes; }
      var calls;
      r, err, calls, outcomes := TakeClaim(r, outcomes, round.claim.d, round.answers);
      assert IsTraceOf(calls, rounds(i));
      traces := traces + [calls];
      if err != NoBatchError { return r, err, traces, outcomes; }
    }
    err := NoBatchError;
  }

  // ------------------------------------------------------------ properties

  /** Balanced books conserve claims: each counter holds its own outcomes, and the eight add up to the booked dispatches. */
  lemma CountersAddUp(r: BatchResult, outcomes: seq<State>)
    requires Balanced(r, outcomes)
    ensures r.Settled() == |outcomes|
    ensures var m := multiset(outcomes);
            && r.accepted == m[Accepted] && r.delivered == m[Delivered] && r.retried == m[Queued] && r.bounced == m[Bounced]
            && r.rejected == m[Rejected] && r.failed == m[Failed] && r.ambiguous == m[Ambiguous] && r.canceled == m[Canceled]
  {
    var m := multiset(outcomes);
    forall i | 0 <= i < |outcomes| ensures HasCounter(outcomes[i]) {
      assert r.Counter(outcomes[i]) == m[outcomes[i]] > 0;
    }
    OutcomesAddUp(outcomes);
    assert r.Counter(Accepted) == m[Accepted] && r.Counter(Delivered) == m[Delivered] && r.Counter(Queued) == m[Queued]
        && r.Counter(Bounced) == m[Bounced] && r.Counter(Rejected) == m[Rejected] && r.Counter(Failed) == m[Failed]
        && r.Counter(Ambiguous) == m[Ambiguous] && r.Counter(Canceled) == m[Canceled];
  }

  lemma {:induction false} OutcomesAddUp(outcomes: seq<State>)
    requires forall i :: 0 <= i < |outcomes| ==> HasCounter(outcomes[i])
    ensures var m := multiset(outcomes);
            m[Accepted] + m[Delivered] + m[Queued] + m[Bounced] + m[Rejected] + m[Failed] + m[Ambiguous] + m[Canceled]
              == |outcomes|
    decreases |outcomes|
  {
    if outcomes != [] {
      var earlier := outcomes[..|outcomes| - 1];
      assert outcomes == earlier + [outcomes[|outcomes| - 1]];
      OutcomesAddUp(earlier);
    }
  }

  /** Two messages with one envelope are the same message: the envelope drops and merges nothing. */
  lemma EnvelopeIsFaithful(c: Content, e: Content)
    requires WireDispatch(c) == WireDispatch(e)
    ensures c == e
  {
  }

  /** Finalize is called only for the expected provider or for none, and only on an explicit answer. */
  lemma FinalizeNeedsTrustedAnswer(d: Dispatch, wire: Wire)
    ensures var (r, err) := ClientSend(wire, d.content.id);
            Settlement(d, r, err).CFinalize? ==>
              && wire.Reply? && wire.body == r && ValidResponse(r, d.content.id)
              && r.provider == PROVIDER
              && !r.state.RAmbiguous? && !r.state.RRetryable?
              && (ClaimsDelivery(Settlement(d, r, err).state) ==>
                    200 <= wire.status < 300 && wire.body.messageId == Settlement(d, r, err).messageId != "")
  {
  }

  /** A valid reply of the expected provider. */
  predicate Trusted(w: Wire, sendId: string) {
    w.Reply? && ValidResponse(w.body, sendId) && w.body.provider == PROVIDER
  }

  /** And one with a success status. */
  predicate Success(w: Wire, sendId: string) {
    Trusted(w, sendId) && 200 <= w.status < 300
  }

  /** What each finalization needs of the reply, and what each such reply leads to. */
  lemma SettlementExactly(d: Dispatch, wire: Wire, m: string)
    ensures var (r, err) := ClientSend(wire, d.content.id);
            var c, id := Settlement(d, r, err), d.content.id;
            && (c == CFinalize(id, d.f, Accepted, m, NoError, true) <==>
                  Success(wire, id) && (wire.body.state.RAccepted? || wire.body.state.RQueued?) && wire.body.messageId == m)
            && (c == CFinalize(id, d.f, Delivered, m, NoError, true) <==>
                  Success(wire, id) && wire.body.state.RDelivered? && wire.body.messageId == m)
            && (c == CFinalize(id, d.f, Bounced, "", RecipientHardBounce, true) <==>
                  Success(wire, id) && wire.body.state.RPermanentBounce?)
            && (c == CFinalize(id, d.f, Rejected, "", ProviderRejected, true) <==>
                  Trusted(wire, id) && wire.body.state.RRejected?)
  {
  }

  /** A valid Retryable reply is retried when it says, or after a second, under the code its text names. */
  lemma RetryableIsRetriedAsAsked(d: Dispatch, wire: Wire)
    requires Trusted(wire, d.content.id) && wire.body.state.RRetryable?
    ensures var (r, err) := ClientSend(wire, d.content.id);
            var rate := Contains(wire.body.errorCode, "rate") || Contains(wire.body.errorCode, "daily");
            Settlement(d, r, err) == CRetry(d.content.id, d.f, Max(wire.body.retryAfter, 1) * SECOND,
                                            if rate then ProviderRateLimited else ProviderFailed, false, true)
  {
  }

  predicate TimedOut(w: Wire) {
    w.TransportFailure? && (w.err.DeadlineExceeded? || w.err.NetworkTimeout?)
  }

  /** The connection gave no answer, or an error status came with the adapter's own word that it does not know. */
  predicate Broken(w: Wire, sendId: string) {
    || (w.TransportFailure? && (w.err.NoSendError? || w.err.OtherSendError?))
    || (w.Reply? && ValidResponse(w.body, sendId) && w.body.state.RAmbiguous? && !(200 <= w.status < 300))
  }

  /** Everything else is asked again a second later with the boundary kept, under a code that says what came back. */
  lemma UnclearIsAskedAgain(d: Dispatch, wire: Wire)
    ensures var (r, err) := ClientSend(wire, d.content.id);
            var c, id := Settlement(d, r, err), d.content.id;
            && (c.CRetry? && c.preserve <==>
                  !(Trusted(wire, id) && (wire.body.state.RRetryable? || wire.body.state.RRejected?))
                  && !(Success(wire, id) && !wire.body.state.RAmbiguous?))
            && (c.CRetry? && c.preserve ==>
                  c == CRetry(id, d.f, SECOND,
                              if TimedOut(wire) then ProviderTimeout
                              else if Broken(wire, id) then ProviderConnectionReset
                              else ProviderResponseInvalid, true, true))
  {
  }

  /** What a dispatch is booked as, from its answers alone: each closed outcome of a Send exactly on its reply. */
  lemma BookedExactly(d: Dispatch, a: Answers)
    ensures var id := d.content.id;
            var sent := MaySend(a.start) && ValidEnvelope(WireDispatch(d.content)) && a.settle.SettledAs?;
            && (OutcomeOf(d, a) == Done(Accepted) <==>
                  sent && Success(a.wire, id) && (a.wire.body.state.RAccepted? || a.wire.body.state.RQueued?))
            && (OutcomeOf(d, a) == Done(Delivered) <==> sent && Success(a.wire, id) && a.wire.body.state.RDelivered?)
            && (OutcomeOf(d, a) == Done(Bounced) <==> sent && Success(a.wire, id) && a.wire.body.state.RPermanentBounce?)
            && (OutcomeOf(d, a) == Done(Rejected) <==> sent && Trusted(a.wire, id) && a.wire.body.state.RRejected?)
  {
    var (r, err) := ClientSend(a.wire, d.content.id);
    SettlementKinds(d, a.wire);
    if MaySend(a.start) && ValidEnvelope(WireDispatch(d.content)) {
      assert Trace(d, a)[|Trace(d, a)| - 1] == Settlement(d, r, err);
    }
  }

  lemma SettlementKinds(d: Dispatch, wire: Wire)
    ensures var (r, err) := ClientSend(wire, d.content.id);
            var c, id := Settlement(d, r, err), d.content.id;
            && (c.CFinalize? || c.CRetry?)
            && (c.CFinalize? && c.state == Accepted <==>
                  Success(wire, id) && (wire.body.state.RAccepted? || wire.body.state.RQueued?))
            && (c.CFinalize? && c.state == Delivered <==> Success(wire, id) && wire.body.state.RDelivered?)
            && (c.CFinalize? && c.state == Bounced <==> Success(wire, id) && wire.body.state.RPermanentBounce?)
            && (c.CFinalize? && c.state == Rejected <==> Trusted(wire, id) && wire.body.state.RRejected?)
  {
  }

  /**
   The calls of a dispatch that sends nothing: none but Start, except that a retryable rate limit is
   retried no sooner than it says, and an envelope the adapter would refuse is marked.
   */
  lemma UnsentCalls(d: Dispatch, a: Answers)
    requires !(MaySend(a.start) && ValidEnvelope(WireDispatch(d.content)))
    ensures var calls := Trace(d, a);
            && (forall i :: 0 <= i < |calls| ==> !calls[i].CSend? && !calls[i].CFinalize?)
            && (|calls| > 1 <==> (a.start.RateLimited? && a.start.retryable) || MaySend(a.start))
            && (a.start.RateLimited? && a.start.retryable ==>
                  |calls| == 2 && calls[1].CRetry? && calls[1].code == ProviderRateLimited && calls[1].id == d.content.id
                  && calls[1].f == d.f && calls[1].delay >= a.start.retryAfter && calls[1].delay >= SECOND
                  && (calls[1].delay == a.start.retryAfter || calls[1].delay == SECOND)
                  && (calls[1].preserve <==> a.start.state == ProviderStarted))
            && (MaySend(a.start) ==> calls[1..] == [CMark(d.content.id, d.f, ProviderResponseInvalid)])
  {
  }

  /** And what it is booked as: a lost claim as canceled, a marked envelope as ambiguous, a final limit as a failure. */
  lemma UnsentOutcomes(d: Dispatch, a: Answers)
    requires !(MaySend(a.start) && ValidEnvelope(WireDispatch(d.content)))
    ensures a.start.StartClaimLost? ==> OutcomeOf(d, a) == Done(Canceled)
    ensures a.start.StartBroken? || (a.start.RateLimited? && !a.start.retryable) ==> OutcomeOf(d, a) == Broke
    ensures MaySend(a.start) ==> OutcomeOf(d, a) == if a.settle.SettledAs? then Done(Ambiguous) else Broke
    ensures a.start.RateLimited? && a.start.retryable && a.settle.SettleFailed? ==> OutcomeOf(d, a) == Broke
  {
  }

  /** A denied Start is booked as the state it left the row in. */
  lemma DenialIsBookedAsLeft(d: Dispatch, a: Answers, r: Row, now: int)
    requires a.start == Start(r, d.f, Denied, now).0 && a.start.PolicyDenied?
    ensures OutcomeOf(d, a) == Done(Start(r, d.f, Denied, now).1.state)
  {
  }

  /** A retry the store took is booked as queued exactly when it left the row open, and otherwise as what it became. */
  lemma RetryIsBookedAsLeft(r: Row, f: Fence, at: int, code: ErrorCode, p: string, keep: bool, now: int)
    requires Retry(r, f, at, code, p, keep, now).Ok?
    ensures var left := Retry(r, f, at, code, p, keep, now).value.state;
            RetryOutcome(SettledAs(left)) == Done(if Terminal(left) then left else Queued)
  {
  }

  /** The provider boundary is given up after a Send exactly on a valid Retryable reply of the expected provider. */
  lemma BoundaryGivenUpExactlyOnRetryable(d: Dispatch, wire: Wire)
    ensures var (r, err) := ClientSend(wire, d.content.id);
            var c := Settlement(d, r, err);
            (c.CRetry? && !c.preserve) <==>
            (wire.Reply? && ValidResponse(wire.body, d.content.id) && wire.body.state.RRetryable?
             && wire.body.provider == PROVIDER)
  {
  }

  /** After a Send the store takes the retry: never sooner than a second, never beyond its 24-hour bound. */
  lemma RetryDelayIsAccepted(d: Dispatch, wire: Wire)
    ensures var (r, err) := ClientSend(wire, d.content.id);
            var c := Settlement(d, r, err);
            c.CRetry? ==> SECOND <= c.delay <= 24 * HOUR && Retryable(c.code) && (c.preserve ==> Uncertain(c.code))
  {
  }

  /**
   The multiplication itself does not promise a second: some unvalidated counts wrap to a few
   nanoseconds. Within the range of a duration every count gives at least a second.
   */
  lemma RetryDelayMayWrap()
    ensures RetryDelay(WRAPPING_SECONDS) == 512
    ensures forall s :: -9_223_372_036 <= s <= 9_223_372_036 ==> RetryDelay(s) >= SECOND
  {
  }

  const WRAPPING_SECONDS := 20211507185753197
}
