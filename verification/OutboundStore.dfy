/**
 One row of agent_email_outbound_messages and the SQL statements of
 internal/store/agent_email_outbound_worker.go that change it. Times are integer
 nanoseconds on the database clock.
 */
module OutboundStore {
  import opened Prelude

  const SECOND := 1_000_000_000
  const HOUR := 3600 * SECOND
  const LEASE := 300 * SECOND
  const MAX_ATTEMPTS := 12
  const WORK_AGE := 72 * HOUR

  datatype State =
    | Queued | Claimed | ProviderStarted
    | Accepted | Delivered | Deferred | Bounced | Rejected | Failed
    | Ambiguous | Canceled

  datatype ErrorCode =
    | NoError | ProviderUnavailable | ProviderRateLimited | ProviderRejected | ProviderFailed
    | ProviderTimeout | ProviderConnectionReset | ProviderResponseInvalid
    | RecipientHardBounce | DispatchCanceled | WorkerLeaseExpired

  /** The columns no UPDATE of the worker touches. */
  datatype Content = Content(
    id: string, account: string, realm: string, agent: string,
    fromAddress: string, replyTo: string, to: string, subject: string,
    text: string, inReplyTo: string, references: seq<string>)

  datatype Fence = Fence(claimId: nat, generation: nat)

  datatype Row = Row(
    content: Content,
    queuedAt: int,
    state: State,
    provider: string,
    messageId: string,
    lastError: ErrorCode,
    attempts: nat,
    generation: nat,
    claimId: Option<nat>,
    leaseExpires: Option<int>,
    nextAttempt: Option<int>,
    providerStartedAt: Option<int>,
    acceptedAt: Option<int>,
    deliveredAt: Option<int>,
    failedAt: Option<int>,
    ambiguousAt: Option<int>,
    canceledAt: Option<int>)

  /** provider_state always equals state once the provider has settled the row, and is '' before. */
  predicate Settled(s: State) {
    (s == Accepted || s == Delivered || s == Deferred || s == Bounced || s == Rejected || s == Failed)
  }

  /** The table's CHECK constraints on the lifecycle columns. */
  predicate MeetsChecks(r: Row) {
    && (r.state != Queued || (
          r.claimId.None? && r.leaseExpires.None? && r.nextAttempt.Some? && r.providerStartedAt.None? &&
          r.acceptedAt.None? && r.deliveredAt.None? && r.failedAt.None? && r.ambiguousAt.None? && r.canceledAt.None?))
    && (r.state != Claimed || (
          r.claimId.Some? && r.generation >= 1 && r.leaseExpires.Some? && r.nextAttempt.None? &&
          r.providerStartedAt.None? && r.acceptedAt.None? && r.deliveredAt.None? && r.failedAt.None? &&
          r.ambiguousAt.None? && r.canceledAt.None?))
    && (r.state != ProviderStarted || (
          r.claimId.Some? && r.generation >= 1 && r.leaseExpires.Some? && r.nextAttempt.None? &&
          r.providerStartedAt.Some? && r.acceptedAt.None? && r.deliveredAt.None? && r.failedAt.None? &&
          r.ambiguousAt.None? && r.canceledAt.None?))
    && (!Settled(r.state) || (
          r.provider != "" && r.claimId.None? && r.leaseExpires.None? && r.nextAttempt.None? &&
          r.providerStartedAt.Some? && r.ambiguousAt.None? && r.canceledAt.None?))
    && (r.state != Ambiguous || (
          r.claimId.None? && r.leaseExpires.None? && r.nextAttempt.None? && r.providerStartedAt.Some? &&
          r.ambiguousAt.Some? && r.canceledAt.None?))
    && (r.state != Canceled || (
          r.claimId.None? && r.leaseExpires.None? && r.nextAttempt.None? && r.providerStartedAt.None? &&
          r.canceledAt.Some? && r.acceptedAt.None? && r.deliveredAt.None? && r.failedAt.None? && r.ambiguousAt.None?))
    && ((r.state == Accepted || r.state == Delivered || r.state == Deferred) ==> r.messageId != "" && r.acceptedAt.Some?)
    && (r.state == Delivered ==> r.deliveredAt.Some?)
    && ((r.state == Bounced || r.state == Rejected || r.state == Failed) ==> r.failedAt.Some? && r.lastError != NoError)
  }

  datatype StoreError = Empty | ClaimLost | InputInvalid

  predicate Exhausted(r: Row, now: int) {
    r.attempts >= MAX_ATTEMPTS || r.queuedAt <= now - WORK_AGE
  }

  predicate Expired(lease: Option<int>, now: int) {
    lease.Some? && lease.value <= now
  }

  /** A candidate of the claim query: `active` is whether its account's status is active. */
  predicate Claimable(r: Row, active: bool, now: int) {
    && active
    && !Exhausted(r, now)
    && (|| (r.state == Queued && Expired(r.nextAttempt, now))
        || ((r.state == Claimed || r.state == ProviderStarted) && Expired(r.leaseExpires, now)))
  }

  function Claim(r: Row, active: bool, claimId: nat, now: int): Result<Row, StoreError> {
    if !Claimable(r, active, now) then Err(Empty)
    else Ok(r.(
              state := if r.state == ProviderStarted then ProviderStarted else Claimed,
              provider := "", messageId := "",
              lastError := if r.state == Claimed then WorkerLeaseExpired else r.lastError,
              attempts := r.attempts + 1,
              generation := r.generation + 1,
              claimId := Some(claimId),
              leaseExpires := Some(now + LEASE),
              nextAttempt := None,
              providerStartedAt := if r.state == ProviderStarted then r.providerStartedAt else None))
  }

  predicate Holds(r: Row, f: Fence) {
    r.claimId == Some(f.claimId) && r.generation == f.generation
  }

  /** What the policy, suppression and rate checks of one Start say. */
  datatype Verdict = Clear | Denied | Limited(retryable: bool, retryAfter: int)

  datatype StartAnswer =
    | Started
    | AlreadyStarted
    | PolicyDenied(state: State)
    | StartClaimLost
    | RateLimited(retryable: bool, retryAfter: int, state: State)
    | StartBroken  // any other store error; nothing is committed

  /** StartAgentEmailOutboundProviderCall: the answer and the row it leaves. */
  function Start(r: Row, f: Fence, verdict: Verdict, now: int): (StartAnswer, Row) {
    if !Holds(r, f) then (StartClaimLost, r)
    else if (r.state != Claimed && r.state != ProviderStarted) || r.leaseExpires.None? then (StartClaimLost, r)
    else if verdict.Denied? then
      var r' := if r.state == ProviderStarted then Abandoned(r, now) else CanceledClaim(r, now);
      (PolicyDenied(r'.state), r')
    else if r.state == ProviderStarted then (AlreadyStarted, r)
    else if verdict.Limited? then (RateLimited(verdict.retryable, verdict.retryAfter, r.state), r)
    else if r.leaseExpires.value <= now then (StartClaimLost, r)
    else (Started, r.(state := ProviderStarted, providerStartedAt := Some(now), lastError := NoError))
  }

  function CanceledClaim(r: Row, now: int): Row {
    r.(state := Canceled, provider := "", messageId := "", lastError := DispatchCanceled,
       claimId := None, leaseExpires := None, nextAttempt := None, canceledAt := Some(now))
  }

  function Abandoned(r: Row, now: int): Row {
    r.(state := Ambiguous, lastError := DispatchCanceled,
       claimId := None, leaseExpires := None, nextAttempt := None, ambiguousAt := Some(now))
  }

  function MarkedAmbiguous(r: Row, provider: string, code: ErrorCode, now: int): Row {
    r.(state := Ambiguous, provider := provider, messageId := "", lastError := code,
       claimId := None, leaseExpires := None, nextAttempt := None, ambiguousAt := Some(now))
  }

  predicate Retryable(code: ErrorCode) {
    (code == ProviderUnavailable || code == ProviderRateLimited || code == ProviderFailed || code == ProviderTimeout || code == ProviderConnectionReset || code == ProviderResponseInvalid)
  }

  predicate Uncertain(code: ErrorCode) {
    (code == ProviderTimeout || code == ProviderConnectionReset || code == ProviderResponseInvalid)
  }

  /** RetryAgentEmailOutbound. */
  function Retry(r: Row, f: Fence, retryAt: int, code: ErrorCode, provider: string, preserve: bool, now: int)
    : Result<Row, StoreError>
  {
    if !Retryable(code) || retryAt > now + 24 * HOUR + 60 * SECOND then Err(InputInvalid)
    else if !Holds(r, f) || (r.state != Claimed && r.state != ProviderStarted) then Err(ClaimLost)
    else if r.state == Claimed && !(r.leaseExpires.Some? && r.leaseExpires.value > now) then Err(ClaimLost)
    else
      var crossed := r.state == ProviderStarted;
      var keep := preserve || Uncertain(code);
      if keep && !crossed then Err(InputInvalid)
      else if crossed && provider == "" then Err(InputInvalid)
      else if Exhausted(r, now) && crossed && keep then Ok(MarkedAmbiguous(r, provider, code, now))
      else if Exhausted(r, now) && crossed then
        Ok(r.(state := Failed, provider := provider, messageId := "", lastError := code, claimId := None,
              leaseExpires := None, nextAttempt := None, failedAt := Some(now)))
      else if Exhausted(r, now) then Ok(CanceledClaim(r, now))
      else if crossed && keep then
        Ok(r.(lastError := code, leaseExpires := Some(Max(retryAt, now))))
      else
        Ok(r.(state := Queued, provider := "", messageId := "", lastError := code, claimId := None,
              leaseExpires := None, nextAttempt := Some(Max(retryAt, now)), providerStartedAt := None))
  }

  /** The shapes normalizeAgentEmailOutboundFinalizeInput accepts. */
  predicate FinalizeShape(state: State, messageId: string, code: ErrorCode) {
    match state
    case Accepted => messageId != "" && code == NoError
    case Delivered => messageId != "" && code == NoError
    case Deferred => messageId != "" && code == NoError
    case Bounced => code == RecipientHardBounce
    case Rejected => code == ProviderRejected
    case Failed => code == ProviderFailed
    case _ => false
  }

  /** FinalizeAgentEmailOutbound; a repeated identical finalization succeeds without a change. */
  function Finalize(r: Row, f: Fence, state: State, provider: string, messageId: string, code: ErrorCode, now: int)
    : Result<Row, StoreError>
  {
    if provider == "" || !FinalizeShape(state, messageId, code) then Err(InputInvalid)
    else if r.state != ProviderStarted || !Holds(r, f) then
      if r.state == state && r.provider == provider && r.messageId == messageId && r.lastError == code
      then Ok(r)
      else Err(ClaimLost)
    else Ok(r.(
              state := state, provider := provider, messageId := messageId, lastError := code,
              claimId := None, leaseExpires := None,
              acceptedAt := if (state == Accepted || state == Delivered || state == Deferred) && r.acceptedAt.None? then Some(now) else r.acceptedAt,
              deliveredAt := if state == Delivered then Some(now) else r.deliveredAt,
              failedAt := if (state == Bounced || state == Rejected || state == Failed) then Some(now) else r.failedAt))
  }

  /** MarkAgentEmailOutboundAmbiguous. */
  function MarkAmbiguous(r: Row, f: Fence, provider: string, code: ErrorCode, now: int): Result<Row, StoreError> {
    if !(Uncertain(code) || code == WorkerLeaseExpired) then Err(InputInvalid)
    else if r.state == Ambiguous && r.provider == provider && r.lastError == code then Ok(r)
    else if r.state != ProviderStarted || !Holds(r, f) then Err(ClaimLost)
    else Ok(MarkedAmbiguous(r, provider, code, now))
  }

  /** ReconcileExhaustedAgentEmailOutbound on one row. */
  function Reconcile(r: Row, now: int): Row {
    if Exhausted(r, now) &&
       (r.state == Queued || ((r.state == Claimed || r.state == ProviderStarted) && Expired(r.leaseExpires, now)))
    then
      if r.state == ProviderStarted then
        r.(state := Ambiguous, provider := "", messageId := "", lastError := WorkerLeaseExpired, claimId := None,
           leaseExpires := None, nextAttempt := None, ambiguousAt := Some(now), canceledAt := None)
      else
        r.(state := Canceled, provider := "", messageId := "", lastError := DispatchCanceled, claimId := None,
           leaseExpires := None, nextAttempt := None, providerStartedAt := None,
           ambiguousAt := None, canceledAt := Some(now))
    else r
  }

  /** The row one store statement leaves; a refused statement leaves the row as it was. */
  datatype Statement =
    | SClaim(active: bool, claimId: nat)
    | SStart(f: Fence, verdict: Verdict)
    | SRetry(f: Fence, retryAt: int, code: ErrorCode, provider: string, preserve: bool)
    | SFinalize(f: Fence, state: State, provider: string, messageId: string, code: ErrorCode)
    | SMarkAmbiguous(f: Fence, provider: string, code: ErrorCode)
    | SReconcile

  function After(r: Row, q: Statement, now: int): Row {
    match q
    case SClaim(active, c) => Kept(r, Claim(r, active, c, now))
    case SStart(f, v) => Start(r, f, v, now).1
    case SRetry(f, at, code, p, keep) => Kept(r, Retry(r, f, at, code, p, keep, now))
    case SFinalize(f, st, p, m, code) => Kept(r, Finalize(r, f, st, p, m, code, now))
    case SMarkAmbiguous(f, p, code) => Kept(r, MarkAmbiguous(r, f, p, code, now))
    case SReconcile => Reconcile(r, now)
  }

  function Kept(r: Row, a: Result<Row, StoreError>): Row {
    if a.Ok? then a.value else r
  }

  // ---------------------------------------------------------------- properties

  /** No statement of the worker can break the table's CHECK constraints. */
  lemma StatementsMeetChecks(r: Row, q: Statement, now: int)
    requires MeetsChecks(r)
    ensures MeetsChecks(After(r, q, now))
  {
  }

  /** Only the holder of the current claim moves a row, and nobody rewrites the queued content. */
  lemma StatementsAreFenced(r: Row, q: Statement, now: int)
    ensures After(r, q, now).content == r.content && After(r, q, now).queuedAt == r.queuedAt
    ensures r.generation <= After(r, q, now).generation
    ensures After(r, q, now).generation - r.generation == After(r, q, now).attempts - r.attempts
    ensures (q.SStart? || q.SRetry? || q.SFinalize? || q.SMarkAmbiguous?) && !Holds(r, q.f) ==> After(r, q, now) == r
    ensures After(r, q, now).attempts <= Max(r.attempts, MAX_ATTEMPTS)
  {
  }

  /** A statement and the time it runs at. */
  datatype Timed = Timed(q: Statement, at: int)

  function Ran(r: Row, qs: seq<Timed>): Row
    decreases |qs|
  {
    if qs == [] then r else Ran(After(r, qs[0].q, qs[0].at), qs[1..])
  }

  predicate EndsClaim(r: Row, q: Statement) {
    q.SRetry? && Holds(r, q.f)
  }

  lemma LeaseStep(r: Row, q: Statement, now: int)
    requires MeetsChecks(r) && !Terminal(r.state) && r.state != Queued && now < r.leaseExpires.value && !EndsClaim(r, q)
    ensures var t := After(r, q, now);
            t.generation == r.generation
            && (Terminal(t.state) || (t.state != Queued && t.claimId == r.claimId && t.leaseExpires == r.leaseExpires))
  {
  }

  /**
   While a lease runs nobody else claims the row, whatever its holder and everybody else do meanwhile,
   short of the holder's own retry.
   */
  lemma {:induction false} OneClaimPerLease(r: Row, qs: seq<Timed>)
    requires MeetsChecks(r) && !Terminal(r.state) && r.state != Queued
    requires forall i :: 0 <= i < |qs| ==> qs[i].at < r.leaseExpires.value && !EndsClaim(r, qs[i].q)
    ensures Ran(r, qs).generation == r.generation
    ensures Terminal(Ran(r, qs).state) || Ran(r, qs).claimId == r.claimId
    decreases |qs|
  {
    if qs != [] {
      var t := After(r, qs[0].q, qs[0].at);
      StatementsMeetChecks(r, qs[0].q, qs[0].at);
      LeaseStep(r, qs[0].q, qs[0].at);
      if Terminal(t.state) {
        ClosedForGood(t, qs[1..]);
      } else {
        OneClaimPerLease(t, qs[1..]);
      }
    }
  }

  /** No run of statements reopens a closed row. */
  lemma {:induction false} ClosedForGood(r: Row, qs: seq<Timed>)
    requires MeetsChecks(r) && Terminal(r.state)
    ensures Ran(r, qs) == r
    decreases |qs|
  {
    if qs != [] {
      ClosedRowsStayClosed(r, qs[0].q, qs[0].at);
      ClosedForGood(r, qs[1..]);
    }
  }

  predicate Terminal(s: State) {
    (s != Queued && s != Claimed && s != ProviderStarted)
  }

  /** When an open row stops waiting, for its retry time or for a lease to run out. */
  function WaitsUntil(r: Row): int
    requires MeetsChecks(r) && !Terminal(r.state)
  {
    if r.state == Queued then (if r.nextAttempt.Some? then r.nextAttempt.value else 0)
    else if r.leaseExpires.Some? then r.leaseExpires.value else 0
  }

  /** When an open row's budget of work age is over. */
  function AgesOut(r: Row): int {
    r.queuedAt + WORK_AGE
  }

  /** A retry the store takes from this holder at this time. */
  predicate TakesRetry(r: Row, q: Statement, now: int) {
    && q.SRetry? && Holds(r, q.f) && Retryable(q.code) && q.retryAt <= now + 24 * HOUR + 60 * SECOND
    && if r.state == ProviderStarted then q.provider != ""
       else r.state == Claimed && r.leaseExpires.Some? && now < r.leaseExpires.value && !q.preserve && !Uncertain(q.code)
  }

  predicate Keeps(q: Statement) {
    q.SRetry? && (q.preserve || Uncertain(q.code))
  }

  /** Exactly what closes an open row as ambiguous: it is past the boundary, and nobody will ask again. */
  lemma AmbiguousExactlyBy(r: Row, q: Statement, now: int)
    requires MeetsChecks(r) && !Terminal(r.state)
    ensures After(r, q, now).state == Ambiguous <==>
              && r.state == ProviderStarted
              && (|| (q.SStart? && Holds(r, q.f) && q.verdict.Denied?)
                  || (TakesRetry(r, q, now) && Keeps(q) && Exhausted(r, now))
                  || (q.SMarkAmbiguous? && Holds(r, q.f) && (Uncertain(q.code) || q.code == WorkerLeaseExpired))
                  || (q.SReconcile? && Exhausted(r, now) && Expired(r.leaseExpires, now)))
  {
  }

  /** Exactly what closes one as canceled: it is not past the boundary, and denied or out of budget. */
  lemma CanceledExactlyBy(r: Row, q: Statement, now: int)
    requires MeetsChecks(r) && !Terminal(r.state)
    ensures After(r, q, now).state == Canceled <==>
              && r.state != ProviderStarted
              && (|| (r.state == Claimed && q.SStart? && Holds(r, q.f) && q.verdict.Denied?)
                  || (TakesRetry(r, q, now) && Exhausted(r, now))
                  || (q.SReconcile? && Exhausted(r, now) && (r.state == Queued || Expired(r.leaseExpires, now))))
  {
  }

  /** Whatever closes a row or takes it past the boundary is stamped with its time and says why. */
  lemma MovesAreStamped(r: Row, q: Statement, now: int)
    requires MeetsChecks(r) && !Terminal(r.state)
    ensures var t := After(r, q, now);
            && (t.state == ProviderStarted && r.state != ProviderStarted ==> t.providerStartedAt == Some(now) && t.lastError == NoError)
            && (ClaimsDelivery(t.state) ==> t.acceptedAt == Some(now) && t.lastError == NoError)
            && (t.state == Delivered ==> t.deliveredAt == Some(now))
            && (t.state == Bounced || t.state == Rejected || t.state == Failed ==> t.failedAt == Some(now))
            && (t.state == Canceled ==> t.canceledAt == Some(now) && t.lastError == DispatchCanceled)
            && (t.state == Ambiguous ==>
                  && t.ambiguousAt == Some(now) && t.providerStartedAt == r.providerStartedAt
                  && t.lastError == match q
                                    case SStart(_, _) => DispatchCanceled
                                    case SRetry(_, _, code, _, _) => code
                                    case SMarkAmbiguous(_, _, code) => code
                                    case _ => WorkerLeaseExpired)
            && (t.state == Bounced ==> t.lastError == RecipientHardBounce)
            && (t.state == Rejected ==> t.lastError == ProviderRejected)
  {
  }

  /** A row closed as canceled or ambiguous names no provider message, but for one that an abandoned call may have left. */
  lemma UnsettledNamesNoMessage(r: Row, q: Statement, now: int)
    requires MeetsChecks(r) && !Terminal(r.state)
    ensures var t := After(r, q, now);
            t.state == Canceled || t.state == Ambiguous ==> t.messageId == if t.state == Ambiguous && q.SStart? then r.messageId else ""
  {
  }

  /** Exactly what queues a claimed row again, and what takes a claimed row past the boundary. */
  lemma OpenMovesExactlyBy(r: Row, q: Statement, now: int)
    requires MeetsChecks(r) && (r.state == Claimed || r.state == ProviderStarted)
    ensures After(r, q, now).state == Queued <==> TakesRetry(r, q, now) && !Keeps(q) && !Exhausted(r, now)
    ensures r.state == Claimed ==>
              (After(r, q, now).state == ProviderStarted <==>
                 q.SStart? && Holds(r, q.f) && q.verdict.Clear? && now < r.leaseExpires.value)
    ensures TakesRetry(r, q, now) ==> After(r, q, now).lastError == if After(r, q, now).state == Canceled then DispatchCanceled else q.code
  {
  }

  /** The answer to a Start says whether to send, and who may not. */
  lemma StartAnswersExactly(r: Row, f: Fence, verdict: Verdict, now: int)
    requires MeetsChecks(r)
    ensures var answer := Start(r, f, verdict, now).0;
            var held := Holds(r, f) && (r.state == Claimed || r.state == ProviderStarted);
            && (answer.AlreadyStarted? <==> held && r.state == ProviderStarted && !verdict.Denied?)
            && (answer.Started? <==> held && r.state == Claimed && verdict.Clear? && now < r.leaseExpires.value)
            && (answer.PolicyDenied? <==> held && verdict.Denied?)
            && (answer.RateLimited? <==> held && r.state == Claimed && verdict.Limited?)
            && (answer.RateLimited? ==> answer == RateLimited(verdict.retryable, verdict.retryAfter, Claimed))
            && !answer.StartBroken?
            && (!answer.Started? && !answer.PolicyDenied? ==> Start(r, f, verdict, now).1 == r)
  {
  }

  /** A claim takes exactly the open rows whose wait is over and whose account and budget allow, for the length of a lease. */
  lemma ClaimExactly(r: Row, active: bool, claimId: nat, now: int)
    requires MeetsChecks(r)
    ensures Claim(r, active, claimId, now).Ok? <==>
              active && !Terminal(r.state) && WaitsUntil(r) <= now && r.attempts < MAX_ATTEMPTS && now < AgesOut(r)
    ensures Claim(r, active, claimId, now).Ok? ==>
              var t := Claim(r, active, claimId, now).value;
              && Holds(t, Fence(claimId, r.generation + 1)) && t.leaseExpires == Some(now + LEASE)
              && t.attempts == r.attempts + 1 && t.providerStartedAt == r.providerStartedAt
              && (t.state == ProviderStarted <==> r.state == ProviderStarted) && !Terminal(t.state) && t.state != Queued
  {
  }

  /** A retry that leaves the row open makes it wait until its time, no longer. */
  lemma RetryWaitsAsAsked(r: Row, q: Statement, now: int)
    requires MeetsChecks(r) && TakesRetry(r, q, now) && !Exhausted(r, now)
    ensures MeetsChecks(After(r, q, now)) && !Terminal(After(r, q, now).state)
    ensures WaitsUntil(After(r, q, now)) == Max(q.retryAt, now)
  {
  }

  /** A retried row is not claimed again before its time. */
  lemma RetryIsNotEarly(r: Row, f: Fence, retryAt: int, code: ErrorCode, p: string, keep: bool, now: int,
                        active: bool, claimId: nat, later: int)
    requires Retry(r, f, retryAt, code, p, keep, now).Ok? && later < Max(retryAt, now)
    ensures Claim(Retry(r, f, retryAt, code, p, keep, now).value, active, claimId, later) == Err(Empty)
  {
  }

  predicate ClaimsDelivery(s: State) {
    s == Accepted || s == Delivered || s == Deferred
  }

  /** A row comes to claim a delivery only through the finalization that names the provider's message. */
  lemma DeliveryClaimsComeFromFinalize(r: Row, q: Statement, now: int)
    requires ClaimsDelivery(After(r, q, now).state)
    ensures || (ClaimsDelivery(r.state) && After(r, q, now).messageId == r.messageId)
            || (q.SFinalize? && ClaimsDelivery(q.state) && After(r, q, now).messageId == q.messageId)
  {
  }

  /** A row is past the provider boundary because it was, or because the claim holder's Start took it there. */
  lemma CrossingComesFromStart(r: Row, q: Statement, now: int)
    requires After(r, q, now).state == ProviderStarted
    ensures || (r.state == ProviderStarted && (q.SClaim? || After(r, q, now).claimId == r.claimId))
            || (q.SStart? && Holds(r, q.f))
    ensures q.SClaim? && After(r, q, now) != r ==> After(r, q, now).generation == r.generation + 1
  {
  }

  /** The worker never reopens a closed row. */
  lemma ClosedRowsStayClosed(r: Row, q: Statement, now: int)
    requires MeetsChecks(r) && Terminal(r.state)
    ensures After(r, q, now) == r
  {
  }

  /** A settling call whose reply was lost may be repeated: it succeeds again and changes nothing. */
  lemma SettlingTwiceIsOnce(r: Row, f: Fence, state: State, p: string, m: string, code: ErrorCode, now: int, later: int)
    ensures var done := Finalize(r, f, state, p, m, code, now);
            done.Ok? ==> Finalize(done.value, f, state, p, m, code, later) == done
    ensures var done := MarkAmbiguous(r, f, p, code, now);
            done.Ok? ==> MarkAmbiguous(done.value, f, p, code, later) == done
  {
  }

  /**
   No open row is stranded. Once its wait is over it can be claimed exactly while its account is
   active and it has budget left; a row out of budget is closed by reconciling, and so is every row,
   whatever its account, once its work age is over.
   */
  lemma NoRowIsStranded(r: Row, active: bool, now: int)
    requires MeetsChecks(r) && !Terminal(r.state) && now >= WaitsUntil(r)
    ensures Claim(r, active, 0, now).Ok? <==> active && !Exhausted(r, now)
    ensures Terminal(Reconcile(r, now).state) <==> Exhausted(r, now)
    ensures now >= AgesOut(r) ==> Exhausted(r, now)
  {
  }

  /** A message past the boundary is called unsent or refused only by its holder's finalization or certain retry. */
  lemma UncertainIsNeverCalledUnsent(r: Row, q: Statement, now: int)
    requires MeetsChecks(r) && r.state == ProviderStarted
    requires var s := After(r, q, now).state; s == Queued || s == Canceled || s == Failed || s == Bounced || s == Rejected
    ensures (q.SFinalize? || q.SRetry?) && Holds(r, q.f)
    ensures q.SFinalize? ==> After(r, q, now).state == q.state
    ensures q.SRetry? ==> !q.preserve && !Uncertain(q.code)
  {
  }

  /** Reconciling closes exactly the exhausted rows nobody holds, as ambiguous when past the boundary, else as canceled. */
  lemma ReconcileClosesExactly(r: Row, now: int)
    requires MeetsChecks(r)
    ensures var t := Reconcile(r, now);
            && (t != r <==> Exhausted(r, now) && !Terminal(r.state) && (r.state == Queued || Expired(r.leaseExpires, now)))
            && (t != r ==> t.state == if r.state == ProviderStarted then Ambiguous else Canceled)
            && (t != r ==> t.providerStartedAt == r.providerStartedAt && t.claimId.None?)
  {
  }

  /**
   The recorded provider boundary is forgotten by exactly one statement: a fenced retry that
   neither asks to preserve it nor carries an uncertain code, on a row with budget left.
   */
  lemma BoundaryForgottenExactlyBy(r: Row, q: Statement, now: int)
    requires MeetsChecks(r) && r.providerStartedAt.Some?
    ensures After(r, q, now).providerStartedAt.None? <==>
            && q.SRetry? && r.state == ProviderStarted && Holds(r, q.f)
            && Retryable(q.code) && !Uncertain(q.code) && !q.preserve && q.provider != ""
            && q.retryAt <= now + 24 * HOUR + 60 * SECOND && !Exhausted(r, now)
  {
  }
}
