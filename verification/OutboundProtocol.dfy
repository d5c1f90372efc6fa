/**
 One outbound message through any number of workers, the store row that fences them, the
 network, and the adapter's durable receipt (infra/cloudflare/agent-email-send). Every
 interleaving, lost reply, timeout, crash and replay is a sequence of the actions below.
 */
module OutboundProtocol {
  import opened Prelude
  import opened OutboundStore
  import opened OutboundWorker

  /** The longest batch, so the longest a claim may wait before its Start and its Send. */
  const BATCH_LIMIT := 300 * SECOND
  const REPLAY_WINDOW := 900 * SECOND
  const RECEIPT_TTL := 7 * 24 * HOUR
  /** How far an edge clock may stand from the cell's. The proof needs three times this plus 72h20m below the TTL. */
  const EDGE_SKEW := 24 * HOUR

  /** What one EMAIL.send came to; Pending also stands for a call whose answer was lost in a crash. */
  datatype SendOutcome =
    | Pending | AcceptedAs(messageId: string) | Throttled(daily: bool) | Declined(code: string) | Unclear

  datatype ProviderCall = ProviderCall(via: nat, envelope: Envelope, outcome: SendOutcome)

  datatype Phase = InFlight(via: nat) | Refused | Closed(reply: Wire)
  datatype Receipt = Receipt(envelope: Envelope, phase: Phase, expiresAt: int)

  datatype Stage = OnWire | AtProvider | Answered(reply: Wire) | Lost
  datatype Request = Request(envelope: Envelope, signedAt: int, stage: Stage)

  /** Where the worker that holds one claim stands. */
  datatype Session =
    | Holding(f: Fence, deadline: int)
    | Throttling(f: Fence, delay: int, preserve: bool)
    | Sending(f: Fence, deadline: int, content: Content)
    | Waiting(f: Fence, content: Content)

  /** Sessions and requests are indexed by claim generation; started records the generations let past Start. */
  datatype Sys = Sys(
    now: int,
    row: Row,
    sessions: map<nat, Session>,
    requests: map<nat, Request>,
    receipt: Option<Receipt>,
    calls: seq<ProviderCall>,
    started: set<nat>)

  datatype Action =
    | Tick(d: nat)
    | Claiming(claimId: nat)
    | Starting(g: nat, verdict: Verdict, replied: bool)
    | RetryThrottled(g: nat)
    | RefuseEnvelope(g: nat)
    | Sent(g: nat)
    | EdgeAnswers(g: nat, reply: Wire)
    | Arrives(g: nat, edgeNow: int)
    | ProviderAnswers(g: nat, outcome: SendOutcome)
    | EdgeCrashes(g: nat)
    | ReceiptExpires(edgeNow: int)
    | Settles(g: nat, delivered: bool, err: SendError)
    | Reconciling

  // ------------------------------------------------------------ the adapter's replies

  function AdapterReply(status: int, sendId: string, state: ReplyState, messageId: string, code: string, retryAfter: int): Wire {
    Reply(status, Response(sendId, state, PROVIDER, messageId, code, retryAfter))
  }

  function AmbiguousReply(sendId: string): Wire {
    AdapterReply(503, sendId, RAmbiguous, "", "provider_outcome_ambiguous", 0)
  }

  function OutcomeReply(sendId: string, o: SendOutcome): Wire {
    match o
    case Pending => AmbiguousReply(sendId)
    case AcceptedAs(m) => AdapterReply(200, sendId, RAccepted, m, "", 0)
    case Throttled(daily) =>
      AdapterReply(429, sendId, RRetryable, "",
                   if daily then "provider_daily_limit" else "provider_rate_limited", if daily then 3600 else 60)
    case Declined(code) => AdapterReply(422, sendId, RRejected, "", code, 0)
    case Unclear => AmbiguousReply(sendId)
  }

  function PhaseAfter(sendId: string, o: SendOutcome): Phase
    requires !o.Pending?
  {
    if o.Throttled? then Refused else Closed(OutcomeReply(sendId, o))
  }

  predicate ProviderMayAnswer(o: SendOutcome) {
    match o
    case Pending => false
    case AcceptedAs(m) => 0 < |m| <= 512
    case Throttled(_) => true
    case Declined(code) => code != ""
    case Unclear => true
  }

  // ------------------------------------------------------------ steps

  predicate NearCell(s: Sys, edgeNow: int) {
    s.now - EDGE_SKEW <= edgeNow <= s.now + EDGE_SKEW
  }

  /** What the front door answers by itself is never an acceptance. */
  predicate FrontDoorReply(w: Wire) {
    w.Reply? && (w.body.state.RRejected? || w.body.state.RRetryable?)
  }

  predicate Enabled(s: Sys, a: Action) {
    match a
    case Tick(_) => true
    case Claiming(_) => Claimable(s.row, true, s.now)
    case Starting(g, _, _) => g in s.sessions && s.sessions[g].Holding? && s.now <= s.sessions[g].deadline
    case RetryThrottled(g) => g in s.sessions && s.sessions[g].Throttling?
    case RefuseEnvelope(g) =>
      g in s.sessions && s.sessions[g].Sending? && !ValidEnvelope(WireDispatch(s.sessions[g].content))
    case Sent(g) =>
      && g in s.sessions && s.sessions[g].Sending? && s.now <= s.sessions[g].deadline
      && ValidEnvelope(WireDispatch(s.sessions[g].content))
    case EdgeAnswers(g, reply) => g in s.requests && s.requests[g].stage.OnWire? && FrontDoorReply(reply)
    case Arrives(g, edgeNow) =>
      && g in s.requests && s.requests[g].stage.OnWire? && NearCell(s, edgeNow)
      && -REPLAY_WINDOW <= edgeNow - s.requests[g].signedAt <= REPLAY_WINDOW
    case ProviderAnswers(g, o) =>
      g in s.requests && s.requests[g].stage.AtProvider? && ProviderMayAnswer(o) && s.receipt.Some? && s.calls != []
    case EdgeCrashes(g) => g in s.requests && s.requests[g].stage.AtProvider?
    case ReceiptExpires(edgeNow) =>
      && s.receipt.Some? && NearCell(s, edgeNow) && s.receipt.value.expiresAt <= edgeNow
      && forall g :: g in s.requests ==> !s.requests[g].stage.AtProvider?
    case Settles(g, delivered, err) =>
      && g in s.sessions && s.sessions[g].Waiting?
      && (delivered ==> g in s.requests && s.requests[g].stage.Answered?)
    case Reconciling => true
  }

  /** The store statement a worker call performs. */
  function StatementOf(c: Call, now: int): Statement
    requires !c.CStart? && !c.CSend?
  {
    match c
    case CFinalize(_, f, state, m, code, _) => SFinalize(f, state, PROVIDER, m, code)
    case CRetry(_, f, delay, code, keep, _) => SRetry(f, now + delay, code, PROVIDER, keep)
    case CMark(_, f, code) => SMarkAmbiguous(f, PROVIDER, code)
  }

  function SettlingCall(s: Sys, g: nat, delivered: bool, err: SendError): Call
    requires Enabled(s, Settles(g, delivered, err))
  {
    var w := s.sessions[g];
    var (r, e) := ClientSend(if delivered then s.requests[g].stage.reply else TransportFailure(err), w.content.id);
    Settlement(Dispatch(w.content, w.f), r, e)
  }

  function WithStage(s: Sys, g: nat, stage: Stage): Sys
    requires g in s.requests
  {
    s.(requests := s.requests[g := s.requests[g].(stage := stage)])
  }

  function Begun(s: Sys, g: nat, expiresAt: int): Sys
    requires g in s.requests
  {
    var e := s.requests[g].envelope;
    WithStage(s, g, AtProvider).(
      receipt := Some(Receipt(e, InFlight(g), expiresAt)), calls := s.calls + [ProviderCall(g, e, Pending)])
  }

  /** OutboundReceipt.dispatch up to its last awaited storage write: the reply, or a new provider call. */
  function AtAdapter(s: Sys, g: nat, edgeNow: int): Sys
    requires g in s.requests
  {
    var e := s.requests[g].envelope;
    var begun := Begun(s, g, edgeNow + RECEIPT_TTL);
    match s.receipt
    case None => begun
    case Some(r) =>
      var expired := r.expiresAt <= edgeNow;
      var kept := if expired then s.(receipt := None) else s;
      if r.envelope != e then
        WithStage(kept, g, Answered(AdapterReply(409, e.sendId, RRejected, "", "idempotency_conflict", 0)))
      else match r.phase
        case InFlight(_) => WithStage(kept, g, Answered(AmbiguousReply(e.sendId)))
        case Closed(reply) => WithStage(kept, g, Answered(reply))
        case Refused => if expired then WithStage(kept, g, Answered(AmbiguousReply(e.sendId))) else begun
  }

  function AfterStart(s: Sys, g: nat, verdict: Verdict, replied: bool): Sys
    requires g in s.sessions && s.sessions[g].Holding?
  {
    var h := s.sessions[g];
    var (answer, row) := Start(s.row, h.f, verdict, s.now);
    var t := s.(row := row);
    if !replied then t.(sessions := s.sessions - {g})
    else if MaySend(answer) then
      t.(sessions := s.sessions[g := Sending(h.f, h.deadline, row.content)], started := s.started + {g})
    else if answer.RateLimited? && answer.retryable then
      t.(sessions := s.sessions[g := Throttling(h.f, Max(answer.retryAfter, SECOND), answer.state == ProviderStarted)])
    else t.(sessions := s.sessions - {g})
  }

  function AfterClaim(s: Sys, claimId: nat): Sys {
    var row := After(s.row, SClaim(true, claimId), s.now);
    s.(row := row,
       sessions := s.sessions[row.generation := Holding(Fence(claimId, row.generation), s.now + BATCH_LIMIT)])
  }

  function AfterSend(s: Sys, g: nat): Sys
    requires g in s.sessions && s.sessions[g].Sending?
  {
    var w := s.sessions[g];
    s.(sessions := s.sessions[g := Waiting(w.f, w.content)],
       requests := s.requests[g := Request(WireDispatch(w.content), s.now, OnWire)])
  }

  function AfterProvider(s: Sys, g: nat, o: SendOutcome): Sys
    requires Enabled(s, ProviderAnswers(g, o))
  {
    var e := s.requests[g].envelope;
    var last := |s.calls| - 1;
    WithStage(s, g, Answered(OutcomeReply(e.sendId, o))).(
      receipt := Some(s.receipt.value.(phase := PhaseAfter(e.sendId, o))),
      calls := s.calls[last := s.calls[last].(outcome := o)])
  }

  /** A store statement that ends the session of its worker. */
  function Closing(s: Sys, q: Statement, g: nat): Sys {
    s.(row := After(s.row, q, s.now), sessions := s.sessions - {g})
  }

  function Next(s: Sys, a: Action): Sys
    requires Enabled(s, a)
  {
    match a
    case Tick(d) => s.(now := s.now + d)
    case Claiming(c) => AfterClaim(s, c)
    case Starting(g, verdict, replied) => AfterStart(s, g, verdict, replied)
    case RetryThrottled(g) =>
      var t := s.sessions[g];
      Closing(s, SRetry(t.f, s.now + t.delay, ProviderRateLimited, PROVIDER, t.preserve), g)
    case RefuseEnvelope(g) =>
      Closing(s, SMarkAmbiguous(s.sessions[g].f, PROVIDER, ProviderResponseInvalid), g)
    case Sent(g) => AfterSend(s, g)
    case EdgeAnswers(g, reply) => WithStage(s, g, Answered(reply))
    case Arrives(g, edgeNow) => AtAdapter(s, g, edgeNow)
    case ProviderAnswers(g, o) => AfterProvider(s, g, o)
    case EdgeCrashes(g) => WithStage(s, g, Lost)
    case ReceiptExpires(_) => s.(receipt := None)
    case Settles(g, delivered, err) =>
      Closing(s, StatementOf(SettlingCall(s, g, delivered, err), s.now), g)
    case Reconciling => s.(row := After(s.row, SReconcile, s.now))
  }

  ghost predicate Runs(s: Sys, acts: seq<Action>, t: Sys)
    decreases |acts|
  {
    if acts == [] then s == t
    else Enabled(s, acts[0]) && Runs(Next(s, acts[0]), acts[1..], t)
  }

  /** A message as EnqueueAgentEmailOutbound leaves it. */
  predicate Fresh(s: Sys) {
    && s.row.state == Queued && MeetsChecks(s.row) && s.row.attempts == s.row.generation == 0
    && s.row.queuedAt <= s.now && s.row.messageId == ""
    && s.sessions == map[] && s.requests == map[] && s.receipt.None? && s.calls == [] && s.started == {}
  }

  // ------------------------------------------------------------ invariant

  /** No envelope of this message is signed after this instant. */
  function Horizon(s: Sys): int {
    s.row.queuedAt + WORK_AGE + BATCH_LIMIT
  }

  predicate SessionOk(s: Sys, g: nat, w: Session) {
    && w.f.generation == g && 1 <= g <= s.row.generation
    && (match w
        case Holding(_, d) => d <= Horizon(s)
        case Throttling(_, _, _) => true
        case Sending(_, d, c) => d <= Horizon(s) && c == s.row.content && g in s.started
        case Waiting(_, c) => c == s.row.content)
  }

  predicate RequestOk(s: Sys, g: nat, r: Request) {
    && 1 <= g <= s.row.generation
    && r.envelope == WireDispatch(s.row.content)
    && r.signedAt <= Horizon(s)
    && g in s.started
    && (r.stage.AtProvider? ==> s.receipt.Some? && s.receipt.value.phase == InFlight(g))
    && (r.stage.Answered? && r.stage.reply.Reply? ==> TrueReply(s, r.stage.reply.body))
  }

  /** A reply that names a provider message tells the truth about the last provider call. */
  predicate TrueReply(s: Sys, r: Response) {
    (r.state.RAccepted? || r.state.RDelivered? || r.state.RQueued?) ==> LastAccepted(s, r.messageId) && r.state.RAccepted?
  }

  predicate LastAccepted(s: Sys, messageId: string) {
    s.calls != [] && s.calls[|s.calls| - 1].outcome == AcceptedAs(messageId)
  }

  predicate ReceiptOk(s: Sys) {
    match s.receipt
    case None => s.calls == [] || s.row.queuedAt + RECEIPT_TTL - 2 * EDGE_SKEW <= s.now
    case Some(r) =>
      && r.envelope == WireDispatch(s.row.content)
      && s.row.queuedAt - EDGE_SKEW + RECEIPT_TTL <= r.expiresAt
      && s.calls != []
      && (var last := s.calls[|s.calls| - 1].outcome;
          match r.phase
          case InFlight(_) => last.Pending?
          case Refused => last.Throttled?
          case Closed(reply) =>
            !last.Pending? && !last.Throttled? && reply == OutcomeReply(s.row.content.id, last))
  }

  predicate CallsOk(s: Sys) {
    && (forall i :: 0 <= i < |s.calls| ==>
          && s.calls[i].envelope == WireDispatch(s.row.content)
          && s.calls[i].via in s.requests && !s.requests[s.calls[i].via].stage.OnWire?)
    && (forall i :: 0 <= i < |s.calls| - 1 ==> s.calls[i].outcome.Throttled?)
    && (forall i, j :: 0 <= i < j < |s.calls| ==> s.calls[i].via != s.calls[j].via)
  }

  predicate RowOk(s: Sys) {
    && s.row.attempts == s.row.generation <= MAX_ATTEMPTS
    && s.row.queuedAt <= s.now
    && (ClaimsDelivery(s.row.state) ==> LastAccepted(s, s.row.messageId))
  }

  predicate Inv(s: Sys) {
    && RowOk(s) && ReceiptOk(s) && CallsOk(s)
    && SessionsOk(s) && RequestsOk(s)
    && (forall g :: g in s.sessions && !s.sessions[g].Waiting? ==> g !in s.requests)
  }

  lemma FreshIsOk(s: Sys)
    requires Fresh(s)
    ensures Inv(s)
  {
  }

  // ------------------------------------------------------------ every step keeps it

  predicate SessionsOk(s: Sys) {
    forall g :: g in s.sessions ==> SessionOk(s, g, s.sessions[g])
  }

  predicate RequestsOk(s: Sys) {
    forall g :: g in s.requests ==> RequestOk(s, g, s.requests[g])
  }

  /** The row may advance within its generation order without touching what sessions and requests rely on. */
  predicate RowAdvances(s: Sys, t: Sys) {
    && t.row.content == s.row.content && t.row.queuedAt == s.row.queuedAt
    && s.row.generation <= t.row.generation
  }

  lemma SessionsCarry(s: Sys, t: Sys)
    requires SessionsOk(s) && RowAdvances(s, t) && s.started <= t.started
    requires forall g :: g in t.sessions ==> g in s.sessions && t.sessions[g] == s.sessions[g]
    ensures SessionsOk(t)
  {
  }

  lemma RequestsCarry(s: Sys, t: Sys)
    requires RequestsOk(s) && RowAdvances(s, t) && s.started <= t.started
    requires t.requests == s.requests && t.receipt == s.receipt && t.calls == s.calls
    ensures RequestsOk(t)
  {
  }

  lemma RowStep(s: Sys, row: Row)
    requires Inv(s) && RowAdvances(s, s.(row := row))
    requires row.attempts == row.generation <= MAX_ATTEMPTS
    requires ClaimsDelivery(row.state) ==> LastAccepted(s, row.messageId)
    ensures Inv(s.(row := row))
  {
    var t := s.(row := row);
    SessionsCarry(s, t);
    RequestsCarry(s, t);
  }

  /** A store statement keeps the invariant when what it finalizes as delivered was accepted. */
  lemma StatementStep(s: Sys, q: Statement)
    requires Inv(s)
    requires q.SFinalize? && ClaimsDelivery(q.state) ==> LastAccepted(s, q.messageId)
    ensures Inv(s.(row := After(s.row, q, s.now)))
    ensures RowAdvances(s, s.(row := After(s.row, q, s.now)))
  {
    var row := After(s.row, q, s.now);
    StatementsAreFenced(s.row, q, s.now);
    if ClaimsDelivery(row.state) { DeliveryClaimsComeFromFinalize(s.row, q, s.now); }
    RowStep(s, row);
  }

  /** Ending a session keeps the invariant. */
  lemma EndSession(s: Sys, g: nat)
    requires Inv(s)
    ensures Inv(s.(sessions := s.sessions - {g}))
  {
  }

  /** A statement that also ends the session of its worker. */
  lemma ClosingStep(s: Sys, q: Statement, g: nat)
    requires Inv(s)
    requires q.SFinalize? && ClaimsDelivery(q.state) ==> LastAccepted(s, q.messageId)
    ensures Inv(Closing(s, q, g))
  {
    StatementStep(s, q);
    EndSession(s.(row := After(s.row, q, s.now)), g);
  }

  /** Replacing one request's stage keeps the invariant when the new stage is true and no call loses its request. */
  lemma StageStep(s: Sys, g: nat, stage: Stage)
    requires Inv(s) && g in s.requests && !stage.OnWire? && !stage.AtProvider?
    requires stage.Answered? && stage.reply.Reply? ==> TrueReply(s, stage.reply.body)
    ensures Inv(WithStage(s, g, stage))
  {
    var t := WithStage(s, g, stage);
    SessionsCarry(s, t);
    forall h | h in t.requests ensures RequestOk(t, h, t.requests[h]) { assert RequestOk(s, h, s.requests[h]); }
  }

  lemma KeepsTick(s: Sys, d: nat)
    requires Inv(s)
    ensures Inv(s.(now := s.now + d))
  {
  }

  lemma AddSession(s: Sys, g: nat, w: Session)
    requires Inv(s) && SessionOk(s, g, w)
    requires w.Waiting? || g !in s.requests
    ensures Inv(s.(sessions := s.sessions[g := w]))
  {
    var t := s.(sessions := s.sessions[g := w]);
    SessionsCarry(s, t.(sessions := s.sessions));
    forall h | h in t.sessions ensures SessionOk(t, h, t.sessions[h]) {
      if h != g { assert SessionOk(s, h, s.sessions[h]); }
    }
    RequestsCarry(s, t);
  }

  lemma ClaimTakesGeneration(r: Row, c: nat, now: int)
    requires Claimable(r, true, now)
    ensures After(r, SClaim(true, c), now).generation == r.generation + 1
    ensures now < After(r, SClaim(true, c), now).queuedAt + WORK_AGE
  {
  }

  /** The session a claim opens, on the row the claim left. */
  lemma KeepsOpening(mid: Sys, c: nat, at: int)
    requires Inv(mid) && mid.row.generation >= 1 && at < mid.row.queuedAt + WORK_AGE && mid.row.generation !in mid.requests
    ensures var g := mid.row.generation;
            Inv(mid.(sessions := mid.sessions[g := Holding(Fence(c, g), at + BATCH_LIMIT)]))
  {
    var g := mid.row.generation;
    AddSession(mid, g, Holding(Fence(c, g), at + BATCH_LIMIT));
  }

  lemma KeepsClaiming(s: Sys, c: nat)
    requires Inv(s) && Enabled(s, Claiming(c))
    ensures Inv(AfterClaim(s, c))
  {
    StatementStep(s, SClaim(true, c));
    ClaimTakesGeneration(s.row, c, s.now);
    var mid := s.(row := After(s.row, SClaim(true, c), s.now));
    forall h | h in s.requests ensures h <= s.row.generation { assert RequestOk(s, h, s.requests[h]); }
    KeepsOpening(mid, c, s.now);
  }

  lemma KeepsStarting(s: Sys, g: nat, verdict: Verdict, replied: bool)
    requires Inv(s) && Enabled(s, Starting(g, verdict, replied))
    ensures Inv(AfterStart(s, g, verdict, replied))
  {
    var h := s.sessions[g];
    assert SessionOk(s, g, h);
    StatementStep(s, SStart(h.f, verdict));
    var mid := s.(row := After(s.row, SStart(h.f, verdict), s.now));
    var answer := Start(s.row, h.f, verdict, s.now).0;
    if replied && MaySend(answer) {
      var let := mid.(started := s.started + {g});
      SessionsCarry(mid, let);
      RequestsCarry(mid, let);
      AddSession(let, g, Sending(h.f, h.deadline, mid.row.content));
    } else if replied && answer.RateLimited? && answer.retryable {
      AddSession(mid, g, Throttling(h.f, Max(answer.retryAfter, SECOND), answer.state == ProviderStarted));
    } else {
      EndSession(mid, g);
    }
  }

  lemma KeepsSent(s: Sys, g: nat)
    requires Inv(s) && Enabled(s, Sent(g))
    ensures Inv(AfterSend(s, g))
  {
    var t := AfterSend(s, g);
    assert SessionOk(s, g, s.sessions[g]);
    forall h | h in t.sessions ensures SessionOk(t, h, t.sessions[h]) {
      if h != g { assert SessionOk(s, h, s.sessions[h]); }
    }
    forall h | h in t.requests ensures RequestOk(t, h, t.requests[h]) {
      if h != g { assert RequestOk(s, h, s.requests[h]); }
    }
  }

  /** A receipt never expires while an envelope of its message can still arrive. */
  lemma ReceiptOutlivesWork(s: Sys, g: nat, edgeNow: int)
    requires Inv(s) && Enabled(s, Arrives(g, edgeNow))
    ensures s.receipt.None? ==> s.calls == []
    ensures s.receipt.Some? ==> edgeNow < s.receipt.value.expiresAt
  {
    assert RequestOk(s, g, s.requests[g]);
  }

  /** A provider call begins only when every earlier one was throttled. */
  lemma KeepsBegin(s: Sys, g: nat, expiresAt: int)
    requires Inv(s) && g in s.requests && s.requests[g].stage.OnWire?
    requires s.row.queuedAt - EDGE_SKEW + RECEIPT_TTL <= expiresAt
    requires if s.receipt.None? then s.calls == [] else s.receipt.value.phase.Refused?
    ensures Inv(Begun(s, g, expiresAt))
  {
    assert RequestOk(s, g, s.requests[g]);
    var t := Begun(s, g, expiresAt);
    SessionsCarry(s, t);
    forall h | h in t.requests ensures RequestOk(t, h, t.requests[h]) { assert RequestOk(s, h, s.requests[h]); }
  }

  lemma KeepsArrives(s: Sys, g: nat, edgeNow: int)
    requires Inv(s) && Enabled(s, Arrives(g, edgeNow))
    ensures Inv(AtAdapter(s, g, edgeNow))
  {
    ReceiptOutlivesWork(s, g, edgeNow);
    assert RequestOk(s, g, s.requests[g]);
    if s.receipt.None? || s.receipt.value.phase.Refused? {
      KeepsBegin(s, g, edgeNow + RECEIPT_TTL);
    } else {
      StageStep(s, g, AtAdapter(s, g, edgeNow).requests[g].stage);
    }
  }

  lemma KeepsProviderAnswers(s: Sys, g: nat, o: SendOutcome)
    requires Inv(s) && Enabled(s, ProviderAnswers(g, o))
    ensures Inv(AfterProvider(s, g, o))
  {
    assert RequestOk(s, g, s.requests[g]);
    var t := AfterProvider(s, g, o);
    SessionsCarry(s, t);
    forall h | h in t.requests ensures RequestOk(t, h, t.requests[h]) { assert RequestOk(s, h, s.requests[h]); }
  }

  lemma KeepsReceiptExpires(s: Sys, edgeNow: int)
    requires Inv(s) && Enabled(s, ReceiptExpires(edgeNow))
    ensures Inv(s.(receipt := None))
  {
  }

  /** What the worker finalizes as accepted, the provider accepted under that message id. */
  lemma SettlementIsTrue(s: Sys, g: nat, delivered: bool, err: SendError)
    requires Inv(s) && Enabled(s, Settles(g, delivered, err))
    ensures var c := SettlingCall(s, g, delivered, err);
            c.CFinalize? && ClaimsDelivery(c.state) ==> LastAccepted(s, c.messageId)
  {
    if delivered { assert RequestOk(s, g, s.requests[g]); }
  }

  lemma KeepsSettles(s: Sys, g: nat, delivered: bool, err: SendError)
    requires Inv(s) && Enabled(s, Settles(g, delivered, err))
    ensures Inv(Closing(s, StatementOf(SettlingCall(s, g, delivered, err), s.now), g))
  {
    SettlementIsTrue(s, g, delivered, err);
    ClosingStep(s, StatementOf(SettlingCall(s, g, delivered, err), s.now), g);
  }

  predicate AtEdge(a: Action) {
    a.EdgeAnswers? || a.Arrives? || a.ProviderAnswers? || a.EdgeCrashes? || a.ReceiptExpires?
  }

  lemma EdgeKeepsInv(s: Sys, a: Action)
    requires Inv(s) && Enabled(s, a) && AtEdge(a)
    ensures Inv(Next(s, a))
  {
    match a
    case EdgeAnswers(g, reply) => StageStep(s, g, Answered(reply));
    case Arrives(g, edgeNow) => KeepsArrives(s, g, edgeNow);
    case ProviderAnswers(g, o) => KeepsProviderAnswers(s, g, o);
    case EdgeCrashes(g) => StageStep(s, g, Lost);
    case ReceiptExpires(edgeNow) => KeepsReceiptExpires(s, edgeNow);
  }

  lemma KeepsRetryThrottled(s: Sys, g: nat)
    requires Inv(s) && Enabled(s, RetryThrottled(g))
    ensures Inv(Next(s, RetryThrottled(g)))
  {
    var w := s.sessions[g];
    var q := SRetry(w.f, s.now + w.delay, ProviderRateLimited, PROVIDER, w.preserve);
    assert Next(s, RetryThrottled(g)) == Closing(s, q, g);
    ClosingStep(s, q, g);
  }

  lemma KeepsRefuseEnvelope(s: Sys, g: nat)
    requires Inv(s) && Enabled(s, RefuseEnvelope(g))
    ensures Inv(Next(s, RefuseEnvelope(g)))
  {
    var q := SMarkAmbiguous(s.sessions[g].f, PROVIDER, ProviderResponseInvalid);
    assert Next(s, RefuseEnvelope(g)) == Closing(s, q, g);
    ClosingStep(s, q, g);
  }

  lemma WorkerKeepsInv(s: Sys, a: Action)
    requires Inv(s) && Enabled(s, a) && (a.Tick? || a.Claiming? || a.Starting? || a.Sent? || a.Reconciling?)
    ensures Inv(Next(s, a))
  {
    match a
    case Tick(d) => KeepsTick(s, d);
    case Claiming(c) => KeepsClaiming(s, c);
    case Starting(g, verdict, replied) => KeepsStarting(s, g, verdict, replied);
    case Sent(g) => KeepsSent(s, g);
    case Reconciling => StatementStep(s, SReconcile);
  }

  lemma StepKeepsInv(s: Sys, a: Action)
    requires Inv(s) && Enabled(s, a)
    ensures Inv(Next(s, a))
  {
    if AtEdge(a) {
      EdgeKeepsInv(s, a);
    } else if a.RetryThrottled? {
      KeepsRetryThrottled(s, a.g);
    } else if a.RefuseEnvelope? {
      KeepsRefuseEnvelope(s, a.g);
    } else if a.Settles? {
      KeepsSettles(s, a.g, a.delivered, a.err);
    } else {
      WorkerKeepsInv(s, a);
    }
  }

  lemma {:induction false} RunKeepsInv(s: Sys, acts: seq<Action>, t: Sys)
    requires Inv(s) && Runs(s, acts, t)
    ensures Inv(t)
    decreases |acts|
  {
    if acts != [] {
      StepKeepsInv(s, acts[0]);
      RunKeepsInv(Next(s, acts[0]), acts[1..], t);
    }
  }

  // ------------------------------------------------------------ what every run promises

  /**
   At most once: over every run, at most one call to the provider can have been accepted. Every
   earlier call was refused by throttling, and every call carries the one queued envelope.
   */
  lemma AtMostOneAcceptance(s: Sys, acts: seq<Action>, t: Sys)
    requires Fresh(s) && Runs(s, acts, t)
    ensures forall i :: 0 <= i < |t.calls| - 1 ==> t.calls[i].outcome.Throttled?
    ensures forall i :: 0 <= i < |t.calls| ==> t.calls[i].envelope == WireDispatch(s.row.content)
    ensures forall g :: g in t.requests ==> t.requests[g].envelope == WireDispatch(s.row.content)
  {
    FreshIsOk(s);
    RunKeepsInv(s, acts, t);
    RunKeepsContent(s, acts, t);
    forall g | g in t.requests ensures t.requests[g].envelope == WireDispatch(s.row.content) {
      assert RequestOk(t, g, t.requests[g]);
    }
  }

  /** The store says accepted or delivered only when the provider accepted, under that very message id. */
  lemma AcceptedRowsAreTrue(s: Sys, acts: seq<Action>, t: Sys)
    requires Fresh(s) && Runs(s, acts, t)
    requires ClaimsDelivery(t.row.state)
    ensures t.calls != [] && t.calls[|t.calls| - 1].outcome == AcceptedAs(t.row.messageId)
  {
    FreshIsOk(s);
    RunKeepsInv(s, acts, t);
  }

  /** Nothing is sent before a Start the store let past, and no claim sends twice; so at most twelve calls. */
  lemma CallsAreStartedAndBounded(s: Sys, acts: seq<Action>, t: Sys)
    requires Fresh(s) && Runs(s, acts, t)
    ensures t.requests.Keys <= t.started
    ensures |t.calls| <= t.row.generation <= MAX_ATTEMPTS
  {
    FreshIsOk(s);
    RunKeepsInv(s, acts, t);
    forall g | g in t.requests ensures g in t.started { assert RequestOk(t, g, t.requests[g]); }
    forall i | 0 <= i < |t.calls| ensures 1 <= t.calls[i].via <= t.row.generation {
      assert RequestOk(t, t.calls[i].via, t.requests[t.calls[i].via]);
    }
    var vias := seq(|t.calls|, i requires 0 <= i < |t.calls| => t.calls[i].via);
    DistinctFit(vias, t.row.generation);
  }

  /** Pigeonhole: distinct numbers between 1 and n are at most n. */
  lemma {:induction false} DistinctFit(xs: seq<nat>, n: nat)
    requires NoDup(xs) && forall i :: 0 <= i < |xs| ==> 1 <= xs[i] <= n
    ensures |xs| <= n
    decreases n
  {
    assert xs != [] ==> xs[0] <= n;
    if i :| 0 <= i < |xs| && xs[i] == n {
      DistinctFit(xs[..i] + xs[i + 1..], n - 1);
    } else if n > 0 {
      DistinctFit(xs, n - 1);
    }
  }

  /** The statement an action performs on the row, if any. */
  function RowStatement(s: Sys, a: Action): Option<Statement>
    requires Enabled(s, a)
  {
    match a
    case Claiming(c) => Some(SClaim(true, c))
    case Starting(g, verdict, _) => Some(SStart(s.sessions[g].f, verdict))
    case RetryThrottled(g) =>
      var w := s.sessions[g];
      Some(SRetry(w.f, s.now + w.delay, ProviderRateLimited, PROVIDER, w.preserve))
    case RefuseEnvelope(g) => Some(SMarkAmbiguous(s.sessions[g].f, PROVIDER, ProviderResponseInvalid))
    case Settles(g, delivered, err) => Some(StatementOf(SettlingCall(s, g, delivered, err), s.now))
    case Reconciling => Some(SReconcile)
    case _ => None
  }

  lemma RowMovesByStatements(s: Sys, a: Action)
    requires Enabled(s, a)
    ensures Next(s, a).row == if RowStatement(s, a).Some? then After(s.row, RowStatement(s, a).value, s.now) else s.row
  {
  }

  lemma {:induction false} RunKeepsContent(s: Sys, acts: seq<Action>, t: Sys)
    requires Runs(s, acts, t)
    ensures t.row.content == s.row.content && t.row.queuedAt == s.row.queuedAt
    ensures MeetsChecks(s.row) ==> MeetsChecks(t.row)
    decreases |acts|
  {
    if acts != [] {
      var q := RowStatement(s, acts[0]);
      RowMovesByStatements(s, acts[0]);
      if q.Some? {
        StatementsAreFenced(s.row, q.value, s.now);
        if MeetsChecks(s.row) { StatementsMeetChecks(s.row, q.value, s.now); }
      }
      RunKeepsContent(Next(s, acts[0]), acts[1..], t);
    }
  }

  /** A worker refused by a rate limit holds no row that is past the provider boundary. */
  predicate ThrottledUncrossed(s: Sys) {
    forall g :: g in s.sessions && s.sessions[g].Throttling? && Holds(s.row, s.sessions[g].f) ==> s.row.state != ProviderStarted
  }

  lemma ThrottlingComesFromStart(s: Sys, a: Action, g: nat)
    requires Enabled(s, a) && g in Next(s, a).sessions && Next(s, a).sessions[g].Throttling?
    ensures || (g in s.sessions && s.sessions[g] == Next(s, a).sessions[g])
            || (a.Starting? && a.g == g && Next(s, a).row == s.row && s.row.state != ProviderStarted)
  {
  }

  /** A statement takes nobody's own throttled claim past the boundary but that claim's Start. */
  lemma CarriedStaysUncrossed(r: Row, q: Statement, now: int, f: Fence)
    requires f.generation <= r.generation && (Holds(r, f) ==> r.state != ProviderStarted)
    requires q.SStart? ==> q.f.generation != f.generation
    ensures Holds(After(r, q, now), f) ==> After(r, q, now).state != ProviderStarted
  {
    if After(r, q, now).state == ProviderStarted { CrossingComesFromStart(r, q, now); }
    StatementsAreFenced(r, q, now);
  }

  lemma StepKeepsThrottledUncrossed(s: Sys, a: Action)
    requires SessionsOk(s) && ThrottledUncrossed(s) && Enabled(s, a)
    ensures ThrottledUncrossed(Next(s, a))
  {
    var t := Next(s, a);
    RowMovesByStatements(s, a);
    var q := RowStatement(s, a);
    forall g | g in t.sessions && t.sessions[g].Throttling? && Holds(t.row, t.sessions[g].f)
      ensures t.row.state != ProviderStarted
    {
      ThrottlingComesFromStart(s, a, g);
      if g in s.sessions && s.sessions[g] == t.sessions[g] {
        assert SessionOk(s, g, s.sessions[g]);
        if q.Some? {
          if a.Starting? { assert SessionOk(s, a.g, s.sessions[a.g]); }
          CarriedStaysUncrossed(s.row, q.value, s.now, s.sessions[g].f);
        }
      }
    }
  }

  lemma {:induction false} RunKeepsThrottledUncrossed(s: Sys, acts: seq<Action>, t: Sys)
    requires Inv(s) && ThrottledUncrossed(s) && Runs(s, acts, t)
    ensures ThrottledUncrossed(t)
    decreases |acts|
  {
    if acts != [] {
      StepKeepsInv(s, acts[0]);
      StepKeepsThrottledUncrossed(s, acts[0]);
      RunKeepsThrottledUncrossed(Next(s, acts[0]), acts[1..], t);
    }
  }
}
