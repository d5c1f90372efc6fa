/**
 What a closed row does and does not prove about the provider (OutboundProtocol): when the row loses
 track of a possible acceptance, and when a canceled, rejected or failed row is true.
 */
module OutboundConclusions {
  import opened Prelude
  import opened OutboundStore
  import opened OutboundWorker
  import opened OutboundProtocol

  // ------------------------------------------------------------ what the row remembers

  /** The provider itself said that it accepted nothing. */
  predicate Certain(o: SendOutcome) {
    o.Throttled? || o.Declined?
  }

  /** Some call of this message was accepted, or nobody can rule it out. */
  ghost predicate MayBeAccepted(s: Sys) {
    exists i :: 0 <= i < |s.calls| && !Certain(s.calls[i].outcome)
  }

  /** The last call is not certainly refused. */
  predicate OpenCall(s: Sys) {
    s.calls != [] && !Certain(s.calls[|s.calls| - 1].outcome)
  }

  lemma OpenCallIsLast(s: Sys)
    requires CallsOk(s)
    ensures MayBeAccepted(s) <==> OpenCall(s)
  {
  }

  /** No call of this message can have been accepted, or the row still knows that one may have been. */
  predicate BoundaryRemembered(s: Sys) {
    s.row.providerStartedAt.Some? || !OpenCall(s)
  }

  predicate BeginsCall(s: Sys, a: Action) {
    a.Arrives? && (s.receipt.None? || s.receipt.value.phase.Refused?)
  }

  lemma CallsMoveAtTheEdge(s: Sys, a: Action)
    requires Inv(s) && Enabled(s, a)
    ensures BeginsCall(s, a) ==> Next(s, a).calls == s.calls + [ProviderCall(a.g, s.requests[a.g].envelope, Pending)]
    ensures a.ProviderAnswers? ==> |Next(s, a).calls| == |s.calls| > 0 && s.calls[|s.calls| - 1].outcome.Pending?
    ensures !BeginsCall(s, a) && !a.ProviderAnswers? ==> Next(s, a).calls == s.calls
  {
    if a.Arrives? {
      ReceiptOutlivesWork(s, a.g, a.edgeNow);
    } else if a.ProviderAnswers? {
      assert RequestOk(s, a.g, s.requests[a.g]);
    }
  }

  /** The provider answers that it accepted nothing. */
  predicate Clears(a: Action) {
    a.ProviderAnswers? && Certain(a.outcome)
  }

  /** A call is open after a step that begins one or that leaves it unrefused; otherwise it stays as it was. */
  lemma OpenCallMoves(s: Sys, a: Action)
    requires Inv(s) && Enabled(s, a)
    ensures BeginsCall(s, a) ==> !OpenCall(s)
    ensures a.ProviderAnswers? ==> OpenCall(s)
    ensures OpenCall(Next(s, a)) <==> BeginsCall(s, a) || (OpenCall(s) && !Clears(a))
  {
    CallsMoveAtTheEdge(s, a);
    if a.Arrives? { ReceiptOutlivesWork(s, a.g, a.edgeNow); }
  }

  // ------------------------------------------------------------ forgetting the boundary

  /** A reply that proves the provider accepted nothing of this request, as far as the worker can tell. */
  predicate SaysRetry(w: Wire, sendId: string) {
    Trusted(w, sendId) && w.body.state.RRetryable?
  }

  /** The claim holder settles a valid Retryable reply, with budget left. */
  predicate GivesUp(s: Sys, a: Action)
    requires Enabled(s, a)
  {
    && a.Settles? && a.delivered && s.row.state == ProviderStarted && Holds(s.row, s.sessions[a.g].f)
    && !Exhausted(s.row, s.now) && SaysRetry(s.requests[a.g].stage.reply, s.row.content.id)
  }

  lemma SettlingForgets(s: Sys, a: Action)
    requires Inv(s) && MeetsChecks(s.row) && Enabled(s, a) && a.Settles? && s.row.providerStartedAt.Some?
    ensures After(s.row, StatementOf(SettlingCall(s, a.g, a.delivered, a.err), s.now), s.now).providerStartedAt.None? <==> GivesUp(s, a)
  {
    var w := s.sessions[a.g];
    assert SessionOk(s, a.g, w);
    var d := Dispatch(w.content, w.f);
    var wire := if a.delivered then s.requests[a.g].stage.reply else TransportFailure(a.err);
    var call := SettlingCall(s, a.g, a.delivered, a.err);
    BoundaryGivenUpExactlyOnRetryable(d, wire);
    RetryDelayIsAccepted(d, wire);
    RetryCodes(d, wire);
    BoundaryForgottenExactlyBy(s.row, StatementOf(call, s.now), s.now);
  }

  lemma RetryCodes(d: Dispatch, wire: Wire)
    ensures var (r, err) := ClientSend(wire, d.content.id);
            var c := Settlement(d, r, err);
            c.CRetry? ==> c.f == d.f && (!c.preserve ==> !Uncertain(c.code))
  {
  }

  /** Exactly when a step clears the recorded boundary. */
  lemma BoundaryForgottenExactly(s: Sys, a: Action)
    requires Inv(s) && MeetsChecks(s.row) && ThrottledUncrossed(s) && Enabled(s, a) && s.row.providerStartedAt.Some?
    ensures Next(s, a).row.providerStartedAt.None? <==> GivesUp(s, a)
  {
    RowMovesByStatements(s, a);
    var q := RowStatement(s, a);
    if a.Settles? {
      SettlingForgets(s, a);
    } else if q.Some? {
      BoundaryForgottenExactlyBy(s.row, q.value, s.now);
    }
  }

  /** So it is at every step of every run of a fresh message. */
  lemma RunsForgetExactly(s0: Sys, acts: seq<Action>, s: Sys, a: Action)
    requires Fresh(s0) && Runs(s0, acts, s) && Enabled(s, a) && s.row.providerStartedAt.Some?
    ensures Next(s, a).row.providerStartedAt.None? <==> GivesUp(s, a)
  {
    FreshIsOk(s0);
    RunKeepsInv(s0, acts, s);
    RunKeepsThrottledUncrossed(s0, acts, s);
    RunKeepsContent(s0, acts, s);
    BoundaryForgottenExactly(s, a);
  }

  // ------------------------------------------------------------ losing and regaining track

  /** A step after which the row no longer knows that a call may have been accepted, by what is there before it. */
  predicate Forgets(s: Sys, a: Action)
    requires Enabled(s, a)
  {
    || (s.row.providerStartedAt.Some? && GivesUp(s, a) && OpenCall(s))
    || (s.row.providerStartedAt.None? && BeginsCall(s, a))
  }

  /** A step after which the row is right again: a new Start, or the open call turns out to be refused. */
  predicate Recalls(s: Sys, a: Action)
    requires Enabled(s, a)
  {
    || Clears(a)
    || (a.Starting? && Start(s.row, s.sessions[a.g].f, a.verdict, s.now).0.Started?)
  }

  lemma RowStaysAtTheEdge(s: Sys, a: Action)
    requires Enabled(s, a) && (a.Arrives? || a.ProviderAnswers?)
    ensures Next(s, a).row == s.row
  {
  }

  lemma ForgetsAtTheEdge(s: Sys, a: Action, t: Sys)
    requires Inv(s) && Enabled(s, a) && t == Next(s, a) && CallsOk(t) && t.row == s.row
    requires a.Arrives? || a.ProviderAnswers?
    ensures BoundaryRemembered(s) ==> (!BoundaryRemembered(t) <==> Forgets(s, a))
    ensures !BoundaryRemembered(s) ==> (BoundaryRemembered(t) <==> Recalls(s, a))
  {
    OpenCallMoves(s, a);
  }

  lemma RecalledByStart(s: Sys, a: Action)
    requires MeetsChecks(s.row) && Enabled(s, a) && s.row.providerStartedAt.None?
    ensures Next(s, a).row.providerStartedAt.Some? <==>
              a.Starting? && Start(s.row, s.sessions[a.g].f, a.verdict, s.now).0.Started?
  {
    RowMovesByStatements(s, a);
    var q := RowStatement(s, a);
    if q.Some? && !a.Starting? { OnlyStartCrosses(s.row, q.value, s.now); }
    if a.Starting? { StartCrosses(s.row, s.sessions[a.g].f, a.verdict, s.now); }
  }

  lemma OnlyStartCrosses(r: Row, q: Statement, now: int)
    requires MeetsChecks(r) && r.providerStartedAt.None? && !q.SStart?
    ensures After(r, q, now).providerStartedAt.None?
  {
  }

  lemma StartCrosses(r: Row, f: Fence, verdict: Verdict, now: int)
    requires MeetsChecks(r) && r.providerStartedAt.None?
    ensures Start(r, f, verdict, now).1.providerStartedAt.Some? <==> Start(r, f, verdict, now).0.Started?
  {
  }

  lemma ForgetsAtTheCell(s: Sys, a: Action, t: Sys)
    requires Inv(s) && MeetsChecks(s.row) && ThrottledUncrossed(s) && Enabled(s, a) && t == Next(s, a) && CallsOk(t)
    requires !a.Arrives? && !a.ProviderAnswers?
    ensures BoundaryRemembered(s) ==> (!BoundaryRemembered(t) <==> Forgets(s, a))
    ensures !BoundaryRemembered(s) ==> (BoundaryRemembered(t) <==> Recalls(s, a))
  {
    OpenCallMoves(s, a);
    if s.row.providerStartedAt.Some? {
      BoundaryForgottenExactly(s, a);
    } else {
      RecalledByStart(s, a);
    }
  }

  /**
   The row loses track of a possible acceptance in exactly two ways: its holder settles a Retryable
   reply with budget left although the last call is open, or an envelope of an earlier claim
   begins a provider call after the boundary was cleared. It is right again in exactly two ways.
   */
  lemma BoundaryLostExactlyBy(s: Sys, a: Action)
    requires Inv(s) && MeetsChecks(s.row) && ThrottledUncrossed(s) && Enabled(s, a)
    ensures BoundaryRemembered(s) ==> (!BoundaryRemembered(Next(s, a)) <==> Forgets(s, a))
    ensures !BoundaryRemembered(s) ==> (BoundaryRemembered(Next(s, a)) <==> Recalls(s, a))
  {
    StepKeepsInv(s, a);
    var t := Next(s, a);
    if a.Arrives? || a.ProviderAnswers? {
      RowStaysAtTheEdge(s, a);
      ForgetsAtTheEdge(s, a, t);
    } else {
      ForgetsAtTheCell(s, a, t);
    }
  }

  // ------------------------------------------------------------ over runs

  /** Some step of the run satisfies Recalls. */
  ghost predicate RecallsIn(s: Sys, acts: seq<Action>)
    decreases |acts|
  {
    acts != [] && Enabled(s, acts[0]) && (Recalls(s, acts[0]) || RecallsIn(Next(s, acts[0]), acts[1..]))
  }

  /** Some step of the run forgets, and no later one recalls. */
  ghost predicate ForgottenForGood(s: Sys, acts: seq<Action>)
    decreases |acts|
  {
    && acts != [] && Enabled(s, acts[0])
    && var t := Next(s, acts[0]);
       (Forgets(s, acts[0]) && !RecallsIn(t, acts[1..])) || ForgottenForGood(t, acts[1..])
  }

  lemma StepKeepsTrack(s: Sys, a: Action)
    requires Inv(s) && MeetsChecks(s.row) && ThrottledUncrossed(s) && Enabled(s, a)
    ensures Inv(Next(s, a)) && MeetsChecks(Next(s, a).row) && ThrottledUncrossed(Next(s, a))
  {
    StepKeepsInv(s, a);
    StepKeepsThrottledUncrossed(s, a);
    RowMovesByStatements(s, a);
    if RowStatement(s, a).Some? { StatementsMeetChecks(s.row, RowStatement(s, a).value, s.now); }
  }

  lemma {:induction false} AstrayExactly(s: Sys, acts: seq<Action>, t: Sys)
    requires Inv(s) && MeetsChecks(s.row) && ThrottledUncrossed(s) && Runs(s, acts, t)
    ensures !BoundaryRemembered(t) <==>
              (!BoundaryRemembered(s) && !RecallsIn(s, acts)) || ForgottenForGood(s, acts)
    decreases |acts|
  {
    if acts != [] {
      var a := acts[0];
      BoundaryLostExactlyBy(s, a);
      StepKeepsTrack(s, a);
      AstrayExactly(Next(s, a), acts[1..], t);
    }
  }

  /**
   When a canceled row proves that nothing was accepted: over every run of a fresh message, a canceled
   row's message may have been accepted exactly when some step let the boundary go and none recalled it.
   */
  lemma CanceledIsProofExactly(s: Sys, acts: seq<Action>, t: Sys)
    requires Fresh(s) && Runs(s, acts, t) && t.row.state == Canceled
    ensures MayBeAccepted(t) <==> ForgottenForGood(s, acts)
  {
    FreshIsOk(s);
    RunKeepsInv(s, acts, t);
    RunKeepsContent(s, acts, t);
    AstrayExactly(s, acts, t);
    OpenCallIsLast(t);
  }

  // ------------------------------------------------------------ rejected and failed rows

  /** A reply that the worker takes for the provider's own refusal. */
  predicate SaysRejected(w: Wire, sendId: string) {
    Trusted(w, sendId) && w.body.state.RRejected?
  }

  /** The claim holder settles a delivered reply. */
  predicate SettlesReply(s: Sys, a: Action)
    requires Enabled(s, a)
  {
    a.Settles? && a.delivered && s.row.state == ProviderStarted && Holds(s.row, s.sessions[a.g].f)
  }

  predicate Rejects(s: Sys, a: Action)
    requires Enabled(s, a)
  {
    SettlesReply(s, a) && SaysRejected(s.requests[a.g].stage.reply, s.row.content.id)
  }

  predicate Fails(s: Sys, a: Action)
    requires Enabled(s, a)
  {
    SettlesReply(s, a) && Exhausted(s.row, s.now) && SaysRetry(s.requests[a.g].stage.reply, s.row.content.id)
  }

  /** The settling call a reply leads to, as far as rejecting and failing a row are concerned. */
  lemma RejectionExactlyBy(d: Dispatch, wire: Wire)
    ensures var (r, err) := ClientSend(wire, d.content.id);
            var c := Settlement(d, r, err);
            && (c.CFinalize? && c.state == Rejected <==> SaysRejected(wire, d.content.id))
            && (c.CFinalize? ==> c.f == d.f && c.state != Failed && (c.state == Rejected ==> c.code == ProviderRejected))
  {
  }

  lemma ClosedAsRejectedExactlyBy(r: Row, q: Statement, now: int)
    requires MeetsChecks(r) && !Terminal(r.state)
    ensures After(r, q, now).state == Rejected <==>
              && q.SFinalize? && q.state == Rejected && q.provider != "" && q.code == ProviderRejected
              && r.state == ProviderStarted && Holds(r, q.f)
  {
  }

  lemma ClosedAsFailedExactlyBy(r: Row, q: Statement, now: int)
    requires MeetsChecks(r) && !Terminal(r.state) && (q.SFinalize? ==> q.state != Failed)
    ensures After(r, q, now).state == Failed <==>
              && q.SRetry? && r.state == ProviderStarted && Holds(r, q.f) && q.provider != ""
              && Retryable(q.code) && !Uncertain(q.code) && !q.preserve
              && q.retryAt <= now + 24 * HOUR + 60 * SECOND && Exhausted(r, now)
  {
  }

  lemma SettlingRefuses(s: Sys, a: Action)
    requires Inv(s) && MeetsChecks(s.row) && Enabled(s, a) && a.Settles? && !Terminal(s.row.state)
    ensures var row := After(s.row, StatementOf(SettlingCall(s, a.g, a.delivered, a.err), s.now), s.now);
            (row.state == Rejected <==> Rejects(s, a)) && (row.state == Failed <==> Fails(s, a))
  {
    var w := s.sessions[a.g];
    assert SessionOk(s, a.g, w);
    var d := Dispatch(w.content, w.f);
    var wire := if a.delivered then s.requests[a.g].stage.reply else TransportFailure(a.err);
    var call := SettlingCall(s, a.g, a.delivered, a.err);
    BoundaryGivenUpExactlyOnRetryable(d, wire);
    RetryDelayIsAccepted(d, wire);
    RetryCodes(d, wire);
    RejectionExactlyBy(d, wire);
    ClosedAsRejectedExactlyBy(s.row, StatementOf(call, s.now), s.now);
    ClosedAsFailedExactlyBy(s.row, StatementOf(call, s.now), s.now);
  }

  /** Exactly when a step closes a row as rejected, and when as failed. */
  lemma RefusedExactlyBy(s: Sys, a: Action)
    requires Inv(s) && MeetsChecks(s.row) && ThrottledUncrossed(s) && Enabled(s, a) && !Terminal(s.row.state)
    ensures Next(s, a).row.state == Rejected <==> Rejects(s, a)
    ensures Next(s, a).row.state == Failed <==> Fails(s, a)
  {
    RowMovesByStatements(s, a);
    var q := RowStatement(s, a);
    if a.Settles? {
      SettlingRefuses(s, a);
    } else if q.Some? {
      ClosedAsRejectedExactlyBy(s.row, q.value, s.now);
      ClosedAsFailedExactlyBy(s.row, q.value, s.now);
    }
  }

  predicate RefusedRow(s: Sys) {
    s.row.state == Rejected || s.row.state == Failed
  }

  /** The row says rejected or failed, and a call may have been accepted. */
  predicate Misleading(s: Sys) {
    RefusedRow(s) && OpenCall(s)
  }

  /**
   A step after which a row that says rejected or failed may be wrong: its holder settles a rejection,
   or a Retryable reply without budget, although the last call is open; or an envelope of an earlier
   claim begins a call after the row was closed.
   */
  predicate Misleads(s: Sys, a: Action)
    requires Enabled(s, a)
  {
    || ((Rejects(s, a) || Fails(s, a)) && OpenCall(s))
    || (RefusedRow(s) && BeginsCall(s, a))
  }

  lemma RefusalMovesRow(s: Sys, a: Action)
    requires Inv(s) && MeetsChecks(s.row) && ThrottledUncrossed(s) && Enabled(s, a)
    ensures RefusedRow(Next(s, a)) <==> RefusedRow(s) || Rejects(s, a) || Fails(s, a)
    ensures Rejects(s, a) || Fails(s, a) ==> !RefusedRow(s) && a.Settles?
  {
    if Terminal(s.row.state) {
      RowMovesByStatements(s, a);
      if RowStatement(s, a).Some? { ClosedRowsStayClosed(s.row, RowStatement(s, a).value, s.now); }
    } else {
      RefusedExactlyBy(s, a);
    }
  }

  /** A rejected or failed row comes to mislead by exactly such a step, and stops by exactly one kind of answer. */
  lemma MisledExactlyBy(s: Sys, a: Action)
    requires Inv(s) && MeetsChecks(s.row) && ThrottledUncrossed(s) && Enabled(s, a)
    ensures !Misleading(s) ==> (Misleading(Next(s, a)) <==> Misleads(s, a))
    ensures Misleading(s) ==> (!Misleading(Next(s, a)) <==> Clears(a)) && !Misleads(s, a)
  {
    RefusalMovesRow(s, a);
    OpenCallMoves(s, a);
  }

  predicate ClearsIn(acts: seq<Action>) {
    acts != [] && (Clears(acts[0]) || ClearsIn(acts[1..]))
  }

  /** Some step of the run misleads, and the provider clears it up at no later one. */
  ghost predicate MisledForGood(s: Sys, acts: seq<Action>)
    decreases |acts|
  {
    && acts != [] && Enabled(s, acts[0])
    && ((Misleads(s, acts[0]) && !ClearsIn(acts[1..])) || MisledForGood(Next(s, acts[0]), acts[1..]))
  }

  lemma {:induction false} MisledExactly(s: Sys, acts: seq<Action>, t: Sys)
    requires Inv(s) && MeetsChecks(s.row) && ThrottledUncrossed(s) && Runs(s, acts, t)
    ensures Misleading(t) <==> (Misleading(s) && !ClearsIn(acts)) || MisledForGood(s, acts)
    decreases |acts|
  {
    if acts != [] {
      var a := acts[0];
      MisledExactlyBy(s, a);
      StepKeepsTrack(s, a);
      MisledExactly(Next(s, a), acts[1..], t);
    }
  }

  /**
   When a rejected or failed row proves that nothing was accepted: over every run of a fresh message,
   such a row's message may have been accepted exactly when some step misled and none cleared it up.
   */
  lemma RefusedIsTrueExactly(s: Sys, acts: seq<Action>, t: Sys)
    requires Fresh(s) && Runs(s, acts, t) && (t.row.state == Rejected || t.row.state == Failed)
    ensures MayBeAccepted(t) <==> MisledForGood(s, acts)
  {
    FreshIsOk(s);
    RunKeepsInv(s, acts, t);
    MisledExactly(s, acts, t);
    OpenCallIsLast(t);
  }

  // ------------------------------------------------------------ accepted, delivered and bounced rows

  /** The claim holder settles a success reply that says one of these. */
  predicate SettlesSuccess(s: Sys, a: Action)
    requires Enabled(s, a)
  {
    SettlesReply(s, a) && Success(s.requests[a.g].stage.reply, s.row.content.id)
  }

  predicate Accepts(s: Sys, a: Action)
    requires Enabled(s, a)
  {
    SettlesSuccess(s, a) && var body := s.requests[a.g].stage.reply.body; body.state.RAccepted? || body.state.RQueued?
  }

  predicate Delivers(s: Sys, a: Action)
    requires Enabled(s, a)
  {
    SettlesSuccess(s, a) && s.requests[a.g].stage.reply.body.state.RDelivered?
  }

  predicate Bounces(s: Sys, a: Action)
    requires Enabled(s, a)
  {
    SettlesSuccess(s, a) && s.requests[a.g].stage.reply.body.state.RPermanentBounce?
  }

  /** An open row comes to stand as finalized exactly by its holder's finalization in a shape the store takes. */
  lemma ClosedByFinalizeExactly(r: Row, q: Statement, now: int, st: State)
    requires MeetsChecks(r) && !Terminal(r.state) && (st == Accepted || st == Delivered || st == Bounced)
    ensures After(r, q, now).state == st <==>
              && q.SFinalize? && q.state == st && q.provider != "" && r.state == ProviderStarted && Holds(r, q.f)
              && (if st == Bounced then q.code == RecipientHardBounce else q.messageId != "" && q.code == NoError)
    ensures After(r, q, now).state == st ==>
              After(r, q, now).messageId == q.messageId && After(r, q, now).provider == q.provider
  {
  }

  lemma SettlingFinalizes(s: Sys, a: Action)
    requires Inv(s) && MeetsChecks(s.row) && Enabled(s, a) && a.Settles? && !Terminal(s.row.state)
    ensures var row := After(s.row, StatementOf(SettlingCall(s, a.g, a.delivered, a.err), s.now), s.now);
            && (row.state == Accepted <==> Accepts(s, a))
            && (row.state == Delivered <==> Delivers(s, a))
            && (row.state == Bounced <==> Bounces(s, a))
            && (Accepts(s, a) || Delivers(s, a) ==> row.messageId == s.requests[a.g].stage.reply.body.messageId)
  {
    var w := s.sessions[a.g];
    assert SessionOk(s, a.g, w);
    var d := Dispatch(w.content, w.f);
    var wire := if a.delivered then s.requests[a.g].stage.reply else TransportFailure(a.err);
    var q := StatementOf(SettlingCall(s, a.g, a.delivered, a.err), s.now);
    SettlementKinds(d, wire);
    SettlementExactly(d, wire, if wire.Reply? then wire.body.messageId else "");
    ClosedByFinalizeExactly(s.row, q, s.now, Accepted);
    ClosedByFinalizeExactly(s.row, q, s.now, Delivered);
    ClosedByFinalizeExactly(s.row, q, s.now, Bounced);
  }

  /**
   Exactly when a step closes an open row as accepted, delivered or bounced: its holder settles a
   success reply that says so; the row then carries the reply's message id.
   */
  lemma FinalizedExactlyBy(s: Sys, a: Action)
    requires Inv(s) && MeetsChecks(s.row) && Enabled(s, a) && !Terminal(s.row.state)
    ensures Next(s, a).row.state == Accepted <==> Accepts(s, a)
    ensures Next(s, a).row.state == Delivered <==> Delivers(s, a)
    ensures Next(s, a).row.state == Bounced <==> Bounces(s, a)
    ensures Accepts(s, a) || Delivers(s, a) ==> Next(s, a).row.messageId == s.requests[a.g].stage.reply.body.messageId
  {
    RowMovesByStatements(s, a);
    var q := RowStatement(s, a);
    if a.Settles? {
      SettlingFinalizes(s, a);
    } else if q.Some? {
      ClosedByFinalizeExactly(s.row, q.value, s.now, Accepted);
      ClosedByFinalizeExactly(s.row, q.value, s.now, Delivered);
      ClosedByFinalizeExactly(s.row, q.value, s.now, Bounced);
    }
  }

  // ------------------------------------------------------------ what the receipt tells

  /** The adapter has a call in flight, or closed it with anything but the provider's refusal. */
  predicate ReceiptOpen(r: Receipt) {
    r.phase.InFlight? || (r.phase.Closed? && r.phase.reply.Reply? && !r.phase.reply.body.state.RRejected?)
  }

  /** Whatever the row says: until the receipt may have expired it tells exactly whether the message may have been accepted. */
  lemma ReceiptTellsExactly(s: Sys, acts: seq<Action>, t: Sys)
    requires Fresh(s) && Runs(s, acts, t)
    requires t.receipt.Some? || t.now < s.row.queuedAt + RECEIPT_TTL - 2 * EDGE_SKEW
    ensures MayBeAccepted(t) <==> t.receipt.Some? && ReceiptOpen(t.receipt.value)
  {
    FreshIsOk(s);
    RunKeepsInv(s, acts, t);
    RunKeepsContent(s, acts, t);
    OpenCallIsLast(t);
  }

  // ------------------------------------------------------------ what a replay brings

  /** A replay begins no call: it is answered with what the one call before it came to, unclear while that is open. */
  lemma ReplayRepeatsOutcome(s: Sys, g: nat, edgeNow: int)
    requires Inv(s) && Enabled(s, Arrives(g, edgeNow)) && s.receipt.Some? && !s.receipt.value.phase.Refused?
    ensures var t := Next(s, Arrives(g, edgeNow));
            && t.calls == s.calls && t.receipt == s.receipt && t.row == s.row && t.sessions == s.sessions
            && t.requests[g].stage == Answered(OutcomeReply(s.row.content.id, s.calls[|s.calls| - 1].outcome))
  {
    ReceiptOutlivesWork(s, g, edgeNow);
    assert RequestOk(s, g, s.requests[g]);
    assert Next(s, Arrives(g, edgeNow)) == AtAdapter(s, g, edgeNow);
  }

  /** What the reply to a call's outcome says to the worker. */
  lemma OutcomeReplySays(sendId: string, o: SendOutcome)
    requires o.Pending? || ProviderMayAnswer(o)
    ensures var w := OutcomeReply(sendId, o);
            && Trusted(w, sendId)
            && (Success(w, sendId) <==> o.AcceptedAs?) && (o.AcceptedAs? ==> w.body.state == RAccepted && w.body.messageId == o.messageId)
            && (SaysRejected(w, sendId) <==> o.Declined?) && (SaysRetry(w, sendId) <==> o.Throttled?)
            && (o.Throttled? ==> w.body.retryAfter == if o.daily then 60 * 60 else 60)
  {
  }

  /**
   So an acceptance whose reply was lost is not lost: when the holder's replay arrives and its answer is
   settled, the row is accepted under the id the provider gave in the first place.
   */
  lemma ReplayRecoversAcceptance(s: Sys, g: nat, edgeNow: int, m: string)
    requires Inv(s) && MeetsChecks(s.row) && Enabled(s, Arrives(g, edgeNow)) && s.receipt.Some?
    requires LastAccepted(s, m) && 0 < |m| <= 512
    requires g in s.sessions && s.sessions[g].Waiting? && s.row.state == ProviderStarted && Holds(s.row, s.sessions[g].f)
    ensures var t := Next(s, Arrives(g, edgeNow));
            && Enabled(t, Settles(g, true, NoSendError))
            && Next(t, Settles(g, true, NoSendError)).row.state == Accepted
            && Next(t, Settles(g, true, NoSendError)).row.messageId == m
  {
    var t, a := Next(s, Arrives(g, edgeNow)), Settles(g, true, NoSendError);
    StepKeepsInv(s, Arrives(g, edgeNow));
    ReplayRepeatsOutcome(s, g, edgeNow);
    OutcomeReplySays(s.row.content.id, AcceptedAs(m));
    assert Accepts(t, a);
    FinalizedExactlyBy(t, a);
  }

  // ------------------------------------------------------------ the protocol's worker is the dispatch

  /**
   After its Start a session does what the dispatch does next on that answer: it is over where the trace
   ends, holds the retry of a throttled claim, or holds the Send or the mark. A Start whose answer is lost ends it.
   */
  lemma StartFollowsTrace(s: Sys, g: nat, verdict: Verdict, a: Answers)
    requires Enabled(s, Starting(g, verdict, true)) && a.start == Start(s.row, s.sessions[g].f, verdict, s.now).0
    ensures var t := Next(s, Starting(g, verdict, true));
            var calls := Trace(Dispatch(t.row.content, s.sessions[g].f), a);
            && (g in t.sessions <==> |calls| > 1)
            && (Enabled(t, RetryThrottled(g)) <==> |calls| == 2 && calls[1].CRetry?)
            && (Enabled(t, RefuseEnvelope(g)) <==> |calls| == 2 && calls[1].CMark?)
            && (g in t.sessions && t.sessions[g].Sending? && ValidEnvelope(WireDispatch(t.row.content)) <==> |calls| == 3 && calls[1].CSend?)
    ensures var t := Next(s, Starting(g, verdict, true));
            var calls := Trace(Dispatch(t.row.content, s.sessions[g].f), a);
            && (Enabled(t, RetryThrottled(g)) ==> RowStatement(t, RetryThrottled(g)) == Some(StatementOf(calls[1], t.now)))
            && (Enabled(t, RefuseEnvelope(g)) ==> RowStatement(t, RefuseEnvelope(g)) == Some(StatementOf(calls[1], t.now)))
            && (Enabled(t, Sent(g)) ==> Next(t, Sent(g)).requests[g].envelope == calls[1].envelope)
    ensures g !in Next(s, Starting(g, verdict, false)).sessions
    ensures Next(s, Starting(g, verdict, false)).row == Next(s, Starting(g, verdict, true)).row
  {
  }

  /** And what settles its Send is the trace's last call, on whatever came back. */
  lemma SettlingFollowsTrace(s: Sys, g: nat, delivered: bool, err: SendError, a: Answers)
    requires Inv(s) && Enabled(s, Settles(g, delivered, err)) && MaySend(a.start)
    requires a.wire == if delivered then s.requests[g].stage.reply else TransportFailure(err)
    requires ValidEnvelope(WireDispatch(s.row.content))
    ensures var calls := Trace(Dispatch(s.row.content, s.sessions[g].f), a);
            && |calls| == 3 && calls[2] == SettlingCall(s, g, delivered, err)
            && g !in Next(s, Settles(g, delivered, err)).sessions
  {
    assert SessionOk(s, g, s.sessions[g]);
  }
}
