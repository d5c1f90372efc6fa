/**
 Runs of one message in which a closed row misleads (OutboundConclusions), and one in which it does not.
 All of them send the message, time out and replay it; they differ in what became of the first envelope
 and in what the front door answers to the replay.
 */
module OutboundExamples {
  import opened Prelude
  import opened OutboundStore
  import opened OutboundWorker
  import opened OutboundProtocol
  import opened OutboundConclusions

  // ------------------------------------------------------------ joining runs

  predicate Step(s: Sys, a: Action, t: Sys) {
    Enabled(s, a) && Next(s, a) == t
  }

  lemma RunsTwo(s: Sys, a: Action, m: Sys, b: Action, t: Sys)
    requires Step(s, a, m) && Step(m, b, t)
    ensures Runs(s, [a, b], t)
  {
    assert Runs(t, [], t);
    assert [b][1..] == [];
    assert Runs(m, [b], t);
    assert [a, b][1..] == [b];
  }

  lemma RunsThree(s: Sys, a: Action, s1: Sys, b: Action, s2: Sys, c: Action, t: Sys)
    requires Step(s, a, s1) && Step(s1, b, s2) && Step(s2, c, t)
    ensures Runs(s, [a, b, c], t)
  {
    RunsTwo(s1, b, s2, c, t);
    assert [a, b, c][1..] == [b, c];
  }

  lemma {:induction false} RunsJoin(s: Sys, x: seq<Action>, m: Sys, y: seq<Action>, t: Sys)
    requires Runs(s, x, m) && Runs(m, y, t)
    ensures Runs(s, x + y, t)
    decreases |x|
  {
    if x == [] {
      assert x + y == y;
    } else {
      RunsJoin(Next(s, x[0]), x[1..], m, y, t);
      assert (x + y)[1..] == x[1..] + y;
    }
  }

  /** One step after a run. */
  lemma RunsThen(s: Sys, x: seq<Action>, m: Sys, a: Action, t: Sys)
    requires Runs(s, x, m) && Step(m, a, t)
    ensures Runs(s, x + [a], t)
  {
    assert [a][1..] == [];
    assert Runs(t, [], t);
    RunsJoin(s, x, m, [a], t);
  }

  // ------------------------------------------------------------ the first envelope

  function Letter(): Content {
    Content("s", "a", "r", "g", "f", "y", "t", "u", "x", "", [])
  }

  /** What the adapter knows of the first envelope. */
  datatype EdgeState = EdgeState(stage: Stage, receipt: Option<Receipt>, calls: seq<ProviderCall>)

  function Late(): EdgeState {
    EdgeState(OnWire, None, [])
  }

  /** Its call has begun at this time, and the request, the receipt and the call stand as given. */
  function Begun1(stage: Stage, phase: Phase, o: SendOutcome, at: int): EdgeState {
    EdgeState(stage, Some(Receipt(WireDispatch(Letter()), phase, at + RECEIPT_TTL)),
              [ProviderCall(1, WireDispatch(Letter()), o)])
  }

  function AtWork(at: int): EdgeState {
    Begun1(AtProvider, InFlight(1), Pending, at)
  }

  function Answer(o: SendOutcome, at: int): EdgeState
    requires !o.Pending?
  {
    Begun1(Answered(OutcomeReply("s", o)), PhaseAfter("s", o), o, at)
  }

  function Crashed(): EdgeState {
    Begun1(Lost, InFlight(1), Pending, 0)
  }

  // ------------------------------------------------------------ the states on the way

  function QueuedRow(nextAttempt: int, tries: nat, last: ErrorCode): Row {
    Row(Letter(), 0, Queued, "", "", last, tries, tries, None, None, Some(nextAttempt), None, None, None, None, None, None)
  }

  function HeldRow(state: State, tries: nat, lease: int, started: Option<int>, last: ErrorCode): Row {
    Row(Letter(), 0, state, "", "", last, tries, tries, Some(tries), Some(lease), None, started, None, None, None, None, None)
  }

  function ExampleStart(): Sys {
    Sys(0, QueuedRow(0, 0, NoError), map[], map[], None, [], {})
  }

  /** The message is sent, but the worker has seen no reply. */
  function FirstSent(e: EdgeState): Sys {
    Sys(0, HeldRow(ProviderStarted, 1, LEASE, Some(0), NoError), map[1 := Waiting(Fence(1, 1), Letter())],
        map[1 := Request(WireDispatch(Letter()), 0, e.stage)], e.receipt, e.calls, {1})
  }

  /** The worker timed out and asked for a replay a second later. */
  function TimedOut(e: EdgeState): Sys {
    FirstSent(e).(row := HeldRow(ProviderStarted, 1, SECOND, Some(0), ProviderTimeout), sessions := map[])
  }

  /** The second claim stands past the boundary. */
  function HeldAgain(at: int): Row {
    HeldRow(ProviderStarted, 2, at + LEASE, Some(0), ProviderTimeout)
  }

  function Replaying(e: EdgeState, at: int): Sys {
    TimedOut(e).(now := at, row := HeldAgain(at), sessions := map[2 := Sending(Fence(2, 2), at + BATCH_LIMIT, Letter())],
                 started := {1, 2})
  }

  /** Both envelopes: what became of the first, and of the replay sent at this time. */
  function Both(e: EdgeState, at: int, stage: Stage): map<nat, Request> {
    map[1 := Request(WireDispatch(Letter()), 0, e.stage), 2 := Request(WireDispatch(Letter()), at, stage)]
  }

  function Replayed(e: EdgeState, at: int, stage: Stage): Sys {
    Sys(at, HeldAgain(at), map[2 := Waiting(Fence(2, 2), Letter())], Both(e, at, stage), e.receipt, e.calls, {1, 2})
  }

  /** The replay is settled at this time, and left this row. */
  function SettledTo(e: EdgeState, at: int, reply: Wire, row: Row, now: int): Sys {
    Replayed(e, at, Answered(reply)).(now := now, row := row, sessions := map[])
  }

  // ------------------------------------------------------------ sending, timing out, replaying

  function FirstClaimed(): Sys {
    ExampleStart().(row := HeldRow(Claimed, 1, LEASE, None, NoError), sessions := map[1 := Holding(Fence(1, 1), BATCH_LIMIT)])
  }

  function FirstStarted(): Sys {
    FirstClaimed().(row := HeldRow(ProviderStarted, 1, LEASE, Some(0), NoError),
                    sessions := map[1 := Sending(Fence(1, 1), BATCH_LIMIT, Letter())], started := {1})
  }

  lemma FirstSteps()
    ensures Step(ExampleStart(), Claiming(1), FirstClaimed())
    ensures Step(FirstClaimed(), Starting(1, Clear, true), FirstStarted())
    ensures Step(FirstStarted(), Sent(1), FirstSent(Late()))
  {
  }

  lemma Sends() returns (acts: seq<Action>)
    ensures Runs(ExampleStart(), acts, FirstSent(Late()))
  {
    acts := [Claiming(1), Starting(1, Clear, true), Sent(1)];
    FirstSteps();
    RunsThree(ExampleStart(), Claiming(1), FirstClaimed(), Starting(1, Clear, true), FirstStarted(), Sent(1), FirstSent(Late()));
  }

  /** The first envelope arrives at once, and then this happens to its call. */
  lemma FirstArrives(a: Action, e: EdgeState)
    requires Step(FirstSent(AtWork(0)), a, FirstSent(e))
    ensures Runs(FirstSent(Late()), [Arrives(1, 0), a], FirstSent(e))
  {
    assert AtAdapter(FirstSent(Late()), 1, 0) == FirstSent(AtWork(0));
    RunsTwo(FirstSent(Late()), Arrives(1, 0), FirstSent(AtWork(0)), a, FirstSent(e));
  }

  lemma FirstIsAccepted() returns (acts: seq<Action>)
    ensures Runs(FirstSent(Late()), acts, FirstSent(Answer(AcceptedAs("m"), 0)))
  {
    var a, e := ProviderAnswers(1, AcceptedAs("m")), Answer(AcceptedAs("m"), 0);
    assert Next(FirstSent(AtWork(0)), a) == FirstSent(e);
    FirstArrives(a, e);
    acts := [Arrives(1, 0), a];
  }

  lemma FirstCrashes() returns (acts: seq<Action>)
    ensures Runs(FirstSent(Late()), acts, FirstSent(Crashed()))
  {
    assert Next(FirstSent(AtWork(0)), EdgeCrashes(1)) == FirstSent(Crashed());
    FirstArrives(EdgeCrashes(1), Crashed());
    acts := [Arrives(1, 0), EdgeCrashes(1)];
  }

  lemma TimesOut(e: EdgeState)
    ensures Step(FirstSent(e), Settles(1, false, DeadlineExceeded), TimedOut(e))
  {
    var s, c := FirstSent(e), Settles(1, false, DeadlineExceeded);
    assert SettlingCall(s, 1, false, DeadlineExceeded) == CRetry("s", Fence(1, 1), SECOND, ProviderTimeout, true, true);
    assert Retry(s.row, Fence(1, 1), SECOND, ProviderTimeout, PROVIDER, true, 0) == Ok(TimedOut(e).row);
    assert Next(s, c).sessions == map[];
  }

  lemma ReplaySteps(e: EdgeState, at: int, s1: Sys, s2: Sys)
    requires SECOND <= at < WORK_AGE && s1 == TimedOut(e).(now := at)
    requires s2 == s1.(row := HeldAgain(at), sessions := map[2 := Holding(Fence(2, 2), at + BATCH_LIMIT)])
    ensures Step(s1, Claiming(2), s2) && Step(s2, Starting(2, Clear, true), Replaying(e, at))
  {
  }

  lemma Replays(e: EdgeState, at: int) returns (acts: seq<Action>)
    requires SECOND <= at < WORK_AGE
    ensures Runs(TimedOut(e), acts, Replaying(e, at))
  {
    var s := TimedOut(e);
    var s1 := s.(now := at);
    var s2 := s1.(row := HeldAgain(at), sessions := map[2 := Holding(Fence(2, 2), at + BATCH_LIMIT)]);
    ReplaySteps(e, at, s1, s2);
    RunsThree(s, Tick(at), s1, Claiming(2), s2, Starting(2, Clear, true), Replaying(e, at));
    acts := [Tick(at), Claiming(2), Starting(2, Clear, true)];
  }

  lemma ReplaySends(e: EdgeState, at: int)
    ensures Step(Replaying(e, at), Sent(2), Replayed(e, at, OnWire))
  {
  }

  lemma FrontDoorAnswers(e: EdgeState, at: int, reply: Wire)
    requires FrontDoorReply(reply)
    ensures Step(Replayed(e, at, OnWire), EdgeAnswers(2, reply), Replayed(e, at, Answered(reply)))
  {
  }

  /** After any fate of the first envelope: the replay is sent and answered by the front door, and it is `now`. */
  lemma ReachesReply(first: seq<Action>, e: EdgeState, at: int, reply: Wire, now: int) returns (acts: seq<Action>)
    requires Runs(FirstSent(Late()), first, FirstSent(e)) && SECOND <= at < WORK_AGE && at <= now && FrontDoorReply(reply)
    ensures Runs(ExampleStart(), acts, Replayed(e, at, Answered(reply)).(now := now))
  {
    var sent := Sends();
    RunsJoin(ExampleStart(), sent, FirstSent(Late()), first, FirstSent(e));
    TimesOut(e);
    var timeout := [Settles(1, false, DeadlineExceeded)];
    RunsThen(ExampleStart(), sent + first, FirstSent(e), timeout[0], TimedOut(e));
    var replay := Replays(e, at);
    RunsJoin(ExampleStart(), sent + first + timeout, TimedOut(e), replay, Replaying(e, at));
    ReplaySends(e, at);
    FrontDoorAnswers(e, at, reply);
    var s, t := Replayed(e, at, Answered(reply)), Replayed(e, at, Answered(reply)).(now := now);
    RunsThree(Replaying(e, at), Sent(2), Replayed(e, at, OnWire), EdgeAnswers(2, reply), s, Tick(now - at), t);
    var answer := [Sent(2), EdgeAnswers(2, reply), Tick(now - at)];
    RunsJoin(ExampleStart(), sent + first + timeout + replay, Replaying(e, at), answer, t);
    acts := sent + first + timeout + replay + answer;
  }

  // ------------------------------------------------------------ what the front door may answer

  /** Its own rate limit. */
  function Refusal(): Wire {
    AdapterReply(429, "s", RRetryable, "", "frontdoor_rate_limited", 60)
  }

  /** This account may not send. */
  function Barred(): Wire {
    AdapterReply(403, "s", RRejected, "", "account_not_allowed", 0)
  }

  lemma {:induction false} ContainsAt(before: string, part: string, after: string)
    ensures Contains(before + part + after, part)
    decreases |before|
  {
    var s := before + part + after;
    if before == [] {
      assert s == part + after;
    } else {
      ContainsAt(before[1..], part, after);
      assert s[1..] == before[1..] + part + after;
    }
  }

  lemma RefusalNamesRate()
    ensures Contains(Refusal().body.errorCode, "rate")
  {
    assert "frontdoor_" + "rate" + "_limited" == "frontdoor_rate_limited";
    ContainsAt("frontdoor_", "rate", "_limited");
  }

  lemma RefusalIsRead()
    ensures ClientSend(Refusal(), "s") == (Refusal().body, OtherSendError)
  {
  }

  function RefusalRetry(): Call {
    CRetry("s", Fence(2, 2), 60 * SECOND, ProviderRateLimited, false, true)
  }

  lemma RefusalSettles()
    ensures var (r, e) := ClientSend(Refusal(), "s");
            Settlement(Dispatch(Letter(), Fence(2, 2)), r, e) == RefusalRetry()
  {
    RefusalNamesRate();
    RefusalIsRead();
    assert RetryDelay(60) == 60 * SECOND;
  }

  /** What settling the refusal leaves: the row queued again with its boundary cleared, or out of budget and failed. */
  function RefusalRow(at: int, now: int): Row {
    if now < WORK_AGE then QueuedRow(now + 60 * SECOND, 2, ProviderRateLimited)
    else HeldAgain(at).(state := Failed, provider := PROVIDER, lastError := ProviderRateLimited, claimId := None,
                        leaseExpires := None, failedAt := Some(now))
  }

  function BarredRow(at: int): Row {
    HeldAgain(at).(state := Rejected, provider := PROVIDER, lastError := ProviderRejected, claimId := None,
                   leaseExpires := None, failedAt := Some(at))
  }

  lemma RefusalLeaves(at: int, now: int)
    ensures After(HeldAgain(at), StatementOf(RefusalRetry(), now), now) == RefusalRow(at, now)
  {
  }

  lemma SettlesRefusal(e: EdgeState, at: int, now: int)
    ensures var s, c := Replayed(e, at, Answered(Refusal())).(now := now), Settles(2, true, NoSendError);
            Step(s, c, SettledTo(e, at, Refusal(), RefusalRow(at, now), now))
  {
    var s, c := Replayed(e, at, Answered(Refusal())).(now := now), Settles(2, true, NoSendError);
    assert SettlingCall(s, 2, true, NoSendError) == RefusalRetry() by { RefusalSettles(); }
    RefusalLeaves(at, now);
    assert Next(s, c) == Closing(s, StatementOf(RefusalRetry(), now), 2);
    assert s.sessions - {2} == map[];
  }

  lemma BarredSettles(e: EdgeState, at: int)
    ensures var s := Replayed(e, at, Answered(Barred()));
            SettlingCall(s, 2, true, NoSendError) == CFinalize("s", Fence(2, 2), Rejected, "", ProviderRejected, true)
  {
  }

  lemma BarredLeaves(at: int)
    ensures After(HeldAgain(at), SFinalize(Fence(2, 2), Rejected, PROVIDER, "", ProviderRejected), at) == BarredRow(at)
  {
  }

  lemma SettlesBarred(e: EdgeState, at: int)
    ensures var s, c := Replayed(e, at, Answered(Barred())), Settles(2, true, NoSendError);
            Step(s, c, SettledTo(e, at, Barred(), BarredRow(at), at))
  {
    var s, c := Replayed(e, at, Answered(Barred())), Settles(2, true, NoSendError);
    BarredSettles(e, at);
    BarredLeaves(at);
    assert Next(s, c) == Closing(s, SFinalize(Fence(2, 2), Rejected, PROVIDER, "", ProviderRejected), 2);
    assert s.sessions - {2} == map[];
  }

  /** The reply is settled at `now`. */
  lemma ReachesSettled(first: seq<Action>, e: EdgeState, at: int, reply: Wire, now: int, row: Row)
    returns (acts: seq<Action>)
    requires Runs(FirstSent(Late()), first, FirstSent(e)) && SECOND <= at < WORK_AGE && at <= now && FrontDoorReply(reply)
    requires var s, c := Replayed(e, at, Answered(reply)).(now := now), Settles(2, true, NoSendError);
             Step(s, c, SettledTo(e, at, reply, row, now))
    ensures Runs(ExampleStart(), acts, SettledTo(e, at, reply, row, now))
  {
    var replied := ReachesReply(first, e, at, reply, now);
    var s, c := Replayed(e, at, Answered(reply)).(now := now), Settles(2, true, NoSendError);
    RunsThen(ExampleStart(), replied, s, c, SettledTo(e, at, reply, row, now));
    acts := replied + [c];
  }

  lemma ReachesRefused(first: seq<Action>, e: EdgeState, at: int, now: int) returns (acts: seq<Action>)
    requires Runs(FirstSent(Late()), first, FirstSent(e)) && SECOND <= at < WORK_AGE && at <= now
    ensures Runs(ExampleStart(), acts, SettledTo(e, at, Refusal(), RefusalRow(at, now), now))
  {
    SettlesRefusal(e, at, now);
    acts := ReachesSettled(first, e, at, Refusal(), now, RefusalRow(at, now));
  }

  lemma ReachesBarred(first: seq<Action>, e: EdgeState) returns (acts: seq<Action>)
    requires Runs(FirstSent(Late()), first, FirstSent(e))
    ensures Runs(ExampleStart(), acts, SettledTo(e, SECOND, Barred(), BarredRow(SECOND), SECOND))
  {
    SettlesBarred(e, SECOND);
    acts := ReachesSettled(first, e, SECOND, Barred(), SECOND, BarredRow(SECOND));
  }

  /** A minute after its boundary was cleared the message is claimed a third time, and policy denies it. */
  function DeniedEnd(e: EdgeState): Sys {
    var s := SettledTo(e, SECOND, Refusal(), RefusalRow(SECOND, SECOND), 61 * SECOND);
    s.(row := CanceledClaim(HeldRow(Claimed, 3, 61 * SECOND + LEASE, None, ProviderRateLimited), 61 * SECOND))
  }

  lemma Cancels(e: EdgeState) returns (acts: seq<Action>)
    ensures Runs(SettledTo(e, SECOND, Refusal(), RefusalRow(SECOND, SECOND), SECOND), acts, DeniedEnd(e))
  {
    var s := SettledTo(e, SECOND, Refusal(), RefusalRow(SECOND, SECOND), SECOND);
    var s1 := s.(now := 61 * SECOND);
    var s2 := s1.(row := HeldRow(Claimed, 3, 61 * SECOND + LEASE, None, ProviderRateLimited),
                  sessions := map[3 := Holding(Fence(3, 3), 61 * SECOND + BATCH_LIMIT)]);
    assert Next(s1, Claiming(3)) == s2;
    assert Next(s2, Starting(3, Denied, true)) == DeniedEnd(e);
    RunsThree(s, Tick(60 * SECOND), s1, Claiming(3), s2, Starting(3, Denied, true), DeniedEnd(e));
    acts := [Tick(60 * SECOND), Claiming(3), Starting(3, Denied, true)];
  }

  /** The first envelope arrives only after the replay was settled. */
  lemma ArrivesLate(reply: Wire, row: Row)
    ensures var s, a := SettledTo(Late(), SECOND, reply, row, SECOND), Arrives(1, SECOND);
            && Step(s, a, SettledTo(AtWork(SECOND), SECOND, reply, row, SECOND)) && BeginsCall(s, a)
            && (row.providerStartedAt.None? ==> Forgets(s, a))
  {
    var s := SettledTo(Late(), SECOND, reply, row, SECOND);
    assert AtAdapter(s, 1, SECOND) == Begun(s, 1, SECOND + RECEIPT_TTL);
    assert Both(Late(), SECOND, Answered(reply))[1 := Request(WireDispatch(Letter()), 0, AtProvider)]
        == Both(AtWork(SECOND), SECOND, Answered(reply));
  }

  lemma AnsweredLate(reply: Wire, row: Row, o: SendOutcome)
    requires ProviderMayAnswer(o)
    ensures Step(SettledTo(AtWork(SECOND), SECOND, reply, row, SECOND), ProviderAnswers(1, o),
                 SettledTo(Answer(o, SECOND), SECOND, reply, row, SECOND))
  {
    assert Both(AtWork(SECOND), SECOND, Answered(reply))[1 := Request(WireDispatch(Letter()), 0, Answered(OutcomeReply("s", o)))]
        == Both(Answer(o, SECOND), SECOND, Answered(reply));
  }

  // ------------------------------------------------------------ the runs

  lemma FreshExample()
    ensures Fresh(ExampleStart())
  {
  }

  lemma AcceptanceSettles()
    ensures var s, c := FirstSent(Answer(AcceptedAs("m"), 0)), Settles(1, true, NoSendError);
            && Enabled(s, c) && Next(s, c).row.state == Accepted && Next(s, c).row.messageId == "m"
            && Next(s, c).calls == s.calls
  {
    var s, c := FirstSent(Answer(AcceptedAs("m"), 0)), Settles(1, true, NoSendError);
    assert SettlingCall(s, 1, true, NoSendError) == CFinalize("s", Fence(1, 1), Accepted, "m", NoError, true);
    assert Next(s, c) == Closing(s, SFinalize(Fence(1, 1), Accepted, PROVIDER, "m", NoError), 1);
  }

  /** The plain course: sent, accepted by the provider, and finalized as accepted under its message id. */
  lemma AcceptedMessageIsAccepted() returns (acts: seq<Action>, t: Sys)
    ensures Fresh(ExampleStart()) && Runs(ExampleStart(), acts, t)
    ensures t.row.state == Accepted && t.row.messageId == "m" && LastAccepted(t, "m")
  {
    FreshExample();
    var sent := Sends();
    var first := FirstIsAccepted();
    var s, c := FirstSent(Answer(AcceptedAs("m"), 0)), Settles(1, true, NoSendError);
    RunsJoin(ExampleStart(), sent, FirstSent(Late()), first, s);
    AcceptanceSettles();
    t := Next(s, c);
    RunsThen(ExampleStart(), sent + first, s, c, t);
    acts := sent + first + [c];
  }

  /**
   A canceled row is not proof that nothing was sent: after a lost acceptance the front door answers
   the replay with its own rate limit, the boundary is cleared, and the next claim is denied by policy.
   */
  lemma CanceledMayHaveBeenAccepted() returns (acts: seq<Action>, t: Sys)
    ensures Fresh(ExampleStart()) && Runs(ExampleStart(), acts, t)
    ensures t.row.state == Canceled && t.row.providerStartedAt.None? && LastAccepted(t, "m")
  {
    FreshExample();
    var e := Answer(AcceptedAs("m"), 0);
    var first := FirstIsAccepted();
    var cleared := ReachesRefused(first, e, SECOND, SECOND);
    var rest := Cancels(e);
    t := DeniedEnd(e);
    RunsJoin(ExampleStart(), cleared, SettledTo(e, SECOND, Refusal(), RefusalRow(SECOND, SECOND), SECOND), rest, t);
    acts := cleared + rest;
  }

  /** A rejected row is not proof either: after a lost acceptance the front door may bar the replay. */
  lemma RejectedMayHaveBeenAccepted() returns (acts: seq<Action>, t: Sys)
    ensures Fresh(ExampleStart()) && Runs(ExampleStart(), acts, t)
    ensures t.row.state == Rejected && LastAccepted(t, "m")
  {
    FreshExample();
    var first := FirstIsAccepted();
    acts := ReachesBarred(first, Answer(AcceptedAs("m"), 0));
    t := SettledTo(Answer(AcceptedAs("m"), 0), SECOND, Barred(), BarredRow(SECOND), SECOND);
  }

  /** Nor when the adapter crashed during the call: no acceptance is on record, and none is ruled out. */
  lemma RejectedMayBeUnknown() returns (acts: seq<Action>, t: Sys)
    ensures Fresh(ExampleStart()) && Runs(ExampleStart(), acts, t)
    ensures t.row.state == Rejected && |t.calls| == 1 && t.calls[0].outcome.Pending?
    ensures t.receipt.Some? && t.receipt.value.phase.InFlight?
  {
    FreshExample();
    var first := FirstCrashes();
    acts := ReachesBarred(first, Crashed());
    t := SettledTo(Crashed(), SECOND, Barred(), BarredRow(SECOND), SECOND);
  }

  /** A rejected message may even be sent after its row was closed: the first envelope comes late. */
  lemma RejectedMayBeAcceptedLater() returns (before: seq<Action>, s: Sys, after: seq<Action>, t: Sys)
    ensures Fresh(ExampleStart()) && Runs(ExampleStart(), before, s) && Runs(s, after, t)
    ensures s.row.state == t.row.state == Rejected && s.calls == [] && LastAccepted(t, "m")
  {
    FreshExample();
    assert Runs(FirstSent(Late()), [], FirstSent(Late()));
    before := ReachesBarred([], Late());
    s := SettledTo(Late(), SECOND, Barred(), BarredRow(SECOND), SECOND);
    var m := SettledTo(AtWork(SECOND), SECOND, Barred(), BarredRow(SECOND), SECOND);
    t := SettledTo(Answer(AcceptedAs("m"), SECOND), SECOND, Barred(), BarredRow(SECOND), SECOND);
    ArrivesLate(Barred(), BarredRow(SECOND));
    AnsweredLate(Barred(), BarredRow(SECOND), AcceptedAs("m"));
    RunsTwo(s, Arrives(1, SECOND), m, ProviderAnswers(1, AcceptedAs("m")), t);
    after := [Arrives(1, SECOND), ProviderAnswers(1, AcceptedAs("m"))];
  }

  /** A failed row is no proof either: the front door's rate limit meets a row whose work age is over. */
  lemma FailedMayHaveBeenAccepted() returns (acts: seq<Action>, t: Sys)
    ensures Fresh(ExampleStart()) && Runs(ExampleStart(), acts, t)
    ensures t.row.state == Failed && LastAccepted(t, "m")
  {
    FreshExample();
    var e, at := Answer(AcceptedAs("m"), 0), WORK_AGE - SECOND;
    var first := FirstIsAccepted();
    acts := ReachesRefused(first, e, at, WORK_AGE);
    t := SettledTo(e, at, Refusal(), RefusalRow(at, WORK_AGE), WORK_AGE);
  }

  /** The boundary is cleared while the first envelope is still on its way. */
  function ClearedEarly(e: EdgeState): Sys {
    SettledTo(e, SECOND, Refusal(), RefusalRow(SECOND, SECOND), SECOND)
  }

  lemma ThrottledThenCanceled() returns (acts: seq<Action>)
    ensures Runs(ClearedEarly(AtWork(SECOND)), acts, DeniedEnd(Answer(Throttled(false), SECOND)))
  {
    var s, e := ClearedEarly(AtWork(SECOND)), Answer(Throttled(false), SECOND);
    AnsweredLate(Refusal(), RefusalRow(SECOND, SECOND), Throttled(false));
    RunsThen(s, [], s, ProviderAnswers(1, Throttled(false)), ClearedEarly(e));
    var rest := Cancels(e);
    acts := [] + [ProviderAnswers(1, Throttled(false))] + rest;
    RunsJoin(s, [] + [ProviderAnswers(1, Throttled(false))], ClearedEarly(e), rest, DeniedEnd(e));
  }

  /**
   Forgetting once is not enough: in this run a late envelope begins a call after the boundary was
   cleared, the call turns out to be throttled, and the canceled row tells the truth.
   */
  lemma ForgottenMayBeRecalled() returns (before: seq<Action>, s: Sys, a: Action, after: seq<Action>, t: Sys)
    ensures Fresh(ExampleStart()) && Runs(ExampleStart(), before, s)
    ensures Enabled(s, a) && Forgets(s, a) && Runs(Next(s, a), after, t)
    ensures t.row.state == Canceled && !MayBeAccepted(t)
  {
    FreshExample();
    assert Runs(FirstSent(Late()), [], FirstSent(Late()));
    before := ReachesRefused([], Late(), SECOND, SECOND);
    ArrivesLate(Refusal(), RefusalRow(SECOND, SECOND));
    after := ThrottledThenCanceled();
    s, a, t := ClearedEarly(Late()), Arrives(1, SECOND), DeniedEnd(Answer(Throttled(false), SECOND));
  }
}
