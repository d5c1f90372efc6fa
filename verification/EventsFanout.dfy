/**
 What the watcher polls: each cell's page of its newest events (internal/store/events.go), merged and
 capped by the control plane (infra/cloudflare/control-plane/src/index.js), and when an event falls
 between the pages.
 */
module EventsFanout {
  import opened Prelude
  import opened EventTail
  import opened EventsWatch

  const SECOND := 1_000_000_000
  /** The control plane orders the merge by the parsed date, which has milliseconds. */
  const MILLI := 1_000_000
  const MERGED_CAP := 500

  function Millis(at: int): int { at / MILLI }

  // ------------------------------------------------------------ one cell's page

  /** The page order: newest first, then the greater id. */
  predicate Ahead(x: Event, e: Event) {
    x.at > e.at || (x.at == e.at && Below(e.id, x.id))
  }

  /** What the query selects of one cell, before its limit. */
  function Selected(ledger: set<Event>, cell: string, since: Option<int>): set<Event> {
    set e | e in ledger && e.cell == cell && (since.Some? ==> e.at >= since.value)
  }

  function AheadOf(events: set<Event>, e: Event): set<Event> {
    set x | x in events && Ahead(x, e)
  }

  /** The page: the selected events with fewer than `limit` ahead of them. */
  function Page(ledger: set<Event>, cell: string, since: Option<int>, limit: nat): set<Event> {
    var all := Selected(ledger, cell, since);
    set e | e in all && |AheadOf(all, e)| < limit
  }

  lemma AheadIsStrict(a: Event, b: Event, c: Event)
    ensures !Ahead(a, a)
    ensures Ahead(a, b) && Ahead(b, c) ==> Ahead(a, c)
  {
    BelowIsStrict(a.id, a.id);
    if Below(c.id, b.id) && Below(b.id, a.id) { BelowTransitive(c.id, b.id, a.id); }
  }

  lemma FewerAhead(events: set<Event>, x: Event, e: Event)
    requires x in events && Ahead(x, e)
    ensures AheadOf(events, x) < AheadOf(events, e)
    ensures |AheadOf(events, x)| < |AheadOf(events, e)|
  {
    forall y | y in AheadOf(events, x) ensures y in AheadOf(events, e) {
      AheadIsStrict(y, x, e);
    }
    AheadIsStrict(x, x, x);
    assert x in AheadOf(events, e) && x !in AheadOf(events, x);
    SmallerSet(AheadOf(events, x), AheadOf(events, e));
  }

  lemma SmallerSet(a: set<Event>, b: set<Event>)
    requires a < b
    ensures |a| < |b|
  {
    var rest := b - a;
    assert b == a + rest && rest != {};
  }

  /** Some event at the top of the list is at least as new. */
  lemma {:induction false} TopOfList(events: set<Event>, e: Event) returns (top: Event)
    requires e in events
    ensures top in events && AheadOf(events, top) == {} && top.at >= e.at
    decreases |AheadOf(events, e)|
  {
    if AheadOf(events, e) == {} {
      top := e;
    } else {
      var x :| x in AheadOf(events, e);
      FewerAhead(events, x, e);
      top := TopOfList(events, x);
    }
  }

  /** An event is off the page only when the page is full. */
  lemma {:induction false} OffPageMeansFull(events: set<Event>, e: Event, limit: nat, page: set<Event>)
    requires e in events && |AheadOf(events, e)| >= limit
    requires page == set x | x in events && |AheadOf(events, x)| < limit
    ensures |page| >= limit
    decreases |AheadOf(events, e)|
  {
    if x :| x in AheadOf(events, e) && |AheadOf(events, x)| >= limit {
      FewerAhead(events, x, e);
      OffPageMeansFull(events, x, limit, page);
    } else {
      assert AheadOf(events, e) <= page;
      var rest := page - AheadOf(events, e);
      assert page == AheadOf(events, e) + rest;
    }
  }

  // ------------------------------------------------------------ the merged answer

  predicate CellOk(poll: Poll, name: string)
    requires poll.Answer?
  {
    exists c :: c in poll.cells && c.name == name && c.status == "ok"
  }

  predicate Listed(poll: Poll, name: string)
    requires poll.Answer?
  {
    exists c :: c in poll.cells && c.name == name
  }

  /** On the page of a cell that answered. */
  predicate Returned(ledger: set<Event>, since: Option<int>, limit: nat, poll: Poll, e: Event)
    requires poll.Answer?
  {
    CellOk(poll, e.cell) && e in Page(ledger, e.cell, since, limit)
  }

  /** The merge holds what the pages held; the cap keeps its newest events, by the millisecond, and says so. */
  ghost predicate Faithful(ledger: set<Event>, since: Option<int>, limit: nat, poll: Poll) {
    poll.Answer? ==>
      && (forall e :: e in ledger ==> Listed(poll, e.cell))
      && (forall e :: e in poll.events ==> Returned(ledger, since, limit, poll, e))
      && (forall c :: c in poll.cells && c.status == "ok" ==> c.count == |Page(ledger, c.name, since, limit)|)
      && (!poll.capped ==> forall e :: e in ledger && Returned(ledger, since, limit, poll, e) ==> e in poll.events)
      && (poll.capped ==>
            && |poll.events| == MERGED_CAP
            && forall e, x :: e in ledger && Returned(ledger, since, limit, poll, e) && e !in poll.events && x in poll.events ==>
                 Millis(x.at) >= Millis(e.at))
  }

  /** The Since of a tick: none at first, then the mark, cut to whole seconds. */
  function SinceOf(w: Watch): Option<int> {
    if w.first then None else Some(w.hwm - w.hwm % SECOND)
  }

  ghost predicate FaithfulStep(g: World, s: Step, limit: nat) {
    Faithful(g.ledger + s.arrived, SinceOf(g.watch), limit, s.poll)
  }

  ghost predicate FaithfulRun(g: World, steps: seq<Step>, limit: nat)
    decreases |steps|
  {
    steps != [] ==> FaithfulStep(g, steps[0], limit) && FaithfulRun(StepWorld(g, steps[0]), steps[1..], limit)
  }

  // ------------------------------------------------------------ what an advancing tick passes over

  /** Its cell holds at least `limit` newer events. */
  predicate Outranked(ledger: set<Event>, limit: nat, e: Event) {
    |AheadOf(Selected(ledger, e.cell, None), e)| >= limit
  }

  /**
   An event past the mark, never printed, that its own cell's page leaves out; under the declared cap,
   one that the answer leaves out and that is not newer than all it holds.
   */
  ghost predicate PassesOver(g: World, s: Step, limit: nat, e: Event) {
    && Advances(g.watch, s.poll)
    && e in g.ledger + s.arrived && e.at > g.watch.hwm && e !in g.watch.emitted
    && if s.poll.capped then e !in s.poll.events && e.at <= Newest(s.poll.events, g.watch.hwm)
       else Outranked(g.ledger + s.arrived, limit, e)
  }

  /** Since does not matter to an event past the mark: whatever is newer is selected with it. */
  lemma SinceIsImmaterial(ledger: set<Event>, w: Watch, e: Event)
    requires !w.first && e in ledger && e.at > w.hwm
    ensures e in Selected(ledger, e.cell, SinceOf(w))
    ensures AheadOf(Selected(ledger, e.cell, SinceOf(w)), e) == AheadOf(Selected(ledger, e.cell, None), e)
  {
  }

  lemma ReturnedExactly(g: World, s: Step, limit: nat, e: Event)
    requires FaithfulStep(g, s, limit) && Advances(g.watch, s.poll)
    requires e in g.ledger + s.arrived && e.at > g.watch.hwm
    ensures Returned(g.ledger + s.arrived, SinceOf(g.watch), limit, s.poll, e) <==> !Outranked(g.ledger + s.arrived, limit, e)
  {
    SinceIsImmaterial(g.ledger + s.arrived, g.watch, e);
    assert Listed(s.poll, e.cell);
  }

  /** Some event on the pages is as new as any one past the mark. */
  lemma ReturnedTop(g: World, s: Step, limit: nat, e: Event) returns (top: Event)
    requires limit >= 1 && FaithfulStep(g, s, limit) && Advances(g.watch, s.poll)
    requires e in g.ledger + s.arrived && e.at > g.watch.hwm
    ensures top in g.ledger + s.arrived && top.at >= e.at
    ensures Returned(g.ledger + s.arrived, SinceOf(g.watch), limit, s.poll, top)
  {
    var ledger, since := g.ledger + s.arrived, SinceOf(g.watch);
    SinceIsImmaterial(ledger, g.watch, e);
    top := TopOfList(Selected(ledger, e.cell, since), e);
    assert Listed(s.poll, e.cell);
    assert top in Page(ledger, e.cell, since, limit);
  }

  /** The mark passes every event past it that an answer without a cap left out: something as new is in it. */
  lemma LeftOutIsPassed(g: World, s: Step, limit: nat, e: Event)
    requires limit >= 1 && FaithfulStep(g, s, limit) && Advances(g.watch, s.poll) && !s.poll.capped
    requires e in g.ledger + s.arrived && e.at > g.watch.hwm && e !in s.poll.events
    ensures e.at <= Newest(s.poll.events, g.watch.hwm)
  {
    var top := ReturnedTop(g, s, limit, e);
    NewestIsMaximum(s.poll.events, g.watch.hwm);
  }

  lemma MillisMonotone(a: int, b: int)
    requires a <= b
    ensures Millis(a) <= Millis(b)
  {
  }

  lemma CutIsOlder(ledger: set<Event>, since: Option<int>, limit: nat, poll: Poll, e: Event, x: Event)
    requires Faithful(ledger, since, limit, poll) && poll.Answer? && poll.capped
    requires e in ledger && Returned(ledger, since, limit, poll, e) && e !in poll.events && x in poll.events
    ensures Millis(e.at) <= Millis(x.at)
  {
  }

  /** Under the cap the mark may stay behind an event it cut, but only within that event's millisecond. */
  lemma CutIsPassedToTheMillisecond(g: World, s: Step, limit: nat, e: Event)
    requires limit >= 1 && FaithfulStep(g, s, limit) && Advances(g.watch, s.poll) && s.poll.capped
    requires e in g.ledger + s.arrived && e.at > g.watch.hwm && e !in s.poll.events
    ensures Millis(e.at) <= Millis(Newest(s.poll.events, g.watch.hwm))
  {
    var top := ReturnedTop(g, s, limit, e);
    NewestIsMaximum(s.poll.events, g.watch.hwm);
    MillisMonotone(e.at, top.at);
    if top in s.poll.events {
      MillisMonotone(top.at, Newest(s.poll.events, g.watch.hwm));
    } else {
      var x := s.poll.events[0];
      CutIsOlder(g.ledger + s.arrived, SinceOf(g.watch), limit, s.poll, top, x);
      MillisMonotone(x.at, Newest(s.poll.events, g.watch.hwm));
    }
  }

  /**
   An advancing tick loses exactly the unprinted events past the mark that are outranked in their own
   cell; under a cap it declares, those left out of its answer and not newer than all of it.
   */
  lemma SkipsExactly(g: World, s: Step, limit: nat, e: Event)
    requires limit >= 1 && FaithfulStep(g, s, limit)
    ensures Skips(g, s, e) <==> PassesOver(g, s, limit, e)
  {
    if Advances(g.watch, s.poll) && e in g.ledger + s.arrived && e.at > g.watch.hwm {
      ReturnedExactly(g, s, limit, e);
      if e !in s.poll.events && !s.poll.capped { LeftOutIsPassed(g, s, limit, e); }
    }
  }

  ghost predicate PassesOverInRun(g: World, steps: seq<Step>, limit: nat, e: Event)
    decreases |steps|
  {
    steps != [] && (PassesOver(g, steps[0], limit, e) || PassesOverInRun(StepWorld(g, steps[0]), steps[1..], limit, e))
  }

  lemma {:induction false} RunSkipsExactly(g: World, steps: seq<Step>, limit: nat, e: Event)
    requires limit >= 1 && FaithfulRun(g, steps, limit)
    ensures SkipsInRun(g, steps, e) <==> PassesOverInRun(g, steps, limit, e)
    decreases |steps|
  {
    if steps != [] {
      SkipsExactly(g, steps[0], limit, e);
      RunSkipsExactly(StepWorld(g, steps[0]), steps[1..], limit, e);
    }
  }

  /** Over every run from the start, an event is lost exactly when some advancing tick passes over it. */
  lemma LostExactlyByPages(steps: seq<Step>, limit: nat, e: Event)
    requires limit >= 1 && PossibleRun(BEGIN, steps) && FaithfulRun(BEGIN, steps, limit)
    ensures Lost(Run(BEGIN, steps), e) <==> PassesOverInRun(BEGIN, steps, limit, e)
  {
    RunLosesExactlySkipped(BEGIN, steps, e);
    RunSkipsExactly(BEGIN, steps, limit, e);
  }

  // ------------------------------------------------------------ silent gaps

  /** Some advancing tick finds the event past the mark, unprinted and outranked in its own cell. */
  ghost predicate OutrankedInRun(g: World, steps: seq<Step>, limit: nat, e: Event)
    decreases |steps|
  {
    steps != []
    && (|| (PassesOver(g, steps[0], limit, e) && Outranked(g.ledger + steps[0].arrived, limit, e))
        || OutrankedInRun(StepWorld(g, steps[0]), steps[1..], limit, e))
  }

  lemma {:induction false} WarningsOnlyGrow(g: World, steps: seq<Step>)
    ensures g.watch.gapWarnings <= Run(g, steps).watch.gapWarnings
    decreases |steps|
  {
    if steps != [] { WarningsOnlyGrow(StepWorld(g, steps[0]), steps[1..]); }
  }

  lemma {:induction false} UnwarnedIsOutranked(g: World, steps: seq<Step>, limit: nat, e: Event)
    requires Run(g, steps).watch.gapWarnings == g.watch.gapWarnings
    ensures PassesOverInRun(g, steps, limit, e) <==> OutrankedInRun(g, steps, limit, e)
    decreases |steps|
  {
    if steps != [] {
      WarningsOnlyGrow(StepWorld(g, steps[0]), steps[1..]);
      UnwarnedIsOutranked(StepWorld(g, steps[0]), steps[1..], limit, e);
    }
  }

  /**
   A run that never warned of a gap has lost an event exactly when, at some advancing tick, that
   event's cell held at least `limit` newer events: the full page the warning does not cover.
   */
  lemma SilentGapExactly(steps: seq<Step>, limit: nat, e: Event)
    requires limit >= 1 && PossibleRun(BEGIN, steps) && FaithfulRun(BEGIN, steps, limit)
    requires Run(BEGIN, steps).watch.gapWarnings == 0
    ensures Lost(Run(BEGIN, steps), e) <==> OutrankedInRun(BEGIN, steps, limit, e)
  {
    LostExactlyByPages(steps, limit, e);
    UnwarnedIsOutranked(BEGIN, steps, limit, e);
  }

  // ------------------------------------------------------------ what the watcher can see

  /** No cell filled its page and the merged answer was not cut. */
  predicate Uncut(poll: Poll, limit: nat) {
    poll.Answer? ==> !poll.capped && forall c :: c in poll.cells ==> c.count < limit
  }

  ghost predicate UncutRun(g: World, steps: seq<Step>, limit: nat)
    decreases |steps|
  {
    steps != [] ==>
      && (Advances(g.watch, steps[0].poll) ==> Uncut(steps[0].poll, limit))
      && UncutRun(StepWorld(g, steps[0]), steps[1..], limit)
  }

  lemma UncutSkipsNothing(g: World, s: Step, limit: nat, e: Event)
    requires FaithfulStep(g, s, limit)
    requires Advances(g.watch, s.poll) ==> Uncut(s.poll, limit)
    ensures !Skips(g, s, e)
  {
    if Advances(g.watch, s.poll) && e in g.ledger + s.arrived && e.at > g.watch.hwm {
      var ledger, since := g.ledger + s.arrived, SinceOf(g.watch);
      var all := Selected(ledger, e.cell, since);
      SinceIsImmaterial(ledger, g.watch, e);
      assert Listed(s.poll, e.cell);
      if |AheadOf(all, e)| >= limit { OffPageMeansFull(all, e, limit, Page(ledger, e.cell, since, limit)); }
      assert Returned(ledger, since, limit, s.poll, e);
    }
  }

  lemma {:induction false} UncutRunSkipsNothing(g: World, steps: seq<Step>, limit: nat, e: Event)
    requires FaithfulRun(g, steps, limit) && UncutRun(g, steps, limit)
    ensures !SkipsInRun(g, steps, e)
    decreases |steps|
  {
    if steps != [] {
      UncutSkipsNothing(g, steps[0], limit, e);
      UncutRunSkipsNothing(StepWorld(g, steps[0]), steps[1..], limit, e);
    }
  }

  /** With pages that are never full, what was printed of (baseline, mark] is exactly what was there in time. */
  lemma NothingMissed(steps: seq<Step>, limit: nat, e: Event)
    requires PossibleRun(BEGIN, steps) && FaithfulRun(BEGIN, steps, limit) && UncutRun(BEGIN, steps, limit)
    ensures var g := Run(BEGIN, steps);
            !g.watch.first && e in g.ledger && g.baseline < e.at <= g.watch.hwm ==>
              (e in g.watch.emitted <==> e !in g.late)
  {
    RunLosesExactlySkipped(BEGIN, steps, e);
    UncutRunSkipsNothing(BEGIN, steps, limit, e);
  }

  /**
   Watch and tail together: whatever was printed twice, the dashboard's tail holds each id once, and
   while nothing has rolled off it holds every event of (baseline, mark] that was there in time.
   */
  lemma TailShowsEveryEventOnce(steps: seq<Step>, limit: nat, e: Event)
    requires PossibleRun(BEGIN, steps) && FaithfulRun(BEGIN, steps, limit) && UncutRun(BEGIN, steps, limit)
    ensures var g := Run(BEGIN, steps);
            && DistinctIds(Fed([], g.watch.emitted))
            && ((!g.watch.first && e in g.ledger && g.baseline < e.at <= g.watch.hwm && e !in g.late
                 && |FirstSeen([], g.watch.emitted)| <= CAP) ==>
                  HasId(Fed([], g.watch.emitted), e.id))
  {
    var stream := Run(BEGIN, steps).watch.emitted;
    NothingMissed(steps, limit, e);
    TailStaysDistinct([], stream);
    if e in stream && |FirstSeen([], stream)| <= CAP {
      FirstSeenCovers([], stream, e);
      TailIsFirstSeen([], stream);
    }
  }

  // ------------------------------------------------------------ the failing run

  function OlderOne(): Event { Event("a", 11, "c1", "") }

  function NewerOne(): Event { Event("b", 12, "c1", "") }

  lemma PageOfOne(since: Option<int>)
    requires since.Some? ==> since.value <= 11
    ensures Page({OlderOne(), NewerOne()}, "c1", since, 1) == {NewerOne()}
  {
    var all := Selected({OlderOne(), NewerOne()}, "c1", since);
    assert all == {OlderOne(), NewerOne()};
    assert AheadOf(all, OlderOne()) == {NewerOne()};
    assert AheadOf(all, NewerOne()) == {} by { AheadIsStrict(NewerOne(), NewerOne(), NewerOne()); }
  }

  /**
   The cap warning does not cover a cell that fills its own page: a run of two ticks, every cell ok,
   nothing capped and no warning, loses an event.
   */
  lemma FullPageLosesSilently() returns (steps: seq<Step>, e: Event)
    ensures PossibleRun(BEGIN, steps) && FaithfulRun(BEGIN, steps, 1) && Lost(Run(BEGIN, steps), e)
    ensures Run(BEGIN, steps).watch.gapWarnings == 0
    ensures forall i :: 0 <= i < |steps| && steps[i].poll.Answer? ==> AllOk(steps[i].poll.cells) && !steps[i].poll.capped
  {
    var newer := NewerOne();
    var s0 := Step({}, Answer([], [Cell("c1", "ok", 0)], false), 10);
    var s1 := Step({OlderOne(), newer}, Answer([newer], [Cell("c1", "ok", 1)], false), 10);
    steps, e := [s0, s1], OlderOne();
    var g1 := StepWorld(BEGIN, s0);
    var g2 := StepWorld(g1, s1);
    FirstTickOf(s0, g1);
    SecondTickOf(g1, s1, g2);
    RunOfTwo(BEGIN, s0, s1, 1);
    assert Run(BEGIN, steps) == g2;
  }

  lemma RunOfTwo(g: World, s0: Step, s1: Step, limit: nat)
    requires Possible(g, s0) && FaithfulStep(g, s0, limit)
    requires Possible(StepWorld(g, s0), s1) && FaithfulStep(StepWorld(g, s0), s1, limit)
    ensures Run(g, [s0, s1]) == StepWorld(StepWorld(g, s0), s1)
    ensures PossibleRun(g, [s0, s1]) && FaithfulRun(g, [s0, s1], limit)
  {
    var g1 := StepWorld(g, s0);
    var g2 := StepWorld(g1, s1);
    assert [s0, s1][1..] == [s1] && [s1][1..] == [];
    assert Run(g2, []) == g2 && PossibleRun(g2, []) && FaithfulRun(g2, [], limit);
    assert Run(g1, [s1]) == g2 && PossibleRun(g1, [s1]) && FaithfulRun(g1, [s1], limit);
  }

  lemma FirstTickOf(s0: Step, g1: World)
    requires s0 == Step({}, Answer([], [Cell("c1", "ok", 0)], false), 10) && g1 == StepWorld(BEGIN, s0)
    ensures g1 == World(Watch(10, false, [], 0), 10, {}, {})
    ensures Possible(BEGIN, s0) && FaithfulStep(BEGIN, s0, 1)
  {
    assert Page({}, "c1", None, 1) == {};
  }

  lemma SecondTickOf(g1: World, s1: Step, g2: World)
    requires g1 == World(Watch(10, false, [], 0), 10, {}, {})
    requires s1 == Step({OlderOne(), NewerOne()}, Answer([NewerOne()], [Cell("c1", "ok", 1)], false), 10)
    requires g2 == StepWorld(g1, s1)
    ensures Possible(g1, s1) && FaithfulStep(g1, s1, 1)
    ensures Lost(g2, OlderOne()) && g2.watch.gapWarnings == 0
  {
    var newer := NewerOne();
    assert g1.ledger + s1.arrived == {OlderOne(), newer};
    PageOfOne(SinceOf(g1.watch));
    assert Cell("c1", "ok", 1) in s1.poll.cells;
    assert CellOk(s1.poll, "c1") && Listed(s1.poll, "c1");
    assert [newer][..0] == [];
    assert Newest([newer], 10) == 12 && After([newer], 10) == [newer];
    assert g2.watch == Watch(12, false, [newer], 0);
  }
}
