/**
 `witself-admin events watch` (cmd/witself-admin/fleet_cmd.go): a polling watcher with a high-water
 mark that is held while a cell is down, run against a ledger that keeps growing.
 */
module EventsWatch {
  import opened Prelude
  import opened EventTail

  datatype Cell = Cell(name: string, status: string, count: nat)

  datatype Poll =
    | Failed
    | Answer(events: seq<Event>, cells: seq<Cell>, capped: bool)

  function Newest(events: seq<Event>, fallback: int): int
    decreases |events|
  {
    if events == [] then fallback
    else
      var last := |events| - 1;
      Max(Newest(events[..last], fallback), events[last].at)
  }

  lemma {:induction false} NewestIsMaximum(events: seq<Event>, fallback: int)
    ensures fallback <= Newest(events, fallback)
    ensures forall e :: e in events ==> e.at <= Newest(events, fallback)
    ensures Newest(events, fallback) == fallback || exists e :: e in events && e.at == Newest(events, fallback)
    decreases |events|
  {
    if events == [] {
    } else {
      var last := |events| - 1;
      NewestIsMaximum(events[..last], fallback);
      assert events == events[..last] + [events[last]];
      assert events[last] in events;
    }
  }

  method NewestEventTime(events: seq<Event>, fallback: int) returns (newest: int)
    ensures newest == Newest(events, fallback)
  {
    newest := fallback;
    for i := 0 to |events|
      invariant newest == Newest(events[..i], fallback)
    {
      assert events[..i + 1][..i] == events[..i];
      if events[i].at > newest { newest := events[i].at; }
    }
    assert events[..|events|] == events;
  }

  predicate AllOk(cells: seq<Cell>) {
    forall c :: c in cells ==> c.status == "ok"
  }

  /** The indices of the cells that failed to answer. */
  function Down(cells: seq<Cell>): set<int> {
    set i | 0 <= i < |cells| && cells[i].status != "ok"
  }

  lemma DownOneMore(cells: seq<Cell>, c: Cell)
    ensures |Down(cells + [c])| == |Down(cells)| + if c.status != "ok" then 1 else 0
  {
    assert Down(cells + [c]) == Down(cells) + if c.status != "ok" then {|cells|} else {};
  }

  method DegradedCellCount(cells: seq<Cell>) returns (n: nat)
    ensures n == |Down(cells)|
    ensures n == 0 <==> AllOk(cells)
  {
    n := 0;
    for i := 0 to |cells|
      invariant n == |Down(cells[..i])|
      invariant n == 0 <==> AllOk(cells[..i])
    {
      DownOneMore(cells[..i], cells[i]);
      assert cells[..i + 1] == cells[..i] + [cells[i]];
      assert cells[i] in cells[..i + 1];
      if cells[i].status != "ok" { n := n + 1; }
    }
    assert cells[..|cells|] == cells;
  }

  /** The events of an answer that lie past the mark, in the answer's order. */
  function After(events: seq<Event>, mark: int): seq<Event>
    decreases |events|
  {
    if events == [] then []
    else
      var last := |events| - 1;
      After(events[..last], mark) + if events[last].at > mark then [events[last]] else []
  }

  lemma {:induction false} AfterHolds(events: seq<Event>, mark: int, e: Event)
    ensures e in After(events, mark) <==> e in events && e.at > mark
    decreases |events|
  {
    if events == [] {
    } else {
      AfterHolds(events[..|events| - 1], mark, e);
      assert events == events[..|events| - 1] + [events[|events| - 1]];
    }
  }

  lemma AfterOfOne(e: Event, mark: int)
    ensures After([e], mark) == if e.at > mark then [e] else []
  {
    assert [e][..0] == [];
  }

  /** In the answer's order: what of one part comes before what of the next. */
  lemma {:induction false} AfterKeepsOrder(a: seq<Event>, b: seq<Event>, mark: int)
    ensures After(a + b, mark) == After(a, mark) + After(b, mark)
    decreases |b|
  {
    if b == [] {
      assert a + b == a;
    } else {
      var shorter := b[..|b| - 1];
      assert (a + b)[..|a + b| - 1] == a + shorter;
      AfterKeepsOrder(a, shorter, mark);
    }
  }

  datatype Watch = Watch(hwm: int, first: bool, emitted: seq<Event>, gapWarnings: nat)

  const START := Watch(0, true, [], 0)

  predicate Advances(w: Watch, poll: Poll) {
    !w.first && poll.Answer? && AllOk(poll.cells)
  }

  /** One tick; `floor` is the first mark when the first answer is empty: one second before now. */
  function Next(w: Watch, poll: Poll, floor: int): Watch {
    match poll
    case Failed => w
    case Answer(events, cells, capped) =>
      if w.first then w.(hwm := Newest(events, floor), first := false)
      else
        var shown := w.(emitted := w.emitted + After(events, w.hwm));
        if !AllOk(cells) then shown
        else shown.(gapWarnings := w.gapWarnings + (if capped then 1 else 0), hwm := Newest(events, w.hwm))
  }

  class Watcher {
    var hwm: int
    var first: bool
    var emitted: seq<Event>
    var gapWarnings: nat

    function State(): Watch
      reads this
    {
      Watch(hwm, first, emitted, gapWarnings)
    }

    constructor ()
      ensures State() == START
    {
      hwm, first, emitted, gapWarnings := 0, true, [], 0;
    }

    method Tick(poll: Poll, floor: int)
      modifies this
      ensures State() == Next(old(State()), poll, floor)
    {
      if poll.Failed? { return; }
      if first {
        hwm := NewestEventTime(poll.events, floor);
        first := false;
        return;
      }
      for i := 0 to |poll.events|
        modifies this`emitted
        invariant emitted == old(emitted) + After(poll.events[..i], hwm)
      {
        assert poll.events[..i + 1][..i] == poll.events[..i];
        if poll.events[i].at > hwm { emitted := emitted + [poll.events[i]]; }
      }
      assert poll.events[..|poll.events|] == poll.events;
      var down := DegradedCellCount(poll.cells);
      if down > 0 { return; }
      if poll.capped { gapWarnings := gapWarnings + 1; }
      hwm := NewestEventTime(poll.events, hwm);
    }
  }

  // ------------------------------------------------------------ runs

  /**
   The watcher beside the ledger it tails. An event is late when it enters the ledger after the
   mark had already reached its time.
   */
  datatype World = World(watch: Watch, baseline: int, ledger: set<Event>, late: set<Event>)

  /** Events enter the ledger, then one tick runs. */
  datatype Step = Step(arrived: set<Event>, poll: Poll, floor: int)

  const BEGIN := World(START, 0, {}, {})

  ghost function Arrive(g: World, arrived: set<Event>): World {
    g.(ledger := g.ledger + arrived,
       late := g.late + set e | e in arrived && !g.watch.first && e.at <= g.watch.hwm)
  }

  ghost function StepWorld(g: World, s: Step): World {
    var w := Next(g.watch, s.poll, s.floor);
    Arrive(g, s.arrived).(watch := w, baseline := if g.watch.first && !w.first then w.hwm else g.baseline)
  }

  /** The ledger is append-only and an answer shows only what the ledger holds. */
  ghost predicate Possible(g: World, s: Step) {
    && s.arrived !! g.ledger
    && (s.poll.Answer? ==> forall e :: e in s.poll.events ==> e in g.ledger + s.arrived)
  }

  ghost function Run(g: World, steps: seq<Step>): World
    decreases |steps|
  {
    if steps == [] then g else Run(StepWorld(g, steps[0]), steps[1..])
  }

  ghost predicate PossibleRun(g: World, steps: seq<Step>)
    decreases |steps|
  {
    steps == [] || (Possible(g, steps[0]) && PossibleRun(StepWorld(g, steps[0]), steps[1..]))
  }

  ghost predicate Inv(g: World) {
    && (forall e :: e in g.watch.emitted ==> e in g.ledger && e.at > g.baseline)
    && (g.watch.first ==> g.watch.emitted == [] && g.late == {})
    && (!g.watch.first ==> g.baseline <= g.watch.hwm)
    && (forall e :: e in g.late ==> e.at <= g.watch.hwm && e !in g.watch.emitted && e in g.ledger)
  }

  /** A ledger event the mark has passed that was there in time and was never printed. */
  ghost predicate Lost(g: World, e: Event) {
    && !g.watch.first && e in g.ledger && g.baseline < e.at <= g.watch.hwm
    && e !in g.late && e !in g.watch.emitted
  }

  /** This tick moves the mark past an event it neither shows nor has shown. */
  ghost predicate Skips(g: World, s: Step, e: Event) {
    && Advances(g.watch, s.poll)
    && e in g.ledger + s.arrived
    && g.watch.hwm < e.at <= Newest(s.poll.events, g.watch.hwm)
    && e !in s.poll.events && e !in g.watch.emitted
  }

  ghost predicate SkipsInRun(g: World, steps: seq<Step>, e: Event)
    decreases |steps|
  {
    steps != [] && (Skips(g, steps[0], e) || SkipsInRun(StepWorld(g, steps[0]), steps[1..], e))
  }

  lemma StepKeepsInv(g: World, s: Step)
    requires Inv(g) && Possible(g, s)
    ensures Inv(StepWorld(g, s))
    ensures !g.watch.first ==> g.watch.hwm <= StepWorld(g, s).watch.hwm
  {
    if s.poll.Answer? {
      forall e ensures e in After(s.poll.events, g.watch.hwm) <==> e in s.poll.events && e.at > g.watch.hwm {
        AfterHolds(s.poll.events, g.watch.hwm, e);
      }
      NewestIsMaximum(s.poll.events, g.watch.hwm);
    }
  }

  /** A step loses an event exactly by skipping it; an event once lost is never shown again. */
  lemma LostExactlyBySkip(g: World, s: Step, e: Event)
    requires Inv(g) && Possible(g, s)
    ensures Lost(StepWorld(g, s), e) <==> Lost(g, e) || Skips(g, s, e)
  {
    if s.poll.Answer? {
      AfterHolds(s.poll.events, g.watch.hwm, e);
      NewestIsMaximum(s.poll.events, g.watch.hwm);
    }
  }

  /**
   Over every run the mark never decreases, and the events lost are exactly those some advancing
   tick skipped: a failed or degraded tick loses nothing.
   */
  lemma {:induction false} RunLosesExactlySkipped(g: World, steps: seq<Step>, e: Event)
    requires Inv(g) && PossibleRun(g, steps)
    ensures Inv(Run(g, steps))
    ensures !g.watch.first ==> g.watch.hwm <= Run(g, steps).watch.hwm
    ensures Lost(Run(g, steps), e) <==> Lost(g, e) || SkipsInRun(g, steps, e)
    decreases |steps|
  {
    if steps != [] {
      StepKeepsInv(g, steps[0]);
      LostExactlyBySkip(g, steps[0], e);
      RunLosesExactlySkipped(StepWorld(g, steps[0]), steps[1..], e);
    }
  }

  /** The first answer prints nothing: it sets the baseline, at its newest event or at the floor. */
  lemma FirstAnswerIsBaseline(g: World, s: Step)
    requires Inv(g) && Possible(g, s) && g.watch.first && s.poll.Answer?
    ensures var h := StepWorld(g, s);
            && !h.watch.first && h.watch.emitted == [] && h.baseline == h.watch.hwm
            && s.floor <= h.baseline && (forall e :: e in s.poll.events ==> e.at <= h.baseline)
            && (h.baseline == s.floor || exists e :: e in s.poll.events && e.at == h.baseline)
  {
    NewestIsMaximum(s.poll.events, s.floor);
  }

  /** A later step leaves the baseline where it is. */
  lemma {:induction false} BaselineIsSetOnce(g: World, steps: seq<Step>)
    requires !g.watch.first
    ensures !Run(g, steps).watch.first && Run(g, steps).baseline == g.baseline
    decreases |steps|
  {
    if steps != [] { BaselineIsSetOnce(StepWorld(g, steps[0]), steps[1..]); }
  }

  /** So over every run nothing at or before the baseline is ever printed, and nothing the ledger does not hold. */
  lemma NothingOldIsPrinted(steps: seq<Step>, e: Event)
    requires PossibleRun(BEGIN, steps) && e in Run(BEGIN, steps).watch.emitted
    ensures e.at > Run(BEGIN, steps).baseline && e in Run(BEGIN, steps).ledger
  {
    RunLosesExactlySkipped(BEGIN, steps, e);
  }

  // ------------------------------------------------------------ repeats

  /** Outside held ticks an event is printed at most once. */
  ghost predicate NeverHeld(g: World, steps: seq<Step>)
    decreases |steps|
  {
    steps != [] ==>
      && (steps[0].poll.Answer? ==> NoDup(steps[0].poll.events) && (g.watch.first || AllOk(steps[0].poll.cells)))
      && NeverHeld(StepWorld(g, steps[0]), steps[1..])
  }

  lemma {:induction false} AfterNoDup(events: seq<Event>, mark: int)
    requires NoDup(events)
    ensures NoDup(After(events, mark))
    decreases |events|
  {
    if events != [] {
      var last := |events| - 1;
      AfterNoDup(events[..last], mark);
      AfterHolds(events[..last], mark, events[last]);
    }
  }

  lemma {:induction false} PrintedOnceUnlessHeld(g: World, steps: seq<Step>)
    requires NeverHeld(g, steps) && NoDup(g.watch.emitted)
    requires g.watch.first ==> g.watch.emitted == []
    requires forall e :: e in g.watch.emitted ==> e.at <= g.watch.hwm
    ensures NoDup(Run(g, steps).watch.emitted)
    decreases |steps|
  {
    if steps != [] {
      var s := steps[0];
      var g' := StepWorld(g, s);
      if s.poll.Answer? && !g.watch.first {
        var more := After(s.poll.events, g.watch.hwm);
        AfterNoDup(s.poll.events, g.watch.hwm);
        NewestIsMaximum(s.poll.events, g.watch.hwm);
        forall e ensures e in more <==> e in s.poll.events && e.at > g.watch.hwm {
          AfterHolds(s.poll.events, g.watch.hwm, e);
        }
        assert g'.watch.emitted == g.watch.emitted + more;
        assert forall i, j :: 0 <= i < |g.watch.emitted| && 0 <= j < |more| ==> g.watch.emitted[i] != more[j];
        assert NoDup(g'.watch.emitted);
      }
      PrintedOnceUnlessHeld(g', steps[1..]);
    }
  }

  /** A held tick does print again: the mark stays, so the same window comes back. */
  lemma HeldTickRepeats(w: Watch, e: Event, down: Cell, floor: int)
    requires !w.first && e.at > w.hwm && down.status != "ok"
    ensures var poll := Answer([e], [down], false);
            Next(Next(w, poll, floor), poll, floor).emitted == w.emitted + [e, e]
  {
    assert down in [down];
    assert [e][..0] == [];
    assert After([e], w.hwm) == [e];
  }
}
