/** The rate-limited deferral counter (cmd/witself-server/agent_email_cohort_deferral.go). */
module DeferralLog {
  import opened Prelude

  const MINUTE := 60_000_000_000
  const WIDTH := 0x1_0000_0000_0000_0000

  /** A printed line: the count it names and the clock reading it was printed at, in nanoseconds. */
  datatype Line = Line(count: nat, at: int)

  datatype Log = Log(lines: seq<Line>, last: int, written: bool, pending: nat)

  const START := Log([], 0, false, 0)

  /** One observe call at a clock reading. */
  function Observed(l: Log, now: int): Log {
    var pending := (l.pending + 1) % WIDTH;
    if l.written && now - l.last < MINUTE then l.(pending := pending)
    else Log(l.lines + [Line(pending, now)], now, true, 0)
  }

  function Total(lines: seq<Line>): nat
    decreases |lines|
  {
    if lines == [] then 0 else Total(lines[..|lines| - 1]) + lines[|lines| - 1].count
  }

  class DeferralCounter {
    var lines: seq<Line>
    var last: int
    var written: bool
    var pending: nat

    function State(): Log
      reads this
    {
      Log(lines, last, written, pending)
    }

    constructor ()
      ensures State() == START
    {
      lines, last, written, pending := [], 0, false, 0;
    }

    method Observe(now: int)
      modifies this
      ensures State() == Observed(old(State()), now)
      ensures lines != old(lines) <==> !old(written) || now - old(last) >= MINUTE
      ensures lines != old(lines) ==> lines[..|lines| - 1] == old(lines) && lines[|lines| - 1].at == now && pending == 0
      ensures old(pending) + 1 < WIDTH ==> Total(lines) + pending == old(Total(lines) + pending) + 1
    {
      if pending + 1 < WIDTH { OneMoreCounted(State(), now); }
      pending := (pending + 1) % WIDTH;
      if written && now - last < MINUTE { return; }
      lines := lines + [Line(pending, now)];
      pending := 0;
      last := now;
      written := true;
    }
  }

  function Run(l: Log, readings: seq<int>): Log
    decreases |readings|
  {
    if readings == [] then l else Observed(Run(l, readings[..|readings| - 1]), readings[|readings| - 1])
  }

  /** How often the pending count wrapped around. */
  function Wraps(readings: seq<int>): nat
    decreases |readings|
  {
    if readings == [] then 0
    else
      var before := readings[..|readings| - 1];
      Wraps(before) + if Run(START, before).pending == WIDTH - 1 then 1 else 0
  }

  lemma OneMoreCounted(l: Log, now: int)
    requires l.pending < WIDTH
    ensures var l' := Observed(l, now);
            && l'.pending < WIDTH
            && Total(l'.lines) + l'.pending
                 == Total(l.lines) + l.pending + 1 - if l.pending == WIDTH - 1 then WIDTH else 0
  {
    var l' := Observed(l, now);
    if l'.lines != l.lines { assert l'.lines[..|l'.lines| - 1] == l.lines; }
  }

  /**
   Nothing is lost or counted twice: however the calls and the clock interleave, the printed counts
   and what is pending add up to the calls, less the width of the counter each time it wraps around;
   so they add up exactly when it never does.
   */
  lemma {:induction false} CountsAddUp(readings: seq<int>)
    ensures var l := Run(START, readings);
            && l.pending < WIDTH
            && Total(l.lines) + l.pending == |readings| - WIDTH * Wraps(readings)
    ensures Total(Run(START, readings).lines) + Run(START, readings).pending == |readings| <==> Wraps(readings) == 0
    ensures |readings| < WIDTH ==> Wraps(readings) == 0
    decreases |readings|
  {
    if readings != [] {
      var before, now := readings[..|readings| - 1], readings[|readings| - 1];
      CountsAddUp(before);
      OneMoreCounted(Run(START, before), now);
      assert Run(START, readings) == Observed(Run(START, before), now);
    }
  }

  ghost predicate Spaced(l: Log) {
    && (l.written <==> l.lines != [])
    && (l.written ==> l.lines[|l.lines| - 1].at == l.last)
    && (forall i :: 0 <= i < |l.lines| - 1 ==> l.lines[i + 1].at - l.lines[i].at >= MINUTE)
  }

  /** Successive lines are a minute apart, for every clock, also one that steps back. */
  lemma {:induction false} LinesAreSpaced(readings: seq<int>)
    ensures Spaced(Run(START, readings))
    decreases |readings|
  {
    if readings != [] {
      var before := readings[..|readings| - 1];
      LinesAreSpaced(before);
      var l, l' := Run(START, before), Run(START, readings);
      assert l' == Observed(l, readings[|readings| - 1]);
    }
  }

  lemma {:induction false} SpanFromSpacing(lines: seq<Line>, k: nat)
    requires k < |lines| && forall i :: 0 <= i < |lines| - 1 ==> lines[i + 1].at - lines[i].at >= MINUTE
    ensures lines[k].at - lines[0].at >= k * MINUTE
    decreases k
  {
    if k > 0 { SpanFromSpacing(lines, k - 1); }
  }

  /** So k lines take at least k - 1 minutes of the clock. */
  lemma LinesTakeMinutes(readings: seq<int>)
    requires Run(START, readings).lines != []
    ensures var lines := Run(START, readings).lines;
            lines[|lines| - 1].at - lines[0].at >= (|lines| - 1) * MINUTE
  {
    var lines := Run(START, readings).lines;
    LinesAreSpaced(readings);
    SpanFromSpacing(lines, |lines| - 1);
  }

  /**
   With a clock that never steps back, counts are held back only within a minute of the last line;
   the first call always prints.
   */
  lemma {:induction false} HeldBackOnlyBriefly(readings: seq<int>)
    requires readings != [] && forall i, j :: 0 <= i < j < |readings| ==> readings[i] <= readings[j]
    ensures var l := Run(START, readings);
            l.written && l.lines != [] && l.lines[0].at == readings[0] && 0 <= readings[|readings| - 1] - l.last
            && (l.pending > 0 ==> readings[|readings| - 1] - l.last < MINUTE)
    decreases |readings|
  {
    var before := readings[..|readings| - 1];
    if before != [] {
      HeldBackOnlyBriefly(before);
      LinesAreSpaced(before);
    }
    assert Run(START, readings) == Observed(Run(START, before), readings[|readings| - 1]);
  }
}
