/**
 The row arithmetic of the master view (cmd/witself-admin/tui_model.go, viewList and paneBox): which
 lines each window shows, and how many rows the screen takes.
 */
module PaneWindows {
  import opened Prelude
  import opened SupportPane
  import ET = EventTail

  // ------------------------------------------------------------ the height budget

  datatype Budget = Budget(eventRows: int, topRows: int, strip: bool)

  function BudgetOf(height: int): Budget {
    var h := if height < 15 then 30 else height;
    var events := Max((h - 2) / 4, 4);
    var top := Max(h - 8 - events, 4);
    Budget(events, if top >= 12 then top - 4 else top, top >= 12)
  }

  /** Title and borders around a window of `contentH` lines. */
  function BoxRows(contentH: int): int {
    contentH + 3
  }

  /** The fleet strip, the two rows of windows and the two footer rows. */
  function ScreenRows(b: Budget): int {
    (if b.strip then BoxRows(1) else 0) + BoxRows(b.topRows) + BoxRows(b.eventRows) + 2
  }

  method HeightBudget(height: int) returns (b: Budget)
    ensures ScreenRows(b) == height <==> height >= 16
    ensures ScreenRows(b) >= height && b.topRows >= 4 && b.eventRows >= 4
    ensures b == BudgetOf(height)
  {
    var h := height;
    if h < 15 { h := 30; }
    var footerH := 2;
    var eventRows := Max((h - footerH) / 4, 4);
    var topRows := Max(h - footerH - eventRows - 6, 4);
    var showStrip := topRows >= 12;
    if showStrip { topRows := topRows - 4; }
    b := Budget(eventRows, topRows, showStrip);
  }

  /** The frame fills the terminal exactly from 16 rows on; below that it is taller: 16 rows, or 30 where no size is known. */
  lemma FrameFitsExactly(height: int)
    ensures ScreenRows(BudgetOf(height)) == height <==> height >= 16
    ensures ScreenRows(BudgetOf(height)) == if height < 15 then 30 else Max(height, 16)
    ensures BudgetOf(height).topRows >= 4 && BudgetOf(height).eventRows >= 4
  {
  }

  /** paneBox's clip and padding: the newest lines, then blanks. */
  function Boxed<T>(lines: seq<T>, blank: T, contentH: nat): (r: seq<T>)
    ensures |r| == contentH
    ensures |lines| <= contentH ==> lines <= r
  {
    if |lines| > contentH then lines[|lines| - contentH..] else lines + seq(contentH - |lines|, _ => blank)
  }

  // ------------------------------------------------------------ the support window

  /** What the render reads of the visible tickets. */
  function Ranks(vis: seq<Ticket>): (r: seq<nat>)
    ensures |r| == |vis|
    ensures forall i :: 0 <= i < |vis| ==> r[i] == StateRank(vis[i].state)
  {
    seq(|vis|, i requires 0 <= i < |vis| => StateRank(vis[i].state))
  }

  datatype Line = Separator | Row(index: int)

  /** A stage marker goes above a row that opens a new stage, in the unfiltered list. */
  predicate NewStage(ranks: seq<nat>, filtered: bool, i: nat)
    requires i < |ranks|
  {
    i > 0 && ranks[i] != ranks[i - 1] && !filtered
  }

  /** The lines of rows start to end, markers included. */
  function Lines(ranks: seq<nat>, filtered: bool, start: nat, end: nat): seq<Line>
    requires end <= |ranks|
    decreases end
  {
    if end <= start then []
    else Lines(ranks, filtered, start, end - 1) + (if NewStage(ranks, filtered, end - 1) then [Separator] else []) + [Row(end - 1)]
  }

  /** Where a row stands among the lines. */
  function LineOf(ranks: seq<nat>, filtered: bool, start: nat, i: nat): nat
    requires start <= i < |ranks|
  {
    |Lines(ranks, filtered, start, i)| + if NewStage(ranks, filtered, i) then 1 else 0
  }

  lemma {:induction false} LineHoldsRow(ranks: seq<nat>, filtered: bool, start: nat, end: nat, i: nat)
    requires start <= i < end <= |ranks|
    ensures LineOf(ranks, filtered, start, i) < |Lines(ranks, filtered, start, end)|
    ensures Lines(ranks, filtered, start, end)[LineOf(ranks, filtered, start, i)] == Row(i)
    decreases end
  {
    if i < end - 1 { LineHoldsRow(ranks, filtered, start, end - 1, i); }
  }

  /** At most topRows lines, the cursor's line among them. */
  function Clipped(lines: seq<Line>, cursorLine: nat, topRows: nat): seq<Line>
    requires lines == [] || cursorLine < |lines|
  {
    if |lines| <= topRows then lines
    else
      var lo := if cursorLine >= topRows then cursorLine - topRows + 1 else 0;
      lines[lo..lo + topRows]
  }

  lemma ClippedHoldsCursor(lines: seq<Line>, cursorLine: nat, topRows: nat)
    requires cursorLine < |lines| && topRows > 0
    ensures |Clipped(lines, cursorLine, topRows)| <= topRows
    ensures lines[cursorLine] in Clipped(lines, cursorLine, topRows)
  {
  }

  /** The rows walked: from just enough above the cursor, at most one window's worth. */
  function FirstShown(cursor: int, topRows: nat): int {
    if cursor >= topRows then cursor - topRows + 1 else 0
  }

  /** The render indexes the row above the first one shown, which a cursor far past the list does not have. */
  predicate IndexPanics(ranks: seq<nat>, cursor: int, topRows: nat) {
    ranks != [] && FirstShown(cursor, topRows) > |ranks|
  }

  /** The last row walked, exclusive. */
  function LastShown(ranks: seq<nat>, cursor: int, topRows: nat): int {
    Min(|ranks|, FirstShown(cursor, topRows) + topRows)
  }

  /** The line of the cursor's row, or the first line when it is not among the rows walked. */
  function CursorLine(ranks: seq<nat>, filtered: bool, cursor: int, start: nat, end: nat): (line: nat)
    requires end <= |ranks|
    ensures Lines(ranks, filtered, start, end) == [] || line < |Lines(ranks, filtered, start, end)|
  {
    if start <= cursor < end then
      LineHoldsRow(ranks, filtered, start, end, cursor);
      LineOf(ranks, filtered, start, cursor)
    else 0
  }

  function WindowOf(ranks: seq<nat>, filtered: bool, cursor: int, topRows: nat): seq<Line>
    requires ranks != [] && !IndexPanics(ranks, cursor, topRows)
  {
    var start, end := FirstShown(cursor, topRows), LastShown(ranks, cursor, topRows);
    Clipped(Lines(ranks, filtered, start, end), CursorLine(ranks, filtered, cursor, start, end), topRows)
  }

  /** The render's loop: the lines of rows start to end, and the line the cursor's row became. */
  method WalkRows(ranks: seq<nat>, filtered: bool, cursor: int, start: nat, end: nat)
    returns (supLines: seq<Line>, cursorLine: nat)
    requires start <= end <= |ranks|
    ensures supLines == Lines(ranks, filtered, start, end)
    ensures cursorLine == CursorLine(ranks, filtered, cursor, start, end)
  {
    var prevRank: int := if start > 0 then ranks[start - 1] else -1;
    supLines, cursorLine := [], 0;
    for i := start to end
      invariant prevRank == if i == 0 then -1 else ranks[i - 1]
      invariant supLines == Lines(ranks, filtered, start, i)
      invariant cursorLine == if start <= cursor < i then LineOf(ranks, filtered, start, cursor) else 0
    {
      var rank := ranks[i];
      if rank != prevRank && !filtered && prevRank != -1 { supLines := supLines + [Separator]; }
      prevRank := rank;
      if i == cursor { cursorLine := |supLines|; }
      supLines := supLines + [Row(i)];
    }
  }

  method Clip(lines: seq<Line>, cursorLine: nat, topRows: nat) returns (window: seq<Line>)
    requires lines == [] || cursorLine < |lines|
    ensures window == Clipped(lines, cursorLine, topRows)
  {
    window := lines;
    if |lines| > topRows {
      var lo := 0;
      if cursorLine >= topRows { lo := cursorLine - topRows + 1; }
      window := lines[lo..lo + topRows];
    }
  }

  /** None when the render indexes past the list; an empty list shows a note instead of rows. */
  method SupportWindow(ranks: seq<nat>, filtered: bool, cursor: int, topRows: nat) returns (r: Option<seq<Line>>)
    requires topRows >= 4
    ensures r.None? <==> IndexPanics(ranks, cursor, topRows)
    ensures r.Some? ==> r.value == if ranks == [] then [] else WindowOf(ranks, filtered, cursor, topRows)
  {
    if ranks == [] { return Some([]); }
    var start: nat := 0;
    if cursor >= topRows { start := cursor - topRows + 1; }
    if start > 0 && start - 1 >= |ranks| { return None; }
    var end := LastShown(ranks, cursor, topRows);
    var supLines, cursorLine := WalkRows(ranks, filtered, cursor, start, end);
    var window := Clip(supLines, cursorLine, topRows);
    return Some(window);
  }

  /**
   Whatever markers are inserted, the window keeps the cursor's row on screen in at most topRows
   lines, and paneBox cuts nothing more.
   */
  lemma CursorRowOnScreen(ranks: seq<nat>, filtered: bool, cursor: int, topRows: nat)
    requires topRows >= 4 && ranks != [] && 0 <= cursor < |ranks|
    ensures !IndexPanics(ranks, cursor, topRows)
    ensures var window := WindowOf(ranks, filtered, cursor, topRows);
            && |window| <= topRows
            && Row(cursor) in window
            && Row(cursor) in Boxed(window, Separator, topRows)
  {
    var start, end := FirstShown(cursor, topRows), LastShown(ranks, cursor, topRows);
    LineHoldsRow(ranks, filtered, start, end, cursor);
    var window := WindowOf(ranks, filtered, cursor, topRows);
    ClippedHoldsCursor(Lines(ranks, filtered, start, end), LineOf(ranks, filtered, start, cursor), topRows);
    assert window <= Boxed(window, Separator, topRows);
  }

  lemma SelectedTicketOnScreen(vis: seq<Ticket>, stage: string, cursor: int, topRows: nat)
    requires topRows >= 4 && vis != [] && InRange(vis, cursor)
    ensures Row(cursor) in Boxed(WindowOf(Ranks(vis), stage != "", cursor, topRows), Separator, topRows)
  {
    CursorRowOnScreen(Ranks(vis), stage != "", cursor, topRows);
  }

  /** Only a cursor a whole window past the filtered list breaks the render. */
  lemma PanicsExactlyFarPast(ranks: seq<nat>, cursor: int, topRows: nat)
    requires topRows >= 4
    ensures IndexPanics(ranks, cursor, topRows) <==> ranks != [] && cursor >= |ranks| + topRows
  {
  }

  /** A stage filter shows rows only. */
  lemma {:induction false} FilteredHasNoMarkers(ranks: seq<nat>, filtered: bool, start: nat, end: nat)
    requires end <= |ranks| && filtered
    ensures Separator !in Lines(ranks, filtered, start, end)
    ensures |Lines(ranks, filtered, start, end)| == Max(end - start, 0)
    decreases end
  {
    if end > start { FilteredHasNoMarkers(ranks, filtered, start, end - 1); }
  }

  /** The rows among the lines, in order. */
  function RowsAmong(lines: seq<Line>): seq<int>
    decreases |lines|
  {
    if lines == [] then []
    else
      var last := lines[|lines| - 1];
      RowsAmong(lines[..|lines| - 1]) + if last.Row? then [last.index] else []
  }

  lemma {:induction false} RowsAmongJoin(a: seq<Line>, b: seq<Line>)
    ensures RowsAmong(a + b) == RowsAmong(a) + RowsAmong(b)
    decreases |b|
  {
    if b == [] {
      assert a + b == a;
    } else {
      var shorter := b[..|b| - 1];
      assert (a + b)[..|a + b| - 1] == a + shorter;
      RowsAmongJoin(a, shorter);
    }
  }

  /** The lines hold every row walked once and in order. */
  lemma {:induction false} RowsInOrder(ranks: seq<nat>, filtered: bool, start: nat, end: nat)
    requires start <= end <= |ranks|
    ensures RowsAmong(Lines(ranks, filtered, start, end)) == seq(end - start, k requires 0 <= k < end - start => start + k)
    decreases end
  {
    if end > start {
      RowsInOrder(ranks, filtered, start, end - 1);
      var before := Lines(ranks, filtered, start, end - 1);
      RowsOneMore(before, NewStage(ranks, filtered, end - 1), end - 1);
    }
  }

  lemma RowsOneMore(before: seq<Line>, marker: bool, i: int)
    ensures RowsAmong(before + (if marker then [Separator] else []) + [Row(i)]) == RowsAmong(before) + [i]
  {
    RowsOfOne(i);
    var marked := before + if marker then [Separator] else [];
    RowsAmongJoin(marked, [Row(i)]);
    if marker { RowsAmongJoin(before, [Separator]); } else { assert marked == before; }
  }

  lemma RowsOfOne(i: int)
    ensures RowsAmong([Row(i)]) == [i] && RowsAmong([Separator]) == []
  {
    assert [Row(i)][..0] == [] && [Separator][..0] == [];
  }

  /** A marker stands right above a row of another stage than the row before it, and above every such row, unless a filter is on. */
  lemma {:induction false} MarkersStandBetweenStages(ranks: seq<nat>, filtered: bool, start: nat, end: nat, k: nat)
    requires end <= |ranks| && k < |Lines(ranks, filtered, start, end)|
    ensures var lines := Lines(ranks, filtered, start, end);
            && (lines[k] == Separator ==>
                  k + 1 < |lines| && lines[k + 1].Row? && start <= lines[k + 1].index < end && OpensStage(ranks, filtered, lines[k + 1].index))
            && (lines[k].Row? ==> start <= lines[k].index < end)
            && (lines[k].Row? ==> (OpensStage(ranks, filtered, lines[k].index) <==> k > 0 && lines[k - 1] == Separator))
    decreases end
  {
    var lines, before := Lines(ranks, filtered, start, end), Lines(ranks, filtered, start, end - 1);
    if k < |before| {
      MarkersStandBetweenStages(ranks, filtered, start, end - 1, k);
    } else if before != [] {
      MarkersStandBetweenStages(ranks, filtered, start, end - 1, |before| - 1);
    }
  }

  predicate PieceAt(window: seq<Line>, lines: seq<Line>, lo: int) {
    0 <= lo && lo + |window| <= |lines| && window == lines[lo..lo + |window|]
  }

  predicate OpensStage(ranks: seq<nat>, filtered: bool, i: int) {
    0 < i < |ranks| && ranks[i] != ranks[i - 1] && !filtered
  }

  /**
   The window is as full as the list and the frame allow: it walks as many rows as there are from its
   first, up to topRows; that first row is the list's own unless the cursor stands on the last row
   walked; and it shows as many of the lines as the frame has, in one piece.
   */
  lemma WindowIsFull(ranks: seq<nat>, filtered: bool, cursor: int, topRows: nat)
    requires topRows >= 4 && 0 <= cursor < |ranks|
    ensures var start, end := FirstShown(cursor, topRows), LastShown(ranks, cursor, topRows);
            && 0 <= start <= cursor < end <= |ranks|
            && end - start == Min(|ranks| - start, topRows)
            && (start > 0 ==> end - start == topRows && cursor == end - 1)
    ensures var lines := Lines(ranks, filtered, FirstShown(cursor, topRows), LastShown(ranks, cursor, topRows));
            && |WindowOf(ranks, filtered, cursor, topRows)| == Min(|lines|, topRows)
            && (exists lo :: PieceAt(WindowOf(ranks, filtered, cursor, topRows), lines, lo))
  {
    var start, end := FirstShown(cursor, topRows), LastShown(ranks, cursor, topRows);
    var lines, window := Lines(ranks, filtered, start, end), WindowOf(ranks, filtered, cursor, topRows);
    var line := CursorLine(ranks, filtered, cursor, start, end);
    LineHoldsRow(ranks, filtered, start, end, cursor);
    var lo := if |lines| <= topRows || line < topRows then 0 else line - topRows + 1;
    assert PieceAt(window, lines, lo);
  }

  // ------------------------------------------------------------ the events and cells windows

  function EventWindowOf(n: nat, sel: nat, eventRows: nat): (int, int)
    requires sel < n
  {
    var end := if n - sel - 1 < eventRows - 1 then Min(n, sel + eventRows) else sel + 1;
    (Max(end - eventRows, 0), end)
  }

  method EventWindow(n: nat, eventScroll: nat, eventRows: nat) returns (start: int, end: int)
    requires n > 0 && eventRows >= 4
    ensures (start, end) == EventWindowOf(n, n - 1 - Min(eventScroll, n - 1), eventRows)
    ensures var sel := n - 1 - Min(eventScroll, n - 1);
            && 0 <= start <= sel < end <= n && end - start <= eventRows
            && (end - start == Min(n, eventRows) <==> sel + 1 >= eventRows || n - sel < eventRows)
  {
    var selIdx := n - 1 - Min(eventScroll, n - 1);
    end := selIdx + 1;
    var tail := n - end;
    if tail < eventRows - 1 { end := Min(n, selIdx + eventRows); }
    start := Max(end - eventRows, 0);
  }

  /**
   The selected event is always in the window. The window is full unless the selection is near the
   oldest end with a whole window of newer events below it, which it then does not show.
   */
  lemma SelectedEventOnScreen(events: seq<ET.Event>, scroll: nat, eventRows: nat)
    requires events != [] && eventRows >= 4
    ensures var sel := ET.SelectedIndex(events, scroll);
            var (start, end) := EventWindowOf(|events|, sel, eventRows);
            && 0 <= start <= sel < end <= |events|
            && end - start <= eventRows
            && (end - start == Min(|events|, eventRows) <==> sel + 1 >= eventRows || |events| - sel < eventRows)
  {
  }

  const CELL_PANE_LINES := 3

  /** The first line shown of n cells. */
  function CellsFrom(n: nat, cellCursor: int, topRows: int): int {
    if n * CELL_PANE_LINES <= topRows then 0
    else Min(Max(cellCursor * CELL_PANE_LINES + CELL_PANE_LINES - topRows, 0), n * CELL_PANE_LINES - topRows)
  }

  /** The window keeps the selected cell's three lines together on screen, also after the fleet shrank. */
  lemma SelectedCellOnScreen(n: nat, cellCursor: int, topRows: int)
    requires topRows >= 4 && cellCursor >= 0
    ensures var lo := CellsFrom(n, cellCursor, topRows);
            && 0 <= lo
            && (n * CELL_PANE_LINES > topRows ==> lo + topRows <= n * CELL_PANE_LINES)
            && (cellCursor < n ==>
                  lo <= cellCursor * CELL_PANE_LINES && (cellCursor + 1) * CELL_PANE_LINES <= lo + topRows)
  {
  }
}
