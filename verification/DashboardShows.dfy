/**
 What each message and key brings on screen and what it asks for (cmd/witself-admin/tui_model.go),
 read off whole steps: by list, by selection, by view and by command.
 */
module DashboardShows {
  import opened Prelude
  import opened SupportPane
  import opened Dashboard
  import opened DashboardRuns
  import ET = EventTail

  // ------------------------------------------------------------ lists

  /** A loaded list is what the support pane shows: all of it, in pane order, ties as they came. */
  lemma TicketsShown(m: Model, list: seq<Ticket>)
    requires m.feed.eventScroll >= 0
    ensures var p := Next(m, TicketsLoaded(Some(list))).m.pane;
            && multiset(p.tickets) == multiset(list) && Ordered(p.tickets) && p.stateFilter == m.pane.stateFilter
            && forall k :: TiedWith(p.tickets, k) == TiedWith(list, k)
  {
    SortedIsStable(list);
    assert Next(m, TicketsLoaded(Some(list))).m == OnTickets(m, Some(list));
  }

  /** A live ticket becomes a row; every record with another id stays, and no row is doubled. */
  lemma LiveTicketShown(m: Model, t: Ticket)
    requires m.feed.eventScroll >= 0
    ensures var p := Next(m, WatchTicket(t)).m.pane;
            && t in p.tickets && Ordered(p.tickets) && p.stateFilter == m.pane.stateFilter
            && (forall x: Ticket :: x.id != t.id ==> multiset(p.tickets)[x] == multiset(m.pane.tickets)[x])
            && |p.tickets| == |m.pane.tickets| + (if HasRow(m.pane.tickets, t.id) then 0 else 1)
            && (DistinctRows(m.pane.tickets) ==> DistinctRows(p.tickets))
  {
    UpsertKeepsOthers(m.pane.tickets, t);
    LiveTicketIsUpserted(m, t);
  }

  lemma LiveTicketIsUpserted(m: Model, t: Ticket)
    requires m.feed.eventScroll >= 0
    ensures var p := Next(m, WatchTicket(t)).m.pane;
            p.tickets == Upserted(m.pane.tickets, t) && p.stateFilter == m.pane.stateFilter
  {
  }

  /** Loaded cells are what the strip shows. */
  lemma CellsShown(m: Model, cells: seq<FleetCell>)
    requires m.feed.eventScroll >= 0
    ensures Next(m, CellsLoaded(Some(cells))).m == m.(strip := Strip(cells, m.strip.cellCursor))
  {
    assert Next(m, CellsLoaded(Some(cells))) == OnCells(m, Some(cells));
  }

  /** The events pane takes a seed whole, newest last, and a live event at its newest end unless it has it. */
  lemma EventsShown(m: Model, seed: seq<Event>, e: Event)
    requires m.feed.eventScroll >= 0
    ensures var f := Next(m, EventsSeed(Some(seed))).m.feed;
            |f.events| == |seed| && forall i :: 0 <= i < |seed| ==> f.events[i] == seed[|seed| - 1 - i]
    ensures var f := Next(m, WatchEvent(e)).m.feed;
            if ET.HasId(m.feed.events, e.id) then f == m.feed
            else f.events != [] && f.events[|f.events| - 1] == e && f.eventsSeen == m.feed.eventsSeen + 1
  {
    assert Next(m, WatchEvent(e)).m.feed == ET.Watched(m.feed, e);
  }

  /** Nothing else changes a list: not a failed load, not a key. */
  lemma OnlyLoadsChangeLists(m: Model, msg: Msg)
    requires m.feed.eventScroll >= 0
    ensures var m' := Next(m, msg).m;
            && (m'.pane.tickets != m.pane.tickets ==> (msg.TicketsLoaded? && msg.list.Some?) || msg.WatchTicket?)
            && (m'.strip.fleetCells != m.strip.fleetCells ==> msg.CellsLoaded? && msg.cells.Some?)
            && (m'.feed.events != m.feed.events ==> (msg.EventsSeed? && msg.events.Some?) || msg.WatchEvent?)
  {
    match msg
    case TicketsLoaded(list) => assert Next(m, msg).m == OnTickets(m, list);
    case ThreadLoaded(res) => assert Next(m, msg).m == OnThread(m, res);
    case ActionDone(ok) => assert Next(m, msg) == OnActionDone(m, ok);
    case WatchTicket(t) => assert Next(m, msg) == OnWatchTicket(m, t);
    case CellsLoaded(cells) => assert Next(m, msg) == OnCells(m, cells);
    case UpgradeApplied(tag, outcome) => assert Next(m, msg) == OnUpgradeApplied(m, tag, outcome);
    case KeyMsg(key, edit) =>
      assert Next(m, msg) == HandleKey(m, key, edit);
      KeysKeepLists(m, key, edit);
    case _ =>
  }

  lemma KeysKeepLists(m: Model, key: Key, edit: Edit)
    requires m.feed.eventScroll >= 0
    ensures var m' := HandleKey(m, key, edit).m;
            m'.pane.tickets == m.pane.tickets && m'.strip.fleetCells == m.strip.fleetCells && m'.feed.events == m.feed.events
  {
    if m.mode == Compose {
      assert HandleKey(m, key, edit) == ComposeKey(m, key, edit);
    } else {
      assert HandleKey(m, key, edit) == ViewKey(m, key);
      if m.mode == List { ListKeyKeepsLists(m, key); }
    }
  }

  lemma ListKeyKeepsLists(m: Model, key: Key)
    requires m.feed.eventScroll >= 0
    ensures var m' := ListKey(m, key).m;
            m'.pane.tickets == m.pane.tickets && m'.strip.fleetCells == m.strip.fleetCells && m'.feed.events == m.feed.events
  {
    if key == Enter { assert ListKey(m, key) == OpenSelection(m); }
  }

  // ------------------------------------------------------------ selections

  /** The view after a key of the master view. */
  function Pressed(m: Model, key: Key, edit: Edit): Model
    requires m.feed.eventScroll >= 0
  {
    Next(m, KeyMsg(key, edit)).m
  }

  lemma PressedIs(m: Model, key: Key, edit: Edit)
    requires m.feed.eventScroll >= 0 && m.mode == List
    requires key == Down || key == Up || key == Tab || key == ShiftTab || key == FilterKey || key == HealthKey
    ensures Pressed(m, key, edit) == ListKey(m, key).m
  {
    assert Next(m, KeyMsg(key, edit)) == ViewKey(m, key);
  }

  lemma DownAndUp(m: Model, edit: Edit)
    requires m.feed.eventScroll >= 0 && m.mode == List
    ensures Pressed(m, Down, edit) == MoveDown(m) && Pressed(m, Up, edit) == MoveUp(m)
  {
    PressedIs(m, Down, edit);
    PressedIs(m, Up, edit);
  }

  lemma RowKeys(m: Model)
    requires Sane(m) && m.focus == PANE_SUPPORT && Vis(m.pane) != []
    ensures Selected(MoveDown(m).pane) == Some(Vis(m.pane)[Min(m.pane.cursor + 1, |Vis(m.pane)| - 1)])
    ensures Selected(MoveUp(m).pane) == Some(Vis(m.pane)[Max(m.pane.cursor - 1, 0)])
  {
  }

  lemma EventKeys(m: Model)
    requires m.focus == PANE_EVENTS && 0 <= m.feed.eventScroll < |m.feed.events|
    ensures var i := ET.SelectedIndex(m.feed.events, m.feed.eventScroll);
            && ET.Selected(MoveDown(m).feed) == Some(m.feed.events[Min(i + 1, |m.feed.events| - 1)])
            && ET.Selected(MoveUp(m).feed) == Some(m.feed.events[Max(i - 1, 0)])
  {
    ET.KeysSelectNeighbours(m.feed);
  }

  lemma CellKeysMove(m: Model)
    requires m.focus == PANE_CELLS && 0 <= m.strip.cellCursor < |m.strip.fleetCells|
    ensures MoveDown(m).strip.cellCursor == Min(m.strip.cellCursor + 1, |m.strip.fleetCells| - 1)
    ensures MoveUp(m).strip.cellCursor == Max(m.strip.cellCursor - 1, 0)
  {
  }

  /** j and down select the next row of the focused pane, k and up the one before; each stops at its end. */
  lemma KeysSelectNextAndPrevious(m: Model, edit: Edit)
    requires Sane(m) && m.mode == List
    ensures m.focus == PANE_SUPPORT && Vis(m.pane) != [] ==>
              && Selected(Pressed(m, Down, edit).pane) == Some(Vis(m.pane)[Min(m.pane.cursor + 1, |Vis(m.pane)| - 1)])
              && Selected(Pressed(m, Up, edit).pane) == Some(Vis(m.pane)[Max(m.pane.cursor - 1, 0)])
    ensures m.focus == PANE_EVENTS && m.feed.eventScroll < |m.feed.events| ==>
              var i := ET.SelectedIndex(m.feed.events, m.feed.eventScroll);
              && ET.Selected(Pressed(m, Down, edit).feed) == Some(m.feed.events[Min(i + 1, |m.feed.events| - 1)])
              && ET.Selected(Pressed(m, Up, edit).feed) == Some(m.feed.events[Max(i - 1, 0)])
    ensures m.focus == PANE_CELLS && m.strip.cellCursor < |m.strip.fleetCells| ==>
              && Pressed(m, Down, edit).strip.cellCursor == Min(m.strip.cellCursor + 1, |m.strip.fleetCells| - 1)
              && Pressed(m, Up, edit).strip.cellCursor == Max(m.strip.cellCursor - 1, 0)
  {
    DownAndUp(m, edit);
    if m.focus == PANE_SUPPORT && Vis(m.pane) != [] { RowKeys(m); }
    if m.focus == PANE_EVENTS && m.feed.eventScroll < |m.feed.events| { EventKeys(m); }
    if m.focus == PANE_CELLS && m.strip.cellCursor < |m.strip.fleetCells| { CellKeysMove(m); }
  }

  lemma TabAndBack(m: Model, edit: Edit)
    requires m.feed.eventScroll >= 0 && m.mode == List
    ensures Pressed(m, Tab, edit) == m.(focus := (m.focus + 1) % PANE_COUNT)
    ensures Pressed(m, ShiftTab, edit) == m.(focus := (m.focus + 2) % PANE_COUNT)
  {
    PressedIs(m, Tab, edit);
    PressedIs(m, ShiftTab, edit);
  }

  /** Tab goes from the cells to the support pane, on to the events and round, and shift+tab back. */
  lemma TabsCycle(m: Model, edit: Edit)
    requires Sane(m) && m.mode == List
    ensures Pressed(m, Tab, edit).focus ==
              if m.focus == PANE_CELLS then PANE_SUPPORT else if m.focus == PANE_SUPPORT then PANE_EVENTS else PANE_CELLS
    ensures Pressed(Pressed(m, ShiftTab, edit), Tab, edit) == m
  {
    TabAndBack(m, edit);
    TabAndBack(Pressed(m, ShiftTab, edit), edit);
  }

  /** f goes from all stages over active and resolved to closed and round, in the support pane only. */
  lemma FilterCycles(m: Model, edit: Edit)
    requires m.feed.eventScroll >= 0 && m.mode == List
    ensures var stage, stage' := m.pane.stateFilter, Pressed(m, FilterKey, edit).pane.stateFilter;
            if m.focus != PANE_SUPPORT then stage' == stage
            else && (stage == "" ==> stage' == "active") && (stage == "active" ==> stage' == "resolved")
                 && (stage == "resolved" ==> stage' == "closed") && (stage == "closed" ==> stage' == "")
  {
    PressedIs(m, FilterKey, edit);
    assert ListKey(m, FilterKey).m.pane.stateFilter ==
           if m.focus == PANE_SUPPORT then NextFilter(m.pane.stateFilter) else m.pane.stateFilter;
  }

  /** Only these keys move a selection or a focus. */
  lemma OtherKeysMoveNothing(m: Model, key: Key, edit: Edit)
    requires m.feed.eventScroll >= 0
    requires m.mode != List || (key != Down && key != Up && key != Tab && key != ShiftTab && key != FilterKey)
    ensures var m' := Pressed(m, key, edit);
            m'.focus == m.focus && m'.pane == m.pane && m'.feed == m.feed && m'.strip == m.strip
  {
    if m.mode == Compose {
      assert Next(m, KeyMsg(key, edit)) == ComposeKey(m, key, edit);
    } else {
      assert Next(m, KeyMsg(key, edit)) == ViewKey(m, key);
      if key == Enter && m.mode == List { assert ViewKey(m, key) == OpenSelection(m); }
    }
  }

  // ------------------------------------------------------------ views

  /** The view a key leads to, by the view it is pressed in. */
  function ViewAfter(m: Model, key: Key): Mode {
    match m.mode
    case List =>
      if key == HealthKey then Health
      else if key == Inspect && m.focus == PANE_SUPPORT && Selected(m.pane).Some? then TicketDetail
      else if key == Enter && m.focus == PANE_EVENTS && m.feed.events != [] then EventDetail
      else if key == Enter && m.focus == PANE_CELLS && m.strip.cellCursor < |m.strip.fleetCells| then CellDetail
      else List
    case Detail => if key == Esc then List else if key == Reply then Compose else if key == Inspect then TicketDetail else Detail
    case Compose => if key == Esc || key == CtrlD then Detail else Compose
    case TicketDetail => if key == Esc then m.drill.ticketInfoReturn else TicketDetail
    case _ => if key == Esc then List else m.mode
  }

  lemma ListViewAfter(m: Model, key: Key)
    requires ModeSane(m) && m.mode == List
    ensures ViewKey(m, key).m.mode == ViewAfter(m, key)
  {
    match key
    case Enter => assert ViewKey(m, key) == OpenSelection(m);
    case Inspect => assert ViewKey(m, key).m == InspectTicket(m);
    case _ =>
  }

  lemma OtherViewAfter(m: Model, key: Key)
    requires ModeSane(m) && m.mode != List && m.mode != Compose
    ensures ViewKey(m, key).m.mode == ViewAfter(m, key)
  {
    match key
    case Esc => assert ViewKey(m, key).m == Leave(m);
    case Inspect => assert ViewKey(m, key).m == InspectTicket(m);
    case _ =>
  }

  /** Every key leads to its view; a message moves the view only by bringing a thread, and then to the thread. */
  lemma ViewsMoveExactly(m: Model, msg: Msg)
    requires Sane(m)
    ensures Next(m, msg).m.mode ==
              if msg.KeyMsg? then ViewAfter(m, msg.key)
              else if msg.ThreadLoaded? && msg.res.Some? && m.mode != Compose then Detail
              else m.mode
  {
    if msg.KeyMsg? {
      assert Next(m, msg) == HandleKey(m, msg.key, msg.edit);
      if m.mode == Compose {
        assert HandleKey(m, msg.key, msg.edit) == ComposeKey(m, msg.key, msg.edit);
      } else if m.mode == List {
        ListViewAfter(m, msg.key);
      } else {
        OtherViewAfter(m, msg.key);
      }
    } else if msg.ThreadLoaded? {
      assert Next(m, msg).m == OnThread(m, msg.res);
    } else {
      MessageFrame(m, msg);
    }
  }

  /** Esc drops what the view it leaves had open, and touches nothing else. */
  lemma EscForgets(m: Model, edit: Edit)
    requires ModeSane(m) && m.mode != Compose
    ensures var m' := Pressed(m, Esc, edit);
            && m' == m.(mode := ViewAfter(m, Esc), talk := m'.talk, drill := m'.drill)
            && m'.talk == (if m.mode == Detail then m.talk.(thread := None) else m.talk)
            && m'.drill == match m.mode
                           case EventDetail => m.drill.(event := None)
                           case CellDetail => m.drill.(cell := None)
                           case TicketDetail => m.drill.(ticket := None)
                           case _ => m.drill
  {
    assert Next(m, KeyMsg(Esc, edit)) == ViewKey(m, Esc);
  }

  // ------------------------------------------------------------ commands

  /** The composer takes every key but ctrl+c to itself. */
  predicate Viewing(m: Model, msg: Msg, key: Key) {
    msg.KeyMsg? && m.mode != Compose && msg.key == key
  }

  predicate Landed(m: Model, msg: Msg) {
    msg.ActionDone? && msg.ok && m.up.readyTag == ""
  }

  /** Which threads a step loads: the one it opens, or the one on screen when it changed or an action on it ended. */
  predicate LoadsThread(m: Model, msg: Msg, c: Coords) {
    || (Opens(m, msg) && c == CoordsOf(Selected(m.pane).value))
    || (c == Here(m.talk) && Landed(m, msg) && m.mode == Detail && m.talk.account != "")
    || (c == Here(m.talk) && msg.WatchTicket? && (m.mode == Detail || m.mode == Compose) && msg.ticket.id == m.talk.ticket)
  }

  predicate FleetMoved(m: Model, msg: Msg) {
    msg.CellsLoaded? && msg.cells.Some?
    && (TopologyChanged(m.strip.fleetCells, msg.cells.value) || BackfillChanged(m.strip.fleetCells, msg.cells.value))
  }

  predicate Quits(m: Model, msg: Msg) {
    Restarts(m, msg) || (msg.KeyMsg? && msg.key == CtrlC) || Viewing(m, msg, Quit)
  }

  /** Command by command, what asks for it. */
  ghost predicate AsksExactly(m: Model, msg: Msg, cmds: seq<Cmd>) {
    && (LoadTickets in cmds <==> msg.AutoRefresh? || Viewing(m, msg, Refresh) || Landed(m, msg))
    && (LoadCells in cmds <==> msg.AutoRefresh? || Viewing(m, msg, Refresh))
    && (SeedEvents in cmds <==>
          (msg.AutoRefresh? && !m.eventWatching) || Viewing(m, msg, Refresh) || FleetMoved(m, msg))
    && (forall c :: LoadThread(c) in cmds <==> LoadsThread(m, msg, c))
    && (AwaitWatch in cmds <==> msg.WatchTicket? && m.watching)
    && (AwaitEventWatch in cmds <==> msg.WatchEvent? && m.eventWatching)
    && (AutoRefreshLater in cmds <==> msg.AutoRefresh?)
    && (CheckUpgrade in cmds <==> msg.UpgradeCheck?) && (UpgradeCheckLater in cmds <==> msg.UpgradeCheck?)
    && (forall tag :: ApplyUpgrade(tag) in cmds <==> msg == UpgradeAvailable(tag))
    && (Exit in cmds <==> Quits(m, msg))
  }

  lemma ComposeAsks(m: Model, key: Key, edit: Edit)
    requires m.mode == Compose
    ensures AsksExactly(m, KeyMsg(key, edit), ComposeKey(m, key, edit).cmds)
  {
  }

  lemma ListAsks(m: Model, key: Key, edit: Edit)
    requires m.feed.eventScroll >= 0 && m.mode == List && key != Quit && key != CtrlC && key != Refresh && key != Esc
    requires key != Inspect && key != Reply && !key.SetTo?
    ensures AsksExactly(m, KeyMsg(key, edit), ListKey(m, key).cmds)
  {
    if key == Enter { assert ListKey(m, key) == OpenSelection(m); }
  }

  lemma ViewAsks(m: Model, key: Key, edit: Edit)
    requires m.feed.eventScroll >= 0 && m.mode != Compose
    ensures AsksExactly(m, KeyMsg(key, edit), ViewKey(m, key).cmds)
  {
    match key
    case Quit => case CtrlC => case Refresh => case Esc => case Inspect => case Reply =>
    case SetTo(state) => assert ViewKey(m, key) == StateKey(m, state);
    case _ => if m.mode == List { ListAsks(m, key, edit); }
  }

  lemma ActionAsks(m: Model, ok: bool)
    requires m.feed.eventScroll >= 0
    ensures AsksExactly(m, ActionDone(ok), OnActionDone(m, ok).cmds)
  {
  }

  lemma WatchAsks(m: Model, t: Ticket, cmds: seq<Cmd>)
    requires cmds == (if (m.mode == Detail || m.mode == Compose) && t.id == m.talk.ticket then [LoadThread(Here(m.talk))] else [])
                     + if m.watching then [AwaitWatch] else []
    ensures AsksExactly(m, WatchTicket(t), cmds)
  {
  }

  lemma UpgradeAsks(m: Model, tag: string, outcome: Applied)
    requires m.feed.eventScroll >= 0
    ensures AsksExactly(m, UpgradeApplied(tag, outcome), OnUpgradeApplied(m, tag, outcome).cmds)
  {
  }

  lemma CellsAsk(m: Model, cells: Option<seq<FleetCell>>)
    requires m.feed.eventScroll >= 0
    ensures AsksExactly(m, CellsLoaded(cells), OnCells(m, cells).cmds)
  {
  }

  /** Every command a step issues beside its one action, by what asks for it. */
  lemma CommandsExactly(m: Model, msg: Msg)
    requires m.feed.eventScroll >= 0
    ensures AsksExactly(m, msg, Next(m, msg).cmds)
  {
    match msg
    case ActionDone(ok) => ActionAsks(m, ok);
    case WatchTicket(t) => WatchAsks(m, t, Next(m, msg).cmds);
    case UpgradeApplied(tag, outcome) => UpgradeAsks(m, tag, outcome);
    case CellsLoaded(cells) => CellsAsk(m, cells);
    case KeyMsg(key, edit) => if m.mode == Compose { ComposeAsks(m, key, edit); } else { ViewAsks(m, key, edit); }
    case AutoRefresh => RefreshAsks(m, Next(m, msg).cmds);
    case _ => OtherMessageAsks(m, msg, Next(m, msg).cmds);
  }

  lemma RefreshAsks(m: Model, cmds: seq<Cmd>)
    requires cmds == if m.eventWatching then [LoadCells, LoadTickets, AutoRefreshLater]
                     else [LoadCells, LoadTickets, AutoRefreshLater, SeedEvents]
    ensures AsksExactly(m, AutoRefresh, cmds)
  {
  }

  lemma OtherMessageAsks(m: Model, msg: Msg, cmds: seq<Cmd>)
    requires !msg.KeyMsg? && !msg.ActionDone? && !msg.WatchTicket? && !msg.UpgradeApplied? && !msg.CellsLoaded? && !msg.AutoRefresh?
    requires cmds == if msg.UpgradeCheck? then [CheckUpgrade, UpgradeCheckLater]
                     else if msg.UpgradeAvailable? then [ApplyUpgrade(msg.tag)]
                     else if msg.WatchEvent? && m.eventWatching then [AwaitEventWatch] else []
    ensures AsksExactly(m, msg, cmds)
  {
  }

  // ------------------------------------------------------------ the upgrade

  predicate Deferred(m: Model, msg: Msg) {
    msg.UpgradeApplied? && msg.outcome == Installed && (m.mode == Compose || m.loading)
  }

  /** An installed upgrade is remembered exactly while work holds it back, and let go exactly by the restart it waited for. */
  lemma DeferredUpgradeIsKept(m: Model, msg: Msg)
    requires m.feed.eventScroll >= 0
    ensures Next(m, msg).m.up.readyTag ==
              if Deferred(m, msg) then msg.appliedTag
              else if Restarts(m, msg) && !msg.UpgradeApplied? then ""
              else m.up.readyTag
  {
    match msg
    case ThreadLoaded(res) => assert Next(m, msg).m == OnThread(m, res);
    case ActionDone(ok) => assert Next(m, msg) == OnActionDone(m, ok);
    case UpgradeApplied(tag, outcome) => assert Next(m, msg) == OnUpgradeApplied(m, tag, outcome);
    case KeyMsg(key, edit) =>
      assert Next(m, msg) == HandleKey(m, key, edit);
      KeyUpgrade(m, key, edit);
    case _ =>
  }

  lemma KeyUpgrade(m: Model, key: Key, edit: Edit)
    requires m.feed.eventScroll >= 0
    ensures HandleKey(m, key, edit).m.up.readyTag == if Restarts(m, KeyMsg(key, edit)) then "" else m.up.readyTag
    ensures HandleKey(m, key, edit).m.up.phase == m.up.phase && HandleKey(m, key, edit).m.up.tag == m.up.tag
  {
    if m.mode == Compose {
      assert HandleKey(m, key, edit) == ComposeKey(m, key, edit);
    } else {
      assert HandleKey(m, key, edit) == ViewKey(m, key);
      if m.mode == List { ListKeyUpgrade(m, key); }
    }
  }

  /** The upgrade's light: on from the offer until the download is refused, waiting for a channel or for work meanwhile. */
  lemma UpgradeLight(m: Model, msg: Msg)
    requires m.feed.eventScroll >= 0
    ensures var up := Next(m, msg).m.up;
            && up.phase == (if msg.UpgradeAvailable? then "installing"
                            else if msg.UpgradeApplied? && msg.outcome == Refused then ""
                            else if msg.UpgradeApplied? && msg.outcome == Noop then "channel-wait"
                            else if Deferred(m, msg) then "ready" else m.up.phase)
            && up.tag == (if msg.UpgradeAvailable? then msg.tag
                          else if msg.UpgradeApplied? && msg.outcome == Refused then "" else m.up.tag)
  {
    match msg
    case ThreadLoaded(res) => assert Next(m, msg).m == OnThread(m, res);
    case ActionDone(ok) => assert Next(m, msg) == OnActionDone(m, ok);
    case UpgradeApplied(tag, outcome) => assert Next(m, msg) == OnUpgradeApplied(m, tag, outcome);
    case KeyMsg(key, edit) =>
      assert Next(m, msg) == HandleKey(m, key, edit);
      KeyUpgrade(m, key, edit);
    case _ =>
  }

  /** A watch that stopped is not waited for again; nothing else turns one off or on. */
  lemma WatchesStopOnce(m: Model, msg: Msg)
    requires m.feed.eventScroll >= 0
    ensures Next(m, msg).m.watching == (m.watching && !msg.WatchStopped?)
    ensures Next(m, msg).m.eventWatching == (m.eventWatching && !msg.EventsWatchStopped?)
  {
    match msg
    case ThreadLoaded(res) => assert Next(m, msg).m == OnThread(m, res);
    case ActionDone(ok) => assert Next(m, msg) == OnActionDone(m, ok);
    case UpgradeApplied(tag, outcome) => assert Next(m, msg) == OnUpgradeApplied(m, tag, outcome);
    case KeyMsg(key, edit) =>
      assert Next(m, msg) == HandleKey(m, key, edit);
      KeyWatches(m, key, edit);
    case _ =>
  }

  lemma KeyWatches(m: Model, key: Key, edit: Edit)
    requires m.feed.eventScroll >= 0
    ensures HandleKey(m, key, edit).m.watching == m.watching && HandleKey(m, key, edit).m.eventWatching == m.eventWatching
  {
    if m.mode == Compose {
      assert HandleKey(m, key, edit) == ComposeKey(m, key, edit);
    } else {
      assert HandleKey(m, key, edit) == ViewKey(m, key);
      if m.mode == List && key == Enter { assert ViewKey(m, key) == OpenSelection(m); }
    }
  }

  // ------------------------------------------------------------ when the fleet moved

  /** Where a cell is. */
  datatype Place = Place(name: string, endpoint: string)

  function PlaceOf(c: FleetCell): Place { Place(c.name, c.endpoint) }

  function Places(cells: seq<FleetCell>): seq<Place>
    decreases |cells|
  {
    if cells == [] then [] else [PlaceOf(cells[0])] + Places(cells[1..])
  }

  predicate Named(cells: seq<FleetCell>) {
    forall i :: 0 <= i < |cells| ==> '\0' !in cells[i].name
  }

  function Spelled(p: Place): string { p.name + "\0" + p.endpoint }

  lemma {:induction false} SpellingIsOwn(p: Place, q: Place)
    requires '\0' !in p.name && '\0' !in q.name
    ensures Spelled(p) == Spelled(q) ==> p == q
  {
    if Spelled(p) == Spelled(q) {
      SplitHead(p.name, '\0', p.endpoint);
      SplitHead(q.name, '\0', q.endpoint);
      assert Spelled(p) == p.name + ['\0'] + p.endpoint && Spelled(q) == q.name + ['\0'] + q.endpoint;
      assert p.name == Split(Spelled(p), '\0')[0] && q.name == Split(Spelled(q), '\0')[0];
      assert p.endpoint == Spelled(p)[|p.name| + 1..] && q.endpoint == Spelled(q)[|q.name| + 1..];
    }
  }

  lemma {:induction false} KeysCountPlaces(cells: seq<FleetCell>, p: Place)
    requires Named(cells) && '\0' !in p.name
    ensures multiset(CellKeys(cells))[Spelled(p)] == multiset(Places(cells))[p]
    decreases |cells|
  {
    if cells == [] {
      assert CellKeys(cells) == [];
    } else {
      var rest := cells[1..];
      KeysCountPlaces(rest, p);
      SpellingIsOwn(PlaceOf(cells[0]), p);
      assert CellKeys(cells) == [Spelled(PlaceOf(cells[0]))] + CellKeys(rest);
    }
  }

  lemma {:induction false} PlacesAreNamed(cells: seq<FleetCell>, p: Place)
    requires Named(cells) && p in Places(cells)
    ensures '\0' !in p.name
    decreases |cells|
  {
    if p != PlaceOf(cells[0]) { PlacesAreNamed(cells[1..], p); }
  }

  /** A reload counts as a change of topology exactly when some cell came, went or moved, in whatever order they are listed. */
  lemma TopologyIsPlaces(before: seq<FleetCell>, after: seq<FleetCell>)
    requires Named(before) && Named(after)
    ensures TopologyChanged(before, after) <==> multiset(Places(before)) != multiset(Places(after))
  {
    if multiset(CellKeys(before)) == multiset(CellKeys(after)) {
      forall p ensures multiset(Places(before))[p] == multiset(Places(after))[p] {
        if '\0' !in p.name {
          KeysCountPlaces(before, p);
          KeysCountPlaces(after, p);
        } else {
          if p in Places(before) { PlacesAreNamed(before, p); }
          if p in Places(after) { PlacesAreNamed(after, p); }
        }
      }
    } else if multiset(Places(before)) == multiset(Places(after)) {
      forall key ensures multiset(CellKeys(before))[key] == multiset(CellKeys(after))[key] {
        if key in CellKeys(before) { KeyIsSpelled(before, key, before, after); }
        if key in CellKeys(after) { KeyIsSpelled(after, key, before, after); }
      }
    }
  }

  lemma KeyIsSpelled(cells: seq<FleetCell>, key: string, before: seq<FleetCell>, after: seq<FleetCell>)
    requires key in CellKeys(cells) && Named(cells) && Named(before) && Named(after)
    requires multiset(Places(before)) == multiset(Places(after))
    ensures multiset(CellKeys(before))[key] == multiset(CellKeys(after))[key]
  {
    var i :| 0 <= i < |cells| && CellKeys(cells)[i] == key;
    var p := PlaceOf(cells[i]);
    assert key == Spelled(p);
    KeysCountPlaces(before, p);
    KeysCountPlaces(after, p);
  }

  /** The last cell listed under its name. */
  predicate LastNamed(cells: seq<FleetCell>, i: int) {
    0 <= i < |cells| && forall j :: i < j < |cells| ==> cells[j].name != cells[i].name
  }

  lemma {:induction false} CellNamedIsLast(cells: seq<FleetCell>, name: string)
    ensures match CellNamed(cells, name)
            case None => forall i :: 0 <= i < |cells| ==> cells[i].name != name
            case Some(c) => c.name == name && exists i :: LastNamed(cells, i) && cells[i] == c
    decreases |cells|
  {
    if cells != [] {
      var last := |cells| - 1;
      if cells[last].name == name {
        assert LastNamed(cells, last);
      } else {
        CellNamedIsLast(cells[..last], name);
        if CellNamed(cells, name).Some? {
          var i :| LastNamed(cells[..last], i) && cells[..last][i] == CellNamed(cells, name).value;
          assert LastNamed(cells, i) && cells[i] == cells[..last][i];
        }
      }
    }
  }

  /** And as a backfill exactly when a cell listed before comes back with other account counts. */
  lemma BackfillIsRecount(before: seq<FleetCell>, after: seq<FleetCell>)
    ensures BackfillChanged(before, after) <==>
              exists i, j :: LastNamed(before, i) && 0 <= j < |after| && Recounted(before[i], after[j])
  {
    if j :| 0 <= j < |after| && CountsDiffer(CellNamed(before, after[j].name), after[j]) {
      CellNamedIsLast(before, after[j].name);
      var i :| LastNamed(before, i) && before[i] == CellNamed(before, after[j].name).value;
      assert Recounted(before[i], after[j]);
    }
    if i, j :| LastNamed(before, i) && 0 <= j < |after| && Recounted(before[i], after[j]) {
      CellNamedIsLast(before, after[j].name);
      var k :| LastNamed(before, k) && before[k] == CellNamed(before, after[j].name).value;
      assert k == i;
      assert CountsDiffer(CellNamed(before, after[j].name), after[j]);
    }
  }

  /** One cell, counted twice with different results. */
  predicate Recounted(was: FleetCell, now: FleetCell) {
    was.name == now.name && (was.accounts, was.archived) != (now.accounts, now.archived)
  }
}
