/**
 What every run of the dashboard keeps: the selection, the target of each command, the text of each
 reply, and the view across a self-upgrade.
 */
module DashboardRuns {
  import opened Prelude
  import opened SupportPane
  import opened Dashboard
  import ET = EventTail

  // ------------------------------------------------------------ the view

  /** The cursor indexes the filtered list, which is in pane order. */
  ghost predicate PaneSane(p: Pane) {
    InRange(Vis(p), p.cursor) && Ordered(p.tickets)
  }

  /** A view that shows a thread or a record holds one. */
  ghost predicate ModeSane(m: Model) {
    && m.feed.eventScroll >= 0 && m.strip.cellCursor >= 0
    && 0 <= m.focus < PANE_COUNT
    && (m.drill.ticketInfoReturn == List || m.drill.ticketInfoReturn == Detail)
    && (m.mode == TicketDetail ==> m.drill.ticket.Some?)
    && (m.mode == EventDetail ==> m.drill.event.Some?)
    && (m.mode == CellDetail ==> m.drill.cell.Some?)
    && (ShowsThread(m) ==> m.talk.thread.Some?)
  }

  predicate ShowsThread(m: Model) {
    m.mode == Detail || m.mode == Compose || (m.mode == TicketDetail && m.drill.ticketInfoReturn == Detail)
  }

  ghost predicate Sane(m: Model) {
    PaneSane(m.pane) && ModeSane(m) && m.up.resume.None?
  }

  predicate MovesCursor(m: Model, msg: Msg) {
    msg.KeyMsg? && m.mode == List && m.focus == PANE_SUPPORT && (msg.key == Up || msg.key == Down)
  }

  /** What a step may do to the pane: leave it, move the cursor inside the list, or re-anchor it. */
  ghost predicate PaneStep(p: Pane, p': Pane, moves: bool) {
    || p' == p
    || (moves && p' == p.(cursor := p'.cursor) && InRange(Vis(p), p'.cursor))
    || (Ordered(p'.tickets) && p' == Reanchored(p, p'.tickets, p'.stateFilter))
  }

  lemma PaneStepIsSane(p: Pane, p': Pane, moves: bool)
    requires PaneSane(p) && PaneStep(p, p', moves)
    ensures PaneSane(p')
    ensures !moves && Selection(p) != "" && HasRow(Vis(p'), Selection(p)) ==> Selection(p') == Selection(p)
  {
  }

  lemma ListKeyPane(m: Model, key: Key)
    requires PaneSane(m.pane) && m.feed.eventScroll >= 0
    ensures PaneStep(m.pane, ListKey(m, key).m.pane, m.focus == PANE_SUPPORT && (key == Up || key == Down))
  {
    if key == Enter { assert ListKey(m, key) == OpenSelection(m); }
  }

  lemma KeyPane(m: Model, key: Key, edit: Edit)
    requires PaneSane(m.pane) && m.feed.eventScroll >= 0
    ensures PaneStep(m.pane, HandleKey(m, key, edit).m.pane, MovesCursor(m, KeyMsg(key, edit)))
  {
    if m.mode == Compose {
      assert HandleKey(m, key, edit) == ComposeKey(m, key, edit);
    } else {
      assert HandleKey(m, key, edit) == ViewKey(m, key);
      if m.mode == List { ListKeyPane(m, key); }
    }
  }

  lemma NextPane(m: Model, msg: Msg)
    requires PaneSane(m.pane) && m.feed.eventScroll >= 0 && m.up.resume.None?
    ensures PaneStep(m.pane, Next(m, msg).m.pane, MovesCursor(m, msg))
  {
    match msg
    case TicketsLoaded(list) =>
      assert Next(m, msg).m == OnTickets(m, list);
      if list.Some? { SortedIsStable(list.value); }
    case WatchTicket(t) =>
      assert Next(m, msg) == OnWatchTicket(m, t);
      UpsertKeepsOthers(m.pane.tickets, t);
    case ThreadLoaded(res) =>
      assert Next(m, msg).m == OnThread(m, res);
    case KeyMsg(key, edit) =>
      assert Next(m, msg) == HandleKey(m, key, edit);
      KeyPane(m, key, edit);
    case _ =>
  }

  // One handler at a time: what each keeps of the mode and of what the mode needs.

  lemma MoveDownMode(m: Model)
    requires ModeSane(m)
    ensures ModeSane(MoveDown(m)) && MoveDown(m).up == m.up
  {
  }

  lemma MoveUpMode(m: Model)
    requires ModeSane(m)
    ensures ModeSane(MoveUp(m)) && MoveUp(m).up == m.up
  {
  }

  lemma OpenMode(m: Model)
    requires ModeSane(m) && m.mode == List
    ensures ModeSane(OpenSelection(m).m) && OpenSelection(m).m.up == m.up
  {
  }

  lemma ListKeyMode(m: Model, key: Key)
    requires ModeSane(m) && m.mode == List
    ensures ModeSane(ListKey(m, key).m) && ListKey(m, key).m.up == m.up
  {
    match key
    case Enter =>
      OpenMode(m);
      assert ListKey(m, key).m == OpenSelection(m).m;
    case Up =>
      MoveUpMode(m);
      assert ListKey(m, key).m == MoveUp(m);
    case Down =>
      MoveDownMode(m);
      assert ListKey(m, key).m == MoveDown(m);
    case _ =>
  }

  lemma ComposeKeyMode(m: Model, key: Key, edit: Edit)
    requires ModeSane(m) && m.mode == Compose
    ensures ModeSane(ComposeKey(m, key, edit).m) && ComposeKey(m, key, edit).m.up.resume == m.up.resume
  {
  }

  lemma LeaveMode(m: Model)
    requires ModeSane(m)
    ensures ModeSane(Leave(m)) && Leave(m).up == m.up
  {
  }

  lemma InspectMode(m: Model)
    requires ModeSane(m)
    ensures ModeSane(InspectTicket(m)) && InspectTicket(m).up == m.up
  {
  }

  lemma StateKeyMode(m: Model, state: string)
    requires ModeSane(m)
    ensures ModeSane(StateKey(m, state).m) && StateKey(m, state).m.up == m.up
  {
  }

  lemma ReplyMode(m: Model)
    requires ModeSane(m) && m.mode != Compose
    ensures ModeSane(ViewKey(m, Reply).m) && ViewKey(m, Reply).m.up == m.up
  {
  }

  lemma ViewKeyMode(m: Model, key: Key)
    requires ModeSane(m) && m.mode != Compose
    ensures ModeSane(ViewKey(m, key).m) && ViewKey(m, key).m.up == m.up
  {
    match key
    case Esc =>
      LeaveMode(m);
      assert ViewKey(m, key).m == Leave(m);
    case Inspect =>
      InspectMode(m);
      assert ViewKey(m, key).m == InspectTicket(m);
    case SetTo(state) =>
      StateKeyMode(m, state);
      assert ViewKey(m, key) == StateKey(m, state);
    case Quit => assert ViewKey(m, key).m == m;
    case CtrlC => assert ViewKey(m, key).m == m;
    case Refresh => assert ViewKey(m, key).m == m.(loading := true);
    case Reply => ReplyMode(m);
    case _ =>
      if m.mode == List {
        ListKeyMode(m, key);
        assert ViewKey(m, key) == ListKey(m, key);
      } else {
        assert ViewKey(m, key).m == m;
      }
  }

  lemma KeyMode(m: Model, key: Key, edit: Edit)
    requires ModeSane(m)
    ensures ModeSane(HandleKey(m, key, edit).m) && HandleKey(m, key, edit).m.up.resume == m.up.resume
  {
    if m.mode == Compose {
      ComposeKeyMode(m, key, edit);
      assert HandleKey(m, key, edit).m == ComposeKey(m, key, edit).m;
    } else {
      ViewKeyMode(m, key);
      assert HandleKey(m, key, edit).m == ViewKey(m, key).m;
    }
  }

  /** What a message that brings no thread leaves alone. */
  predicate Framed(m: Model, m': Model) {
    && m'.mode == m.mode && m'.focus == m.focus && m'.drill == m.drill && m'.talk.thread == m.talk.thread
    && m'.feed.eventScroll >= 0 && m'.strip.cellCursor == m.strip.cellCursor
    && m'.up.resume == m.up.resume && Here(m'.talk) == Here(m.talk)
  }

  lemma ActionDoneFramed(m: Model, ok: bool)
    requires m.feed.eventScroll >= 0
    ensures Framed(m, OnActionDone(m, ok).m)
  {
  }

  lemma UpgradeFramed(m: Model, tag: string, outcome: Applied)
    requires m.feed.eventScroll >= 0
    ensures Framed(m, OnUpgradeApplied(m, tag, outcome).m)
  {
  }

  lemma FeedFramed(m: Model, e: Event)
    requires m.feed.eventScroll >= 0
    ensures Framed(m, m.(feed := ET.Watched(m.feed, e)))
  {
  }

  lemma MessageFrame(m: Model, msg: Msg)
    requires m.feed.eventScroll >= 0 && !msg.KeyMsg? && !(msg.ThreadLoaded? && msg.res.Some?)
    ensures Framed(m, Next(m, msg).m)
  {
    match msg
    case TicketsLoaded(list) => assert Next(m, msg).m == OnTickets(m, list);
    case ThreadLoaded(res) => assert Next(m, msg).m == m.(loading := false);
    case ActionDone(ok) =>
      ActionDoneFramed(m, ok);
      assert Next(m, msg) == OnActionDone(m, ok);
    case WatchTicket(t) => assert Next(m, msg) == OnWatchTicket(m, t);
    case CellsLoaded(cells) => assert Next(m, msg) == OnCells(m, cells);
    case UpgradeApplied(tag, outcome) =>
      UpgradeFramed(m, tag, outcome);
      assert Next(m, msg) == OnUpgradeApplied(m, tag, outcome);
    case WatchEvent(e) =>
      FeedFramed(m, e);
      assert Next(m, msg).m == m.(feed := ET.Watched(m.feed, e));
    case _ =>
  }

  lemma NextMode(m: Model, msg: Msg)
    requires ModeSane(m) && m.up.resume.None?
    ensures ModeSane(Next(m, msg).m) && Next(m, msg).m.up.resume.None?
  {
    if msg.KeyMsg? {
      assert Next(m, msg) == HandleKey(m, msg.key, msg.edit);
      KeyMode(m, msg.key, msg.edit);
    } else if msg.ThreadLoaded? && msg.res.Some? {
      assert Next(m, msg).m == OnThread(m, msg.res);
    } else {
      MessageFrame(m, msg);
    }
  }

  /** Without an armed resume every step keeps the view sane: the cursor always indexes the filtered list. */
  lemma NextKeepsSane(m: Model, msg: Msg)
    requires Sane(m)
    ensures Sane(Next(m, msg).m)
  {
    NextPane(m, msg);
    NextMode(m, msg);
    PaneStepIsSane(m.pane, Next(m, msg).m.pane, MovesCursor(m, msg));
  }

  /** No refresh, live update, re-sort or filter change ever slides another ticket under the cursor. */
  lemma SelectionStays(m: Model, msg: Msg)
    requires Sane(m) && !MovesCursor(m, msg)
    ensures var p' := Next(m, msg).m.pane;
            Selection(m.pane) != "" && HasRow(Vis(p'), Selection(m.pane)) ==> Selection(p') == Selection(m.pane)
  {
    NextPane(m, msg);
    PaneStepIsSane(m.pane, Next(m, msg).m.pane, false);
  }

  /**
   Each cursor key takes back the other in every pane, except on an event scroll or a cell cursor
   that a shorter reload left past the end; shift+tab takes back tab, and four presses of f come round.
   */
  lemma KeysTakeBack(m: Model)
    requires Sane(m) && m.mode == List
    ensures MoveDown(m) != m && m.feed.eventScroll <= |m.feed.events| - 1 ==> MoveUp(MoveDown(m)) == m
    ensures MoveUp(m) != m && m.strip.cellCursor < |m.strip.fleetCells| ==> MoveDown(MoveUp(m)) == m
    ensures ListKey(ListKey(m, Tab).m, ShiftTab).m == m && ListKey(ListKey(m, ShiftTab).m, Tab).m == m
    ensures var f := m.pane.stateFilter;
            f == "" || f == "active" || f == "resolved" || f == "closed" ==> NextFilter(NextFilter(NextFilter(NextFilter(f)))) == f
  {
    assert ListKey(m, Tab).m == m.(focus := (m.focus + 1) % PANE_COUNT);
    assert ListKey(m, ShiftTab).m == m.(focus := (m.focus + 2) % PANE_COUNT);
  }

  /** The ticket whose selected row, drawn thread or record is on screen. */
  ghost predicate OnScreen(m: Model, c: Coords) {
    match m.mode
    case List => m.focus == PANE_SUPPORT && Selected(m.pane).Some? && c == CoordsOf(Selected(m.pane).value)
    case Detail => m.talk.thread.Some? && c == CoordsOf(m.talk.thread.value.ticket)
    case TicketDetail => m.drill.ticket.Some? && c == CoordsOf(m.drill.ticket.value)
    case _ => false
  }

  /** The thread drawn is the one the coordinates name. */
  predicate ShownIsAnswered(m: Model) {
    ShowsThread(m) ==> m.talk.thread.Some? && Here(m.talk) == CoordsOf(m.talk.thread.value.ticket)
  }

  /** Esc takes back every drill-down from the master view and leaves lists, feed, thread and upgrade as they were. */
  lemma EscReturnsToList(m: Model, key: Key)
    requires Sane(m) && m.mode == List && ListKey(m, key).m.mode != List
    ensures var there := ListKey(m, key).m;
            && Leave(there).mode == List
            && Leave(there) == m.(drill := Leave(there).drill)
            && (there.mode == EventDetail ==>
                  m.feed.events != [] && there.drill.event == Some(m.feed.events[ET.SelectedIndex(m.feed.events, m.feed.eventScroll)]))
            && (there.mode == CellDetail ==>
                  m.strip.cellCursor < |m.strip.fleetCells| && there.drill.cell == Some(m.strip.fleetCells[m.strip.cellCursor]))
  {
    if key == Enter { assert ListKey(m, key) == OpenSelection(m); }
  }

  /** The record inspector shows the ticket on screen, actions there name it, and esc goes back to where it was opened. */
  lemma InspectReturns(m: Model)
    requires Sane(m) && (m.mode == List || m.mode == Detail) && InspectTicket(m) != m
    ensures var there := InspectTicket(m);
            && there.mode == TicketDetail && OnScreen(m, CoordsOf(there.drill.ticket.value))
            && ActionTarget(there) == CoordsOf(there.drill.ticket.value)
            && Leave(there) == m.(drill := Leave(there).drill)
  {
  }

  // ------------------------------------------------------------ commands

  predicate Acts(cmd: Cmd) {
    cmd.SetState? || cmd.SendReply?
  }

  /** The one action a step may issue. */
  function ActionOf(m: Model, msg: Msg): Option<Cmd> {
    if !msg.KeyMsg? then None
    else if m.mode == Compose && msg.key == CtrlD && TrimSpace(m.talk.composer.text) != "" then
      Some(SendReply(Here(m.talk), TrimSpace(m.talk.composer.text)))
    else if m.mode != Compose && msg.key.SetTo? && !(m.mode == List && m.focus != PANE_SUPPORT)
            && ActionTarget(m).account != "" then
      Some(SetState(ActionTarget(m), msg.key.state))
    else None
  }

  lemma KeyActions(m: Model, key: Key, edit: Edit)
    requires m.feed.eventScroll >= 0
    ensures var cmds, action := HandleKey(m, key, edit).cmds, ActionOf(m, KeyMsg(key, edit));
            if action.Some? then cmds == [action.value] else forall i :: 0 <= i < |cmds| ==> !Acts(cmds[i])
  {
  }

  lemma NextActions(m: Model, msg: Msg)
    requires m.feed.eventScroll >= 0
    ensures var cmds, action := Next(m, msg).cmds, ActionOf(m, msg);
            if action.Some? then cmds == [action.value] else forall i :: 0 <= i < |cmds| ==> !Acts(cmds[i])
  {
    match msg
    case ActionDone(ok) => assert Next(m, msg) == OnActionDone(m, ok);
    case WatchTicket(t) => assert Next(m, msg) == OnWatchTicket(m, t);
    case UpgradeApplied(tag, outcome) => assert Next(m, msg) == OnUpgradeApplied(m, tag, outcome);
    case KeyMsg(key, edit) =>
      assert Next(m, msg) == HandleKey(m, key, edit);
      KeyActions(m, key, edit);
    case _ =>
  }

  /** The one ticket a state key would act on, if any. */
  predicate Targets(m: Model, c: Coords) {
    m.mode != Compose && !(m.mode == List && m.focus != PANE_SUPPORT) && c == ActionTarget(m) && c.account != ""
  }

  /** States are set by state keys only, and on the action target only. */
  lemma StateChangesAreKeyed(m: Model, msg: Msg, c: Coords, state: string)
    requires m.feed.eventScroll >= 0
    ensures SetState(c, state) in Next(m, msg).cmds <==> msg.KeyMsg? && msg.key == SetTo(state) && Targets(m, c)
  {
    NextActions(m, msg);
  }

  /**
   The ticket a state key acts on is the one on screen, except exactly in a thread view that draws
   another thread than the coordinates name.
   */
  lemma StateChangeIsOnScreenExactly(m: Model, msg: Msg, c: Coords, state: string)
    requires Sane(m) && SetState(c, state) in Next(m, msg).cmds
    ensures OnScreen(m, c) <==> !(m.mode == Detail && Here(m.talk) != CoordsOf(m.talk.thread.value.ticket))
  {
    StateChangesAreKeyed(m, msg, c, state);
  }

  // ------------------------------------------------------------ restarts

  predicate ComposeExit(m: Model, msg: Msg) {
    && msg.KeyMsg? && m.mode == Compose
    && (msg.key == Esc || (msg.key == CtrlD && TrimSpace(m.talk.composer.text) == ""))
  }

  /** Exactly when a step restarts the process. */
  predicate Restarts(m: Model, msg: Msg) {
    || (msg.UpgradeApplied? && msg.outcome == Installed && m.mode != Compose && !m.loading)
    || (m.up.readyTag != "" && ((msg.ActionDone? && msg.ok) || ComposeExit(m, msg)))
  }

  function RestartTag(m: Model, msg: Msg): string {
    if msg.UpgradeApplied? then msg.appliedTag else m.up.readyTag
  }

  lemma KeyRestarts(m: Model, key: Key, edit: Edit)
    requires m.feed.eventScroll >= 0
    ensures var out := HandleKey(m, key, edit);
            if Restarts(m, KeyMsg(key, edit))
            then out.cmds == [Exit] && out.m.up.relaunch == Some(Snapshot(out.m, m.up.readyTag))
            else out.m.up.relaunch == m.up.relaunch
  {
    if m.mode == Compose {
      assert HandleKey(m, key, edit) == ComposeKey(m, key, edit);
    } else {
      assert HandleKey(m, key, edit) == ViewKey(m, key);
      if m.mode == List { ListKeyUpgrade(m, key); }
    }
  }

  lemma ListKeyUpgrade(m: Model, key: Key)
    requires m.feed.eventScroll >= 0
    ensures ListKey(m, key).m.up == m.up
  {
  }

  /**
   A step quits with a snapshot exactly in these cases, and the snapshot is of the view the step
   leaves, so a draft on screen rides along whole.
   */
  lemma RestartsExactly(m: Model, msg: Msg)
    requires m.feed.eventScroll >= 0
    ensures var out := Next(m, msg);
            if Restarts(m, msg)
            then out.cmds == [Exit] && out.m.up.relaunch == Some(Snapshot(out.m, RestartTag(m, msg)))
            else out.m.up.relaunch == m.up.relaunch
  {
    match msg
    case ThreadLoaded(res) => assert Next(m, msg).m == OnThread(m, res);
    case ActionDone(ok) => assert Next(m, msg) == OnActionDone(m, ok);
    case UpgradeApplied(tag, outcome) => assert Next(m, msg) == OnUpgradeApplied(m, tag, outcome);
    case KeyMsg(key, edit) =>
      assert Next(m, msg) == HandleKey(m, key, edit);
      KeyRestarts(m, key, edit);
    case _ =>
  }

  // ------------------------------------------------------------ runs

  /**
   The view, the thread loads and actions under way, and what was typed since compose was last
   entered, where it was entered.
   */
  datatype World = World(m: Model, loads: multiset<Coords>, acting: int, entered: Coords, typed: seq<Edit>)

  /** A message and, for a thread load's answer, which load it answers. */
  datatype Happening = Happening(msg: Msg, answers: Coords)

  function Typed(typed: seq<Edit>): TextArea {
    if typed == [] then BLANK else typed[|typed| - 1](Typed(typed[..|typed| - 1]))
  }

  predicate EntersCompose(m: Model, msg: Msg) {
    msg.KeyMsg? && msg.key == Reply && m.mode == Detail
  }

  /** What the message types into the composer. */
  function Typing(m: Model, msg: Msg): seq<Edit> {
    if m.mode != Compose then []
    else if msg.OtherMsg? then [msg.otherEdit]
    else if msg.KeyMsg? && msg.key != Esc && msg.key != CtrlD && msg.key != CtrlC then [msg.edit]
    else []
  }

  function LoadsOf(cmds: seq<Cmd>): multiset<Coords>
    decreases |cmds|
  {
    if cmds == [] then multiset{}
    else (if cmds[0].LoadThread? then multiset{cmds[0].of} else multiset{}) + LoadsOf(cmds[1..])
  }

  function ActionsOf(cmds: seq<Cmd>): nat
    decreases |cmds|
  {
    if cmds == [] then 0
    else (if cmds[0].SendReply? || cmds[0].SetState? then 1 else 0) + ActionsOf(cmds[1..])
  }

  function StepWorld(g: World, h: Happening): World
    requires g.m.feed.eventScroll >= 0
  {
    var out := Next(g.m, h.msg);
    World(out.m,
          (if h.msg.ThreadLoaded? then g.loads - multiset{h.answers} else g.loads) + LoadsOf(out.cmds),
          g.acting - (if h.msg.ActionDone? then 1 else 0) + ActionsOf(out.cmds),
          if EntersCompose(g.m, h.msg) then Here(out.m.talk) else g.entered,
          if EntersCompose(g.m, h.msg) then [] else g.typed + Typing(g.m, h.msg))
  }

  /** A thread answer answers a load under way, with that load's thread. */
  ghost predicate Possible(g: World, h: Happening) {
    && (h.msg.ThreadLoaded? ==>
          && h.answers in g.loads
          && (h.msg.res.Some? ==> h.answers == Coords(h.msg.res.value.ticket.account, h.msg.res.value.ticket.id)))
    && (h.msg.ActionDone? ==> g.acting > 0)
  }

  ghost predicate Run(g: World, hs: seq<Happening>, end: World)
    decreases |hs|
  {
    if hs == [] then end == g
    else g.m.feed.eventScroll >= 0 && Possible(g, hs[0]) && Run(StepWorld(g, hs[0]), hs[1..], end)
  }

  function Begin(watching: bool, eventWatching: bool): World {
    World(Fresh(watching, eventWatching), multiset{}, 0, Coords("", ""), [])
  }

  // ------------------------------------------------------------ replies

  /** While composing, the coordinates are those at entry and the text is what was typed since. */
  ghost predicate Composing(g: World) {
    g.m.mode == Compose ==> Here(g.m.talk) == g.entered && g.m.talk.composer == Typed(g.typed)
  }

  lemma KeyTalk(m: Model, key: Key, edit: Edit)
    requires ModeSane(m)
    ensures var m' := HandleKey(m, key, edit).m;
            m'.mode == Compose ==>
              if m.mode == Compose
              then Here(m'.talk) == Here(m.talk) && m'.talk.composer == (if key == CtrlC then m.talk.composer else edit(m.talk.composer))
                   && key != Esc && key != CtrlD
              else EntersCompose(m, KeyMsg(key, edit)) && m'.talk.composer == BLANK
  {
    if m.mode == Compose {
      assert HandleKey(m, key, edit) == ComposeKey(m, key, edit);
    } else {
      assert HandleKey(m, key, edit) == ViewKey(m, key);
      if m.mode == List { ListKeyModeIs(m, key); }
    }
  }

  lemma ListKeyModeIs(m: Model, key: Key)
    requires m.feed.eventScroll >= 0 && m.mode == List
    ensures ListKey(m, key).m.mode != Compose
  {
  }

  lemma MessageTalk(m: Model, msg: Msg)
    requires m.feed.eventScroll >= 0 && m.up.resume.None? && !msg.KeyMsg?
    ensures var m' := Next(m, msg).m;
            && Here(m'.talk) == Here(m.talk)
            && (m'.mode == Compose ==> m.mode == Compose)
            && m'.talk.composer == if msg.OtherMsg? && m.mode == Compose then msg.otherEdit(m.talk.composer) else m.talk.composer
  {
    match msg
    case ThreadLoaded(res) => assert Next(m, msg).m == OnThread(m, res);
    case _ =>
  }

  lemma StepKeepsComposing(g: World, h: Happening)
    requires Sane(g.m) && Composing(g)
    ensures Composing(StepWorld(g, h))
  {
    var m, msg := g.m, h.msg;
    var g' := StepWorld(g, h);
    assert g'.m == Next(m, msg).m;
    if msg.KeyMsg? {
      assert Next(m, msg) == HandleKey(m, msg.key, msg.edit);
      KeyTalk(m, msg.key, msg.edit);
    } else {
      MessageTalk(m, msg);
    }
    if g'.m.mode == Compose && !EntersCompose(m, msg) {
      var typing := Typing(m, msg);
      assert g'.typed == g.typed + typing;
      if |typing| == 1 { assert (g.typed + typing)[..|g.typed|] == g.typed; } else { assert g.typed + [] == g.typed; }
    }
  }

  /** Every reply is the trimmed text typed since compose was entered, for the thread it was entered on. */
  lemma ReplyIsWhatWasTyped(g: World, h: Happening, to: Coords, body: string)
    requires Sane(g.m) && Composing(g)
    ensures SendReply(to, body) in Next(g.m, h.msg).cmds ==>
              to == g.entered && body == TrimSpace(Typed(g.typed).text) && body != ""
  {
    NextActions(g.m, h.msg);
  }

  lemma {:induction false} RunKeepsReplies(g: World, hs: seq<Happening>, end: World)
    requires Sane(g.m) && Composing(g) && Run(g, hs, end)
    ensures Sane(end.m) && Composing(end)
    decreases |hs|
  {
    if hs != [] {
      NextKeepsSane(g.m, hs[0].msg);
      StepKeepsComposing(g, hs[0]);
      assert StepWorld(g, hs[0]).m == Next(g.m, hs[0].msg).m;
      RunKeepsReplies(StepWorld(g, hs[0]), hs[1..], end);
    }
  }

  lemma {:induction false} RunIsSane(g: World, hs: seq<Happening>, end: World)
    requires Sane(g.m) && Run(g, hs, end)
    ensures Sane(end.m)
    decreases |hs|
  {
    if hs != [] {
      NextKeepsSane(g.m, hs[0].msg);
      assert StepWorld(g, hs[0]).m == Next(g.m, hs[0].msg).m;
      RunIsSane(StepWorld(g, hs[0]), hs[1..], end);
    }
  }

  /** So it is at every point of every run started without a resume, and the cursor is in range there. */
  lemma FreshRunsReplyHonestly(w: bool, ew: bool, hs: seq<Happening>, end: World, h: Happening, to: Coords, body: string)
    requires Run(Begin(w, ew), hs, end)
    ensures Sane(end.m)
    ensures SendReply(to, body) in Next(end.m, h.msg).cmds ==>
              to == end.entered && body == TrimSpace(Typed(end.typed).text) && body != ""
  {
    assert Visible([], "") == [];
    RunKeepsReplies(Begin(w, ew), hs, end);
    ReplyIsWhatWasTyped(end, h, to, body);
  }

  // ------------------------------------------------------------ the thread on screen

  /** And only that thread is being loaded. */
  ghost predicate ThreadMatches(g: World) {
    ShownIsAnswered(g.m) && forall c :: c in g.loads ==> c == Here(g.m.talk)
  }

  predicate Opens(m: Model, msg: Msg) {
    m.mode == List && m.focus == PANE_SUPPORT && msg.KeyMsg? && msg.key == Enter && Selected(m.pane).Some?
  }

  /** Another ticket is not opened while a thread load is under way. */
  ghost predicate Patient(g: World, h: Happening) {
    Opens(g.m, h.msg) ==> forall c :: c in g.loads ==> c == CoordsOf(Selected(g.m.pane).value)
  }

  /** A step that opens no ticket keeps the coordinates; a thread comes on screen only by its load. */
  ghost predicate ThreadStep(m: Model, msg: Msg, m': Model) {
    && (!Opens(m, msg) ==> Here(m'.talk) == Here(m.talk))
    && (Opens(m, msg) ==> m' == OpenTicket(m, Selected(m.pane).value).m)
    && (ShowsThread(m') ==>
          if msg.ThreadLoaded? && msg.res.Some? then m'.talk.thread == msg.res
          else ShowsThread(m) && m'.talk.thread == m.talk.thread)
  }

  lemma ListKeyThread(m: Model, key: Key, edit: Edit)
    requires ModeSane(m) && m.mode == List
    ensures ThreadStep(m, KeyMsg(key, edit), ListKey(m, key).m)
  {
    if key == Enter { assert ListKey(m, key) == OpenSelection(m); }
  }

  lemma KeyThread(m: Model, key: Key, edit: Edit)
    requires ModeSane(m)
    ensures ThreadStep(m, KeyMsg(key, edit), HandleKey(m, key, edit).m)
  {
    if m.mode == Compose {
      assert HandleKey(m, key, edit) == ComposeKey(m, key, edit);
    } else {
      assert HandleKey(m, key, edit) == ViewKey(m, key);
      if m.mode == List { ListKeyThread(m, key, edit); }
    }
  }

  lemma NextThread(m: Model, msg: Msg)
    requires ModeSane(m) && m.up.resume.None?
    ensures ThreadStep(m, msg, Next(m, msg).m)
  {
    if msg.KeyMsg? {
      assert Next(m, msg) == HandleKey(m, msg.key, msg.edit);
      KeyThread(m, msg.key, msg.edit);
    } else {
      MessageTalk(m, msg);
      if msg.ThreadLoaded? { assert Next(m, msg).m == OnThread(m, msg.res); }
    }
  }

  lemma KeyLoads(m: Model, key: Key, edit: Edit)
    requires ModeSane(m)
    ensures var cmds := HandleKey(m, key, edit).cmds;
            if Opens(m, KeyMsg(key, edit)) then cmds == [LoadThread(CoordsOf(Selected(m.pane).value))]
            else forall i :: 0 <= i < |cmds| ==> !cmds[i].LoadThread?
  {
  }

  /** Whatever thread a step loads is the one its coordinates name. */
  predicate LoadsHere(o: Out) {
    forall i :: 0 <= i < |o.cmds| && o.cmds[i].LoadThread? ==> o.cmds[i].of == Here(o.m.talk)
  }

  lemma KeyLoadsHere(m: Model, key: Key, edit: Edit)
    requires ModeSane(m)
    ensures LoadsHere(HandleKey(m, key, edit))
  {
    KeyLoads(m, key, edit);
    KeyThread(m, key, edit);
  }

  lemma NextLoads(m: Model, msg: Msg)
    requires ModeSane(m) && m.up.resume.None?
    ensures LoadsHere(Next(m, msg))
  {
    match msg
    case ActionDone(ok) => assert Next(m, msg) == OnActionDone(m, ok);
    case WatchTicket(t) => assert Next(m, msg) == OnWatchTicket(m, t);
    case KeyMsg(key, edit) =>
      assert Next(m, msg) == HandleKey(m, key, edit);
      KeyLoadsHere(m, key, edit);
    case UpgradeApplied(tag, outcome) => assert Next(m, msg) == OnUpgradeApplied(m, tag, outcome);
    case _ =>
  }

  lemma {:induction false} LoadsAreFrom(cmds: seq<Cmd>, c: Coords)
    ensures c in LoadsOf(cmds) ==> exists i :: 0 <= i < |cmds| && cmds[i] == LoadThread(c)
    decreases |cmds|
  {
    if cmds != [] && c in LoadsOf(cmds) && cmds[0] != LoadThread(c) {
      LoadsAreFrom(cmds[1..], c);
      var i :| 0 <= i < |cmds[1..]| && cmds[1..][i] == LoadThread(c);
      assert cmds[i + 1] == LoadThread(c);
    }
  }

  /** A load that is under way and not answered stays under way. */
  lemma LoadsStay(g: World, h: Happening, c: Coords)
    requires Sane(g.m) && c in g.loads && !h.msg.ThreadLoaded?
    ensures c in StepWorld(g, h).loads
  {
  }

  lemma PatientStepMatches(g: World, h: Happening)
    requires Sane(g.m) && ThreadMatches(g) && Possible(g, h) && Patient(g, h)
    ensures ThreadMatches(StepWorld(g, h))
  {
    var m, g' := g.m, StepWorld(g, h);
    var cmds := Next(m, h.msg).cmds;
    assert g'.m == Next(m, h.msg).m;
    NextThread(m, h.msg);
    NextLoads(m, h.msg);
    forall c | c in g'.loads ensures c == Here(g'.m.talk) {
      if c in LoadsOf(cmds) {
        LoadsAreFrom(cmds, c);
      } else {
        assert c in g.loads;
      }
    }
  }

  lemma HastyStepParts(g: World, h: Happening)
    requires Sane(g.m) && !Patient(g, h)
    ensures !ThreadMatches(StepWorld(g, h))
  {
    var m := g.m;
    NextThread(m, h.msg);
    var c :| c in g.loads && c != CoordsOf(Selected(m.pane).value);
    LoadsStay(g, h, c);
    assert StepWorld(g, h).m == OpenTicket(m, Selected(m.pane).value).m;
  }

  /** A step keeps thread, coordinates and loads together exactly when it opens no second ticket during a load. */
  lemma StepKeepsThread(g: World, h: Happening)
    requires Sane(g.m) && ThreadMatches(g) && Possible(g, h)
    ensures ThreadMatches(StepWorld(g, h)) <==> Patient(g, h)
  {
    if Patient(g, h) { PatientStepMatches(g, h); } else { HastyStepParts(g, h); }
  }

  /** A thread load lands whose thread the coordinates do not name. */
  predicate CrossedLoad(m: Model, msg: Msg) {
    msg.ThreadLoaded? && msg.res.Some? && CoordsOf(msg.res.value.ticket) != Here(m.talk)
  }

  /** What is drawn and what is answered part exactly when such a load lands. */
  lemma ShownPartsExactly(m: Model, msg: Msg)
    requires Sane(m) && ShownIsAnswered(m)
    ensures ShownIsAnswered(Next(m, msg).m) <==> !CrossedLoad(m, msg)
  {
    NextThread(m, msg);
    NextMode(m, msg);
    if msg.ThreadLoaded? { assert Next(m, msg).m == OnThread(m, msg.res); }
  }

  // Over runs: at every point, and at every step.

  ghost predicate MatchesThroughout(g: World, hs: seq<Happening>)
    decreases |hs|
  {
    ThreadMatches(g) && (hs != [] && g.m.feed.eventScroll >= 0 ==> MatchesThroughout(StepWorld(g, hs[0]), hs[1..]))
  }

  ghost predicate PatientRun(g: World, hs: seq<Happening>)
    decreases |hs|
  {
    hs != [] && g.m.feed.eventScroll >= 0 ==> Patient(g, hs[0]) && PatientRun(StepWorld(g, hs[0]), hs[1..])
  }

  ghost predicate ShownThroughout(g: World, hs: seq<Happening>)
    decreases |hs|
  {
    ShownIsAnswered(g.m) && (hs != [] && g.m.feed.eventScroll >= 0 ==> ShownThroughout(StepWorld(g, hs[0]), hs[1..]))
  }

  ghost predicate CrossedInRun(g: World, hs: seq<Happening>)
    decreases |hs|
  {
    hs != [] && g.m.feed.eventScroll >= 0 && (CrossedLoad(g.m, hs[0].msg) || CrossedInRun(StepWorld(g, hs[0]), hs[1..]))
  }

  /** Thread, coordinates and loads agree all along a run exactly when it never opens a second ticket during a load. */
  lemma {:induction false} MatchesExactlyWhenPatient(g: World, hs: seq<Happening>, end: World)
    requires Sane(g.m) && ThreadMatches(g) && Run(g, hs, end)
    ensures MatchesThroughout(g, hs) <==> PatientRun(g, hs)
    ensures PatientRun(g, hs) ==> ThreadMatches(end)
    decreases |hs|
  {
    if hs != [] {
      var g' := StepWorld(g, hs[0]);
      NextKeepsSane(g.m, hs[0].msg);
      StepKeepsThread(g, hs[0]);
      assert g'.m == Next(g.m, hs[0].msg).m;
      if ThreadMatches(g') { MatchesExactlyWhenPatient(g', hs[1..], end); }
    }
  }

  /** The thread drawn is the one answered all along a run exactly when no crossed load lands in it. */
  lemma {:induction false} ThreadShownIsThreadAnswered(g: World, hs: seq<Happening>, end: World)
    requires Sane(g.m) && ShownIsAnswered(g.m) && Run(g, hs, end)
    ensures ShownThroughout(g, hs) <==> !CrossedInRun(g, hs)
    ensures !CrossedInRun(g, hs) ==> ShownIsAnswered(end.m)
    decreases |hs|
  {
    if hs != [] {
      var g' := StepWorld(g, hs[0]);
      NextKeepsSane(g.m, hs[0].msg);
      ShownPartsExactly(g.m, hs[0].msg);
      assert g'.m == Next(g.m, hs[0].msg).m;
      if ShownIsAnswered(g'.m) { ThreadShownIsThreadAnswered(g', hs[1..], end); }
    }
  }

  /** So no crossed load lands in a run that never opens a second ticket during a load. */
  lemma {:induction false} PatientIsNeverCrossed(g: World, hs: seq<Happening>, end: World)
    requires Sane(g.m) && ThreadMatches(g) && Run(g, hs, end) && PatientRun(g, hs)
    ensures !CrossedInRun(g, hs)
    decreases |hs|
  {
    if hs != [] {
      NextKeepsSane(g.m, hs[0].msg);
      StepKeepsThread(g, hs[0]);
      assert StepWorld(g, hs[0]).m == Next(g.m, hs[0].msg).m;
      PatientIsNeverCrossed(StepWorld(g, hs[0]), hs[1..], end);
    }
  }

  /** And in a run without one every state key acts on the ticket on screen. */
  lemma UncrossedRunsActOnScreen(g: World, hs: seq<Happening>, end: World, msg: Msg, c: Coords, state: string)
    requires Sane(g.m) && ShownIsAnswered(g.m) && Run(g, hs, end) && !CrossedInRun(g, hs)
    ensures Sane(end.m)
    ensures SetState(c, state) in Next(end.m, msg).cmds ==> OnScreen(end.m, c)
  {
    RunIsSane(g, hs, end);
    ThreadShownIsThreadAnswered(g, hs, end);
    if SetState(c, state) in Next(end.m, msg).cmds { StateChangeIsOnScreenExactly(end.m, msg, c, state); }
  }
}
