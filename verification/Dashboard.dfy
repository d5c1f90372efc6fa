/**
 The operator dashboard (cmd/witself-admin/tui_model.go): one pure step function over the whole
 view state, as the program's Update and handleKey, and the commands each step issues.
 */
module Dashboard {
  import opened Prelude
  import opened SupportPane
  import ET = EventTail

  type Event = ET.Event

  datatype Mode = List | Detail | Compose | EventDetail | CellDetail | TicketDetail | Health

  const PANE_CELLS := 0
  const PANE_SUPPORT := 1
  const PANE_EVENTS := 2
  const PANE_COUNT := 3

  datatype FleetCell = FleetCell(name: string, endpoint: string, accounts: int, archived: int)

  datatype Thread = Thread(ticket: Ticket, messages: seq<string>)

  /** The composer's text and caret; what a key does to them is the text area's own business. */
  datatype TextArea = TextArea(text: string, caret: int)

  type Edit = TextArea -> TextArea

  const BLANK := TextArea("", 0)

  datatype Coords = Coords(account: string, ticket: string)

  /** resumeState: the view snapshot that survives a self-upgrade. */
  datatype Resume = Resume(mode: string, cursor: int, threadAccount: string, threadTicket: string,
                           draft: string, upgradedTo: string)

  /** The support pane. */
  datatype Pane = Pane(tickets: seq<Ticket>, stateFilter: string, cursor: int)

  /** The fleet strip. */
  datatype Strip = Strip(fleetCells: seq<FleetCell>, cellCursor: int)

  type Feed = ET.Feed

  /** Copies under the drill-down views, and where the ticket record returns to. */
  datatype Drill = Drill(event: Option<Event>, cell: Option<FleetCell>, ticket: Option<Ticket>, ticketInfoReturn: Mode)

  /** The thread on screen, the coordinates actions use, and the composer. */
  datatype Talk = Talk(thread: Option<Thread>, account: string, ticket: string, composer: TextArea)

  datatype Upgrade = Upgrade(phase: string, tag: string, readyTag: string, relaunch: Option<Resume>, resume: Option<Resume>)

  datatype Model = Model(mode: Mode, focus: int, loading: bool, pane: Pane, strip: Strip, feed: Feed, drill: Drill,
                         talk: Talk, watching: bool, eventWatching: bool, up: Upgrade)

  datatype Applied = Installed | Noop | Refused

  datatype Key =
    | Esc | CtrlD | CtrlC | Quit | Refresh | Tab | ShiftTab | FilterKey | Down | Up | Enter | HealthKey
    | Inspect | Reply | SetTo(state: string) | OtherKey

  datatype Msg =
    | WindowSize
    | TicketsLoaded(list: Option<seq<Ticket>>)
    | ThreadLoaded(res: Option<Thread>)
    | ActionDone(ok: bool)
    | WatchTicket(ticket: Ticket)
    | WatchStopped
    | CellsLoaded(cells: Option<seq<FleetCell>>)
    | EventsSeed(events: Option<seq<Event>>)
    | WatchEvent(event: Event)
    | EventsWatchStopped
    | AutoRefresh
    | UpgradeCheck
    | UpgradeAvailable(tag: string)
    | UpgradeApplied(appliedTag: string, outcome: Applied)
    | KeyMsg(key: Key, edit: Edit)
    | OtherMsg(otherEdit: Edit)

  datatype Cmd =
    | LoadTickets | LoadThread(of: Coords) | LoadCells | SeedEvents
    | AwaitWatch | AwaitEventWatch | AutoRefreshLater | CheckUpgrade | UpgradeCheckLater | ApplyUpgrade(tag: string)
    | SendReply(to: Coords, body: string)
    | SetState(target: Coords, state: string)
    | Exit

  datatype Out = Out(m: Model, cmds: seq<Cmd>)

  function Fresh(watching: bool, eventWatching: bool): Model {
    Model(List, PANE_SUPPORT, true, Pane([], "", 0), Strip([], 0), ET.Feed([], 0, 0), Drill(None, None, None, List),
          Talk(None, "", "", BLANK), watching, eventWatching, Upgrade("", "", "", None, None))
  }

  // ------------------------------------------------------------ reads

  function Vis(p: Pane): seq<Ticket> {
    Visible(p.tickets, p.stateFilter)
  }

  function Selected(p: Pane): Option<Ticket> {
    if 0 <= p.cursor < |Vis(p)| then Some(Vis(p)[p.cursor]) else None
  }

  function Selection(p: Pane): string {
    SelectedId(Vis(p), p.cursor)
  }

  function CoordsOf(t: Ticket): Coords {
    Coords(t.account, t.id)
  }

  function Here(t: Talk): Coords {
    Coords(t.account, t.ticket)
  }

  const NOWHERE := Coords("", "")

  function ActionTarget(m: Model): Coords {
    match m.mode
    case List => if Selected(m.pane).Some? then CoordsOf(Selected(m.pane).value) else NOWHERE
    case Detail => if m.talk.account != "" then Here(m.talk) else NOWHERE
    case Compose => if m.talk.account != "" then Here(m.talk) else NOWHERE
    case TicketDetail => if m.drill.ticket.Some? then CoordsOf(m.drill.ticket.value) else NOWHERE
    case _ => NOWHERE
  }

  function ModeName(mode: Mode): string {
    match mode
    case List => "list"
    case Detail => "detail"
    case Compose => "compose"
    case Health => "health"
    case _ => ""
  }

  function Snapshot(m: Model, tag: string): Resume {
    Resume(ModeName(m.mode), m.pane.cursor,
           if m.mode == Health then "" else m.talk.account, if m.mode == Health then "" else m.talk.ticket,
           if m.mode == Compose then m.talk.composer.text else "", tag)
  }

  // ------------------------------------------------------------ relaunch

  function RelaunchIfReady(m: Model): Out {
    if m.up.readyTag != "" then
      Out(m.(up := m.up.(relaunch := Some(Snapshot(m, m.up.readyTag)), readyTag := "")), [Exit])
    else Out(m, [])
  }

  // ------------------------------------------------------------ messages

  function Reanchored(p: Pane, tickets: seq<Ticket>, stage: string): Pane {
    Pane(tickets, stage, Anchored(Visible(tickets, stage), Selection(p), p.cursor))
  }

  function OnTickets(m: Model, list: Option<seq<Ticket>>): Model {
    m.(loading := false,
       pane := if list.None? then m.pane else Reanchored(m.pane, Sorted(list.value), m.pane.stateFilter))
  }

  /** The one-shot restore of the view a self-upgrade carried over. */
  function Restore(m: Model, r: Resume): Model {
    m.(pane := m.pane.(cursor := Min(r.cursor, Max(|m.pane.tickets| - 1, 0))),
       up := m.up.(resume := None),
       mode := if r.mode == "compose" then Compose else m.mode,
       talk := if r.mode == "compose" then m.talk.(composer := TextArea(r.draft, |r.draft|)) else m.talk)
  }

  function OnThread(m: Model, res: Option<Thread>): Model {
    if res.None? then m.(loading := false)
    else
      var shown := m.(loading := false, talk := m.talk.(thread := res), mode := if m.mode == Compose then Compose else Detail);
      if m.up.resume.Some? then Restore(shown, m.up.resume.value) else shown
  }

  function OnActionDone(m: Model, ok: bool): Out {
    var m := m.(loading := false);
    if !ok then Out(m, [])
    else if m.up.readyTag != "" then RelaunchIfReady(m)
    else Out(m, if m.mode == Detail && m.talk.account != "" then [LoadTickets, LoadThread(Here(m.talk))] else [LoadTickets])
  }

  function OnWatchTicket(m: Model, t: Ticket): Out {
    Out(m.(pane := Reanchored(m.pane, Upserted(m.pane.tickets, t), m.pane.stateFilter)),
        (if (m.mode == Detail || m.mode == Compose) && t.id == m.talk.ticket then [LoadThread(Here(m.talk))] else [])
        + if m.watching then [AwaitWatch] else [])
  }

  /** What identifies a cell's place: its name and endpoint with a NUL between. */
  function CellKeys(cells: seq<FleetCell>): (keys: seq<string>)
    ensures |keys| == |cells|
    ensures forall i :: 0 <= i < |cells| ==> keys[i] == cells[i].name + "\0" + cells[i].endpoint
  {
    seq(|cells|, i requires 0 <= i < |cells| => cells[i].name + "\0" + cells[i].endpoint)
  }

  /** A cell came, went or moved. */
  predicate TopologyChanged(before: seq<FleetCell>, after: seq<FleetCell>) {
    multiset(CellKeys(before)) != multiset(CellKeys(after))
  }

  /** The last cell listed under a name. */
  function CellNamed(cells: seq<FleetCell>, name: string): Option<FleetCell>
    decreases |cells|
  {
    if cells == [] then None
    else if cells[|cells| - 1].name == name then Some(cells[|cells| - 1])
    else CellNamed(cells[..|cells| - 1], name)
  }

  /** The account counts of a cell listed before changed. */
  predicate BackfillChanged(before: seq<FleetCell>, after: seq<FleetCell>) {
    exists i :: 0 <= i < |after| && CountsDiffer(CellNamed(before, after[i].name), after[i])
  }

  predicate CountsDiffer(was: Option<FleetCell>, c: FleetCell) {
    was.Some? && (was.value.accounts != c.accounts || was.value.archived != c.archived)
  }

  function OnCells(m: Model, cells: Option<seq<FleetCell>>): Out {
    if cells.None? then Out(m, [])
    else Out(m.(strip := m.strip.(fleetCells := cells.value)),
             if TopologyChanged(m.strip.fleetCells, cells.value) || BackfillChanged(m.strip.fleetCells, cells.value) then [SeedEvents] else [])
  }

  function OnUpgradeApplied(m: Model, tag: string, outcome: Applied): Out {
    match outcome
    case Refused => Out(m.(up := m.up.(phase := "", tag := "")), [])
    case Noop => Out(m.(up := m.up.(phase := "channel-wait")), [])
    case Installed =>
      if m.mode == Compose || m.loading then Out(m.(up := m.up.(readyTag := tag, phase := "ready")), [])
      else Out(m.(up := m.up.(relaunch := Some(Snapshot(m, tag)))), [Exit])
  }

  // ------------------------------------------------------------ keys

  function ComposeKey(m: Model, key: Key, edit: Edit): Out {
    match key
    case Esc => RelaunchIfReady(m.(talk := m.talk.(composer := BLANK), mode := Detail))
    case CtrlD =>
      var body := TrimSpace(m.talk.composer.text);
      if body == "" then RelaunchIfReady(m.(mode := Detail))
      else Out(m.(talk := m.talk.(composer := BLANK), mode := Detail, loading := true), [SendReply(Here(m.talk), body)])
    case CtrlC => Out(m, [Exit])
    case _ => Out(m.(talk := m.talk.(composer := edit(m.talk.composer))), [])
  }

  function NextFilter(stage: string): string {
    if stage == "" then "active"
    else if stage == "active" then "resolved"
    else if stage == "resolved" then "closed"
    else ""
  }

  function MoveDown(m: Model): Model {
    if m.focus == PANE_SUPPORT then
      (if m.pane.cursor < |Vis(m.pane)| - 1 then m.(pane := m.pane.(cursor := m.pane.cursor + 1)) else m)
    else if m.focus == PANE_EVENTS then
      m.(feed := ET.Newer(m.feed))
    else if m.strip.cellCursor < |m.strip.fleetCells| - 1 then m.(strip := m.strip.(cellCursor := m.strip.cellCursor + 1))
    else m
  }

  function MoveUp(m: Model): Model {
    if m.focus == PANE_SUPPORT then
      (if m.pane.cursor > 0 then m.(pane := m.pane.(cursor := m.pane.cursor - 1)) else m)
    else if m.focus == PANE_EVENTS then
      m.(feed := ET.Older(m.feed))
    else if m.strip.cellCursor > 0 then m.(strip := m.strip.(cellCursor := m.strip.cellCursor - 1))
    else m
  }

  function OpenTicket(m: Model, t: Ticket): Out {
    Out(m.(talk := m.talk.(account := t.account, ticket := t.id), loading := true), [LoadThread(CoordsOf(t))])
  }

  function OpenSelection(m: Model): Out
    requires m.feed.eventScroll >= 0
  {
    if m.focus == PANE_SUPPORT then
      if Selected(m.pane).Some? then OpenTicket(m, Selected(m.pane).value) else Out(m, [])
    else if m.focus == PANE_EVENTS then
      if m.feed.events == [] then Out(m, [])
      else Out(m.(drill := m.drill.(event := Some(m.feed.events[ET.SelectedIndex(m.feed.events, m.feed.eventScroll)])),
                  mode := EventDetail), [])
    else
      if 0 <= m.strip.cellCursor < |m.strip.fleetCells| then
        Out(m.(drill := m.drill.(cell := Some(m.strip.fleetCells[m.strip.cellCursor])), mode := CellDetail), [])
      else Out(m, [])
  }

  function Leave(m: Model): Model {
    match m.mode
    case Detail => m.(mode := List, talk := m.talk.(thread := None))
    case EventDetail => m.(mode := List, drill := m.drill.(event := None))
    case CellDetail => m.(mode := List, drill := m.drill.(cell := None))
    case TicketDetail => m.(mode := m.drill.ticketInfoReturn, drill := m.drill.(ticket := None))
    case Health => m.(mode := List)
    case _ => m
  }

  /** The thread's own record lacks its cell; the list row supplies it when there is one. */
  function WithCell(t: Ticket, tickets: seq<Ticket>): Ticket {
    var row := FirstRow(tickets, t.id);
    t.(cell := if row < |tickets| then tickets[row].cell else "")
  }

  function InspectTicket(m: Model): Model {
    if m.mode == List && m.focus == PANE_SUPPORT then
      if Selected(m.pane).Some? then
        m.(drill := m.drill.(ticket := Selected(m.pane), ticketInfoReturn := List), mode := TicketDetail)
      else m
    else if m.mode == Detail && m.talk.thread.Some? then
      var t := WithCell(m.talk.thread.value.ticket, m.pane.tickets);
      m.(drill := m.drill.(ticket := Some(t), ticketInfoReturn := Detail), mode := TicketDetail)
    else m
  }

  function StateKey(m: Model, state: string): Out {
    if m.mode == List && m.focus != PANE_SUPPORT then Out(m, [])
    else if ActionTarget(m).account == "" then Out(m, [])
    else Out(m.(loading := true), [SetState(ActionTarget(m), state)])
  }

  /** The keys that only act in the master view. */
  function ListKey(m: Model, key: Key): Out
    requires m.feed.eventScroll >= 0
  {
    match key
    case Tab => Out(m.(focus := (m.focus + 1) % PANE_COUNT), [])
    case ShiftTab => Out(m.(focus := (m.focus + (PANE_COUNT - 1)) % PANE_COUNT), [])
    case FilterKey =>
      Out(if m.focus == PANE_SUPPORT then m.(pane := Reanchored(m.pane, m.pane.tickets, NextFilter(m.pane.stateFilter))) else m, [])
    case Down => Out(MoveDown(m), [])
    case Up => Out(MoveUp(m), [])
    case Enter => OpenSelection(m)
    case HealthKey => Out(m.(mode := Health), [])
    case _ => Out(m, [])
  }

  /** The keys outside the composer. */
  function ViewKey(m: Model, key: Key): Out
    requires m.feed.eventScroll >= 0
  {
    match key
    case Quit => Out(m, [Exit])
    case CtrlC => Out(m, [Exit])
    case Refresh => Out(m.(loading := true), [LoadTickets, LoadCells, SeedEvents])
    case Esc => Out(Leave(m), [])
    case Inspect => Out(InspectTicket(m), [])
    case Reply => Out(if m.mode == Detail then m.(talk := m.talk.(composer := BLANK), mode := Compose) else m, [])
    case SetTo(state) => StateKey(m, state)
    case _ => if m.mode == List then ListKey(m, key) else Out(m, [])
  }

  function HandleKey(m: Model, key: Key, edit: Edit): Out
    requires m.feed.eventScroll >= 0
  {
    if m.mode == Compose then ComposeKey(m, key, edit) else ViewKey(m, key)
  }

  /** Update. */
  function Next(m: Model, msg: Msg): Out
    requires m.feed.eventScroll >= 0
  {
    match msg
    case WindowSize => Out(m, [])
    case TicketsLoaded(list) => Out(OnTickets(m, list), [])
    case ThreadLoaded(res) => Out(OnThread(m, res), [])
    case UpgradeCheck => Out(m, [CheckUpgrade, UpgradeCheckLater])
    case UpgradeAvailable(tag) => Out(m.(up := m.up.(phase := "installing", tag := tag)), [ApplyUpgrade(tag)])
    case UpgradeApplied(tag, outcome) => OnUpgradeApplied(m, tag, outcome)
    case ActionDone(ok) => OnActionDone(m, ok)
    case WatchTicket(t) => OnWatchTicket(m, t)
    case WatchStopped => Out(m.(watching := false), [])
    case CellsLoaded(cells) => OnCells(m, cells)
    case EventsSeed(events) =>
      Out(if events.None? then m else m.(feed := m.feed.(events := ET.Reversed(events.value))), [])
    case WatchEvent(e) => Out(m.(feed := ET.Watched(m.feed, e)), if m.eventWatching then [AwaitEventWatch] else [])
    case EventsWatchStopped => Out(m.(eventWatching := false), [])
    case AutoRefresh =>
      Out(m, if m.eventWatching then [LoadCells, LoadTickets, AutoRefreshLater]
             else [LoadCells, LoadTickets, AutoRefreshLater, SeedEvents])
    case KeyMsg(key, edit) => HandleKey(m, key, edit)
    case OtherMsg(edit) => Out(if m.mode == Compose then m.(talk := m.talk.(composer := edit(m.talk.composer))) else m, [])
  }

  // ------------------------------------------------------------ start and resume

  function WithResume(m: Model, r: Resume): Model {
    var seeded := if r.threadAccount != "" then m.(talk := m.talk.(account := r.threadAccount, ticket := r.threadTicket)) else m;
    if r.mode == "health" then seeded.(mode := Health, up := m.up.(resume := None))
    else seeded.(up := m.up.(resume := Some(r)))
  }

  /** The thread load Init issues for a model that carries a resume. */
  function StartupLoad(m: Model): Option<Coords> {
    if m.up.resume.Some? && m.up.resume.value.threadAccount != ""
    then Some(Coords(m.up.resume.value.threadAccount, m.up.resume.value.threadTicket)) else None
  }
}
