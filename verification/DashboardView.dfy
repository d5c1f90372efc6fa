/**
 Update and handleKey as the program runs them (cmd/witself-admin/tui_model.go): one statement after
 the other on the model, with its loops, each handler equal to the step function the proofs are about.
 */
module DashboardView {
  import opened Prelude
  import SP = SupportPane
  import opened Dashboard
  import ET = EventTail

  // ------------------------------------------------------------ comparing two loads of the fleet

  /** The loop that spells each cell's name and endpoint. */
  method SpellCells(cells: seq<FleetCell>) returns (keys: seq<string>)
    ensures keys == CellKeys(cells)
  {
    keys := [];
    for i := 0 to |cells|
      invariant |keys| == i && forall k :: 0 <= k < i ==> keys[k] == cells[k].name + "\0" + cells[k].endpoint
    {
      keys := keys + [cells[i].name + "\0" + cells[i].endpoint];
    }
  }

  /** The loop over two lists of one length. */
  method DifferSomewhere(was: seq<string>, now: seq<string>) returns (differ: bool)
    requires |was| == |now|
    ensures differ <==> was != now
  {
    for i := 0 to |was|
      invariant forall k :: 0 <= k < i ==> was[k] == now[k]
    {
      if was[i] != now[i] { return true; }
    }
    return false;
  }

  lemma SortKeepsLength(s: seq<string>)
    ensures |SortStrings(s)| == |s|
  {
    SortStringsInOrder(s);
    assert |multiset(SortStrings(s))| == |SortStrings(s)| && |multiset(s)| == |s|;
  }

  lemma SameBagSameLength(a: seq<string>, b: seq<string>)
    requires multiset(a) == multiset(b)
    ensures |a| == |b|
  {
    assert |multiset(a)| == |a| && |multiset(b)| == |b|;
  }

  /** Sorted by spelling, the two lists differ somewhere: a cell came, went or moved. */
  method CellTopologyChanged(before: seq<FleetCell>, after: seq<FleetCell>) returns (changed: bool)
    ensures changed <==> TopologyChanged(before, after)
  {
    if !TopologyChanged(before, after) { SameBagSameLength(CellKeys(before), CellKeys(after)); }
    if |before| != |after| { return true; }
    var was := SpellCells(before);
    var now := SpellCells(after);
    SortKeepsLength(was);
    SortKeepsLength(now);
    SortsAlikeExactly(was, now);
    changed := DifferSomewhere(SortStrings(was), SortStrings(now));
  }

  /** The cells by name, the last of each name winning. */
  method ByName(cells: seq<FleetCell>) returns (byName: map<string, FleetCell>)
    ensures forall name :: CellNamed(cells, name) == if name in byName then Some(byName[name]) else None
  {
    byName := map[];
    for i := 0 to |cells|
      invariant forall name :: CellNamed(cells[..i], name) == if name in byName then Some(byName[name]) else None
    {
      assert cells[..i + 1][..i] == cells[..i];
      byName := byName[cells[i].name := cells[i]];
    }
    assert cells[..|cells|] == cells;
  }

  method CellEventBackfillChanged(before: seq<FleetCell>, after: seq<FleetCell>) returns (changed: bool)
    ensures changed <==> BackfillChanged(before, after)
  {
    if |before| == 0 && |after| == 0 { return false; }
    var was := ByName(before);
    for i := 0 to |after|
      invariant forall k :: 0 <= k < i ==> !CountsDiffer(CellNamed(before, after[k].name), after[k])
    {
      var c := after[i];
      if c.name in was && (was[c.name].accounts != c.accounts || was[c.name].archived != c.archived) {
        assert CountsDiffer(CellNamed(before, after[i].name), after[i]);
        return true;
      }
    }
    return false;
  }

  class Program {
    var m: Model

    constructor (watching: bool, eventWatching: bool)
      ensures m == Fresh(watching, eventWatching)
    {
      m := Fresh(watching, eventWatching);
    }

    method SelectedId() returns (id: string)
      ensures id == Selection(m.pane)
    {
      var vis := SP.VisibleTickets(m.pane.tickets, m.pane.stateFilter);
      id := if 0 <= m.pane.cursor < |vis| then vis[m.pane.cursor].id else "";
    }

    method AnchorCursor(id: string)
      modifies this
      ensures m == old(m).(pane := old(m.pane).(cursor := SP.Anchored(Vis(old(m.pane)), id, old(m.pane.cursor))))
    {
      var vis := SP.VisibleTickets(m.pane.tickets, m.pane.stateFilter);
      var cursor := SP.AnchorCursor(vis, id, m.pane.cursor);
      m := m.(pane := m.pane.(cursor := cursor));
    }

    method RelaunchWhenReady() returns (cmds: seq<Cmd>)
      modifies this
      ensures Out(m, cmds) == RelaunchIfReady(old(m))
      ensures Exit in cmds <==> old(m.up.readyTag) != ""
      ensures Exit in cmds ==> m.up.relaunch == Some(Snapshot(m, old(m.up.readyTag)))
                               && (m.mode == Compose ==> m.up.relaunch.value.draft == old(m.talk.composer.text))
      ensures m.up.readyTag == "" && m.pane == old(m.pane) && m.talk == old(m.talk) && m.mode == old(m.mode)
    {
      if m.up.readyTag == "" { return []; }
      m := m.(up := m.up.(relaunch := Some(Snapshot(m, m.up.readyTag))));
      m := m.(up := m.up.(readyTag := ""));
      return [Exit];
    }

    // ---------------------------------------------------------- messages

    method TicketsArrive(list: Option<seq<SP.Ticket>>)
      modifies this
      ensures m == OnTickets(old(m), list)
    {
      m := m.(loading := false);
      if list.None? { return; }
      var anchor := SelectedId();
      m := m.(pane := m.pane.(tickets := SP.Sorted(list.value)));
      AnchorCursor(anchor);
    }

    method ThreadArrives(res: Option<Thread>)
      modifies this
      ensures m == OnThread(old(m), res)
    {
      m := m.(loading := false);
      if res.None? { return; }
      m := m.(talk := m.talk.(thread := res));
      if m.mode != Compose { m := m.(mode := Detail); }
      if m.up.resume.Some? {
        var r := m.up.resume.value;
        m := m.(pane := m.pane.(cursor := Min(r.cursor, Max(|m.pane.tickets| - 1, 0))));
        if r.mode == "compose" {
          m := m.(mode := Compose);
          m := m.(talk := m.talk.(composer := TextArea(r.draft, |r.draft|)));
        }
        m := m.(up := m.up.(resume := None));
      }
    }

    method ActionEnds(ok: bool) returns (cmds: seq<Cmd>)
      modifies this
      ensures Out(m, cmds) == OnActionDone(old(m), ok)
    {
      m := m.(loading := false);
      if !ok { return []; }
      if m.up.readyTag != "" {
        cmds := RelaunchWhenReady();
        return;
      }
      cmds := [LoadTickets];
      if m.mode == Detail && m.talk.account != "" { cmds := cmds + [LoadThread(Here(m.talk))]; }
    }

    method TicketChanges(t: SP.Ticket) returns (cmds: seq<Cmd>)
      modifies this
      ensures Out(m, cmds) == OnWatchTicket(old(m), t)
    {
      var anchor := SelectedId();
      var tickets := SP.UpsertTicket(m.pane.tickets, t);
      m := m.(pane := m.pane.(tickets := tickets));
      AnchorCursor(anchor);
      cmds := [];
      if (m.mode == Detail || m.mode == Compose) && t.id == m.talk.ticket { cmds := cmds + [LoadThread(Here(m.talk))]; }
      if m.watching { cmds := cmds + [AwaitWatch]; }
    }

    method EventArrives(e: Event) returns (cmds: seq<Cmd>)
      modifies this
      ensures Out(m, cmds) == Out(old(m).(feed := ET.Watched(old(m.feed), e)), if old(m.eventWatching) then [AwaitEventWatch] else [])
    {
      var events, added := ET.AppendEvent(m.feed.events, e);
      m := m.(feed := m.feed.(events := events));
      if added { m := m.(feed := m.feed.(eventsSeen := m.feed.eventsSeen + 1)); }
      if m.feed.eventScroll > 0 && added {
        m := m.(feed := m.feed.(eventScroll := Min(m.feed.eventScroll + 1, |m.feed.events| - 1)));
      }
      cmds := if m.eventWatching then [AwaitEventWatch] else [];
    }

    method UpgradeEnds(tag: string, outcome: Applied) returns (cmds: seq<Cmd>)
      modifies this
      ensures Out(m, cmds) == OnUpgradeApplied(old(m), tag, outcome)
    {
      if outcome == Refused {
        m := m.(up := m.up.(phase := "", tag := ""));
        return [];
      }
      if outcome == Noop {
        m := m.(up := m.up.(phase := "channel-wait"));
        return [];
      }
      if m.mode == Compose || m.loading {
        m := m.(up := m.up.(readyTag := tag));
        m := m.(up := m.up.(phase := "ready"));
        return [];
      }
      m := m.(up := m.up.(relaunch := Some(Snapshot(m, tag))));
      return [Exit];
    }

    // ---------------------------------------------------------- keys

    method ComposerKey(key: Key, edit: Edit) returns (cmds: seq<Cmd>)
      modifies this
      ensures Out(m, cmds) == ComposeKey(old(m), key, edit)
    {
      if key == Esc {
        m := m.(talk := m.talk.(composer := BLANK));
        m := m.(mode := Detail);
        cmds := RelaunchWhenReady();
      } else if key == CtrlD {
        var body := TrimSpace(m.talk.composer.text);
        if body == "" {
          m := m.(mode := Detail);
          cmds := RelaunchWhenReady();
          return;
        }
        var to := Here(m.talk);
        m := m.(talk := m.talk.(composer := BLANK));
        m := m.(mode := Detail);
        m := m.(loading := true);
        cmds := [SendReply(to, body)];
      } else if key == CtrlC {
        cmds := [Exit];
      } else {
        m := m.(talk := m.talk.(composer := edit(m.talk.composer)));
        cmds := [];
      }
    }

    method CycleFilter()
      modifies this
      ensures m == old(m).(pane := Reanchored(old(m.pane), old(m.pane.tickets), NextFilter(old(m.pane.stateFilter))))
    {
      var anchor := SelectedId();
      if m.pane.stateFilter == "" {
        m := m.(pane := m.pane.(stateFilter := "active"));
      } else if m.pane.stateFilter == "active" {
        m := m.(pane := m.pane.(stateFilter := "resolved"));
      } else if m.pane.stateFilter == "resolved" {
        m := m.(pane := m.pane.(stateFilter := "closed"));
      } else {
        m := m.(pane := m.pane.(stateFilter := ""));
      }
      AnchorCursor(anchor);
    }

    method CursorDown()
      modifies this
      ensures m == MoveDown(old(m))
    {
      if m.focus == PANE_SUPPORT {
        var vis := SP.VisibleTickets(m.pane.tickets, m.pane.stateFilter);
        if m.pane.cursor < |vis| - 1 { m := m.(pane := m.pane.(cursor := m.pane.cursor + 1)); }
      } else if m.focus == PANE_EVENTS {
        if m.feed.eventScroll > 0 { m := m.(feed := m.feed.(eventScroll := m.feed.eventScroll - 1)); }
      } else {
        if m.strip.cellCursor < |m.strip.fleetCells| - 1 {
          m := m.(strip := m.strip.(cellCursor := m.strip.cellCursor + 1));
        }
      }
    }

    method CursorUp()
      modifies this
      ensures m == MoveUp(old(m))
    {
      if m.focus == PANE_SUPPORT {
        if m.pane.cursor > 0 { m := m.(pane := m.pane.(cursor := m.pane.cursor - 1)); }
      } else if m.focus == PANE_EVENTS {
        if m.feed.eventScroll < |m.feed.events| - 1 {
          m := m.(feed := m.feed.(eventScroll := m.feed.eventScroll + 1));
        }
      } else {
        if m.strip.cellCursor > 0 { m := m.(strip := m.strip.(cellCursor := m.strip.cellCursor - 1)); }
      }
    }

    /** The row under the cursor of the filtered list. */
    method SelectedTicket() returns (t: Option<SP.Ticket>)
      ensures t == Selected(m.pane)
    {
      var vis := SP.VisibleTickets(m.pane.tickets, m.pane.stateFilter);
      if m.pane.cursor < 0 || m.pane.cursor >= |vis| { return None; }
      return Some(vis[m.pane.cursor]);
    }

    method OpenSelected() returns (cmds: seq<Cmd>)
      requires m.feed.eventScroll >= 0
      modifies this
      ensures Out(m, cmds) == OpenSelection(old(m))
    {
      cmds := [];
      if m.focus == PANE_SUPPORT {
        var t := SelectedTicket();
        if t.Some? {
          m := m.(talk := m.talk.(account := t.value.account));
          m := m.(talk := m.talk.(ticket := t.value.id));
          m := m.(loading := true);
          cmds := [LoadThread(Coords(t.value.account, t.value.id))];
        }
      } else if m.focus == PANE_EVENTS {
        if |m.feed.events| > 0 {
          var idx := |m.feed.events| - 1 - Min(m.feed.eventScroll, |m.feed.events| - 1);
          m := m.(drill := m.drill.(event := Some(m.feed.events[idx])));
          m := m.(mode := EventDetail);
        }
      } else {
        if 0 <= m.strip.cellCursor < |m.strip.fleetCells| {
          m := m.(drill := m.drill.(cell := Some(m.strip.fleetCells[m.strip.cellCursor])));
          m := m.(mode := CellDetail);
        }
      }
    }

    method EscPressed()
      modifies this
      ensures m == Leave(old(m))
    {
      match m.mode {
        case Detail =>
          m := m.(mode := List);
          m := m.(talk := m.talk.(thread := None));
        case EventDetail =>
          m := m.(mode := List);
          m := m.(drill := m.drill.(event := None));
        case CellDetail =>
          m := m.(mode := List);
          m := m.(drill := m.drill.(cell := None));
        case TicketDetail =>
          m := m.(mode := m.drill.ticketInfoReturn);
          m := m.(drill := m.drill.(ticket := None));
        case Health => m := m.(mode := List);
        case _ =>
      }
    }

    /** The cell of the list row with this id, "" when there is none. */
    method CellOfRow(id: string) returns (cell: string)
      ensures var row := SP.FirstRow(m.pane.tickets, id);
              cell == if row < |m.pane.tickets| then m.pane.tickets[row].cell else ""
    {
      for i := 0 to |m.pane.tickets|
        invariant forall k :: 0 <= k < i ==> m.pane.tickets[k].id != id
      {
        if m.pane.tickets[i].id == id { return m.pane.tickets[i].cell; }
      }
      return "";
    }

    method InspectPressed()
      modifies this
      ensures m == InspectTicket(old(m))
    {
      if m.mode == List && m.focus == PANE_SUPPORT {
        var t := SelectedTicket();
        if t.Some? {
          m := m.(drill := m.drill.(ticket := t));
          m := m.(drill := m.drill.(ticketInfoReturn := List));
          m := m.(mode := TicketDetail);
        }
      } else if m.mode == Detail && m.talk.thread.Some? {
        var cp := m.talk.thread.value.ticket;
        var cell := CellOfRow(cp.id);
        cp := cp.(cell := cell);
        m := m.(drill := m.drill.(ticket := Some(cp)));
        m := m.(drill := m.drill.(ticketInfoReturn := Detail));
        m := m.(mode := TicketDetail);
      }
    }

    method MasterKey(key: Key) returns (cmds: seq<Cmd>)
      requires m.feed.eventScroll >= 0
      modifies this
      ensures Out(m, cmds) == ListKey(old(m), key)
    {
      cmds := [];
      match key {
        case Tab => m := m.(focus := (m.focus + 1) % PANE_COUNT);
        case ShiftTab => m := m.(focus := (m.focus + (PANE_COUNT - 1)) % PANE_COUNT);
        case FilterKey => if m.focus == PANE_SUPPORT { CycleFilter(); }
        case Down => CursorDown();
        case Up => CursorUp();
        case Enter => cmds := OpenSelected();
        case HealthKey => m := m.(mode := Health);
        case _ =>
      }
    }

    method StatePressed(state: string) returns (cmds: seq<Cmd>)
      modifies this
      ensures Out(m, cmds) == StateKey(old(m), state)
    {
      if m.mode == List && m.focus != PANE_SUPPORT { return []; }
      var target := NOWHERE;
      match m.mode {
        case List =>
          var t := SelectedTicket();
          if t.Some? { target := Coords(t.value.account, t.value.id); }
        case Detail => if m.talk.account != "" { target := Here(m.talk); }
        case Compose => if m.talk.account != "" { target := Here(m.talk); }
        case TicketDetail =>
          if m.drill.ticket.Some? { target := Coords(m.drill.ticket.value.account, m.drill.ticket.value.id); }
        case _ =>
      }
      if target.account == "" { return []; }
      m := m.(loading := true);
      return [SetState(target, state)];
    }

    method KeyPressed(key: Key, edit: Edit) returns (cmds: seq<Cmd>)
      requires m.feed.eventScroll >= 0
      modifies this
      ensures Out(m, cmds) == HandleKey(old(m), key, edit)
    {
      if m.mode == Compose {
        cmds := ComposerKey(key, edit);
        return;
      }
      cmds := [];
      match key {
        case Quit => cmds := [Exit];
        case CtrlC => cmds := [Exit];
        case Refresh =>
          m := m.(loading := true);
          cmds := [LoadTickets, LoadCells, SeedEvents];
        case Esc => EscPressed();
        case Inspect => InspectPressed();
        case Reply =>
          if m.mode == Detail {
            m := m.(talk := m.talk.(composer := BLANK));
            m := m.(mode := Compose);
          }
        case SetTo(state) => cmds := StatePressed(state);
        case _ => if m.mode == List { cmds := MasterKey(key); }
      }
    }

    // ---------------------------------------------------------- cells

    method CellsArrive(cells: Option<seq<FleetCell>>) returns (cmds: seq<Cmd>)
      modifies this
      ensures Out(m, cmds) == OnCells(old(m), cells)
    {
      if cells.None? { return []; }
      var topologyChanged := CellTopologyChanged(m.strip.fleetCells, cells.value);
      var backfillChanged := CellEventBackfillChanged(m.strip.fleetCells, cells.value);
      m := m.(strip := m.strip.(fleetCells := cells.value));
      cmds := if topologyChanged || backfillChanged then [SeedEvents] else [];
    }

    // ---------------------------------------------------------- Update

    method Update(msg: Msg) returns (cmds: seq<Cmd>)
      requires m.feed.eventScroll >= 0
      modifies this
      ensures Out(m, cmds) == Next(old(m), msg)
    {
      cmds := [];
      match msg {
        case WindowSize =>
        case TicketsLoaded(list) => TicketsArrive(list);
        case ThreadLoaded(res) => ThreadArrives(res);
        case UpgradeCheck => cmds := [CheckUpgrade, UpgradeCheckLater];
        case UpgradeAvailable(tag) =>
          m := m.(up := m.up.(phase := "installing", tag := tag));
          cmds := [ApplyUpgrade(tag)];
        case UpgradeApplied(tag, outcome) => cmds := UpgradeEnds(tag, outcome);
        case ActionDone(ok) => cmds := ActionEnds(ok);
        case WatchTicket(t) => cmds := TicketChanges(t);
        case WatchStopped => m := m.(watching := false);
        case CellsLoaded(cells) => cmds := CellsArrive(cells);
        case EventsSeed(events) =>
          if events.Some? {
            var evs := ET.ReverseEvents(events.value);
            m := m.(feed := m.feed.(events := evs));
          }
        case WatchEvent(e) => cmds := EventArrives(e);
        case EventsWatchStopped => m := m.(eventWatching := false);
        case AutoRefresh =>
          cmds := [LoadCells, LoadTickets, AutoRefreshLater];
          if !m.eventWatching { cmds := cmds + [SeedEvents]; }
        case KeyMsg(key, edit) => cmds := KeyPressed(key, edit);
        case OtherMsg(edit) =>
          if m.mode == Compose { m := m.(talk := m.talk.(composer := edit(m.talk.composer))); }
      }
    }
  }
}
