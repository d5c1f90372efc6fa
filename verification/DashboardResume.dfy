/**
 The dashboard across a self-upgrade (cmd/witself-admin/tui_model.go, tui_upgrade.go): the snapshot,
 its text form, and the view the new process restores; and where the restart departs from its comments.
 */
module DashboardResume {
  import opened Prelude
  import opened SupportPane
  import opened Dashboard
  import opened DashboardRuns
  import PaneWindows

  // ------------------------------------------------------------ encode and decode

  datatype Field = Text(s: string) | Number(n: int)

  /** The members of the JSON object; an empty optional member is left out. */
  function Encode(r: Resume): map<string, Field> {
    map["mode" := Text(r.mode), "cursor" := Number(r.cursor)]
    + Member("thread_account", r.threadAccount) + Member("thread_ticket", r.threadTicket)
    + Member("draft", r.draft) + Member("upgraded_to", r.upgradedTo)
  }

  function Member(name: string, value: string): map<string, Field> {
    if value == "" then map[] else map[name := Text(value)]
  }

  function TextOf(f: map<string, Field>, name: string): Option<string> {
    if name !in f then Some("") else if f[name].Text? then Some(f[name].s) else None
  }

  /** A missing member keeps its zero value, one of another type fails the whole decode. */
  function Decode(f: map<string, Field>): Option<Resume> {
    var cursor := if "cursor" !in f then Some(0) else if f["cursor"].Number? then Some(f["cursor"].n) else None;
    var mode, account, ticket, draft, upgraded := TextOf(f, "mode"), TextOf(f, "thread_account"),
      TextOf(f, "thread_ticket"), TextOf(f, "draft"), TextOf(f, "upgraded_to");
    if cursor.None? || mode.None? || account.None? || ticket.None? || draft.None? || upgraded.None? then None
    else Some(Resume(mode.value, cursor.value, account.value, ticket.value, draft.value, upgraded.value))
  }

  lemma DecodeEncode(r: Resume)
    ensures Decode(Encode(r)) == Some(r)
  {
    var f := Encode(r);
    assert "draft" in f <==> r.draft != "";
    assert "thread_account" in f <==> r.threadAccount != "";
    assert "thread_ticket" in f <==> r.threadTicket != "";
    assert "upgraded_to" in f <==> r.upgradedTo != "";
  }

  /** The model the new process starts with after the old one took the snapshot of m. */
  function Resumed(m: Model, tag: string, w: bool, ew: bool): Model {
    var r := Decode(Encode(Snapshot(m, tag)));
    if r.Some? then WithResume(Fresh(w, ew), r.value) else Fresh(w, ew)
  }

  // ------------------------------------------------------------ what comes back

  /** A health view comes back at once, consumes the resume and reloads no thread. */
  lemma HealthRestored(m: Model, tag: string, w: bool, ew: bool)
    requires m.mode == Health
    ensures Resumed(m, tag, w, ew).mode == Health
    ensures Resumed(m, tag, w, ew).up.resume == None && StartupLoad(Resumed(m, tag, w, ew)) == None
  {
    DecodeEncode(Snapshot(m, tag));
  }

  /** The startup load is under way: the resume is armed and no thread is on screen. */
  ghost predicate Waiting(m: Model, r: Resume, c: Coords) {
    ModeSane(m) && !ShowsThread(m) && m.up.resume == Some(r) && Here(m.talk) == c
  }

  function Steps(m: Model, msgs: seq<Msg>): Model
    decreases |msgs|
  {
    if msgs == [] || m.feed.eventScroll < 0 then m else Steps(Next(m, msgs[0]).m, msgs[1..])
  }

  /** No ticket is opened and no thread load succeeds. */
  ghost predicate Idle(m: Model, msgs: seq<Msg>)
    decreases |msgs|
  {
    msgs != [] && m.feed.eventScroll >= 0 ==>
      !Opens(m, msgs[0]) && !(msgs[0].ThreadLoaded? && msgs[0].res.Some?) && Idle(Next(m, msgs[0]).m, msgs[1..])
  }

  lemma StepKeepsWaiting(m: Model, msg: Msg, r: Resume, c: Coords)
    requires Waiting(m, r, c) && !Opens(m, msg) && !(msg.ThreadLoaded? && msg.res.Some?)
    ensures Waiting(Next(m, msg).m, r, c)
  {
    if msg.KeyMsg? {
      assert Next(m, msg) == HandleKey(m, msg.key, msg.edit);
      KeyMode(m, msg.key, msg.edit);
      KeyThread(m, msg.key, msg.edit);
    } else {
      MessageFrame(m, msg);
    }
  }

  lemma {:induction false} IdleKeepsWaiting(m: Model, msgs: seq<Msg>, r: Resume, c: Coords)
    requires Waiting(m, r, c) && Idle(m, msgs)
    ensures Waiting(Steps(m, msgs), r, c)
    decreases |msgs|
  {
    if msgs != [] {
      StepKeepsWaiting(m, msgs[0], r, c);
      IdleKeepsWaiting(Next(m, msgs[0]).m, msgs[1..], r, c);
    }
  }

  /** The view of m is back: mode, thread, coordinates, draft, and the cursor as far as the list reaches. */
  ghost predicate Back(m: Model, before: Model, after: Model, th: Thread) {
    && after.mode == m.mode && Here(after.talk) == Here(m.talk) && after.talk.thread == Some(th)
    && (m.mode == Compose ==> after.talk.composer.text == m.talk.composer.text)
    && after.pane.cursor == Min(m.pane.cursor, Max(|before.pane.tickets| - 1, 0))
    && after.up.resume == None
  }

  /**
   A thread view comes back when its load lands, whatever happened meanwhile short of opening another
   ticket: the mode, the coordinates replies go to, the draft, and the cursor as far as the list reaches.
   */
  lemma ThreadViewRestored(m: Model, tag: string, w: bool, ew: bool, msgs: seq<Msg>, th: Thread)
    requires m.mode == Detail || m.mode == Compose
    requires m.talk.account != "" && Idle(Resumed(m, tag, w, ew), msgs)
    ensures StartupLoad(Resumed(m, tag, w, ew)) == Some(Here(m.talk))
    ensures var before := Steps(Resumed(m, tag, w, ew), msgs);
            before.feed.eventScroll >= 0 && Back(m, before, Next(before, ThreadLoaded(Some(th))).m, th)
  {
    var start, r := Resumed(m, tag, w, ew), Snapshot(m, tag);
    ResumedWaits(m, tag, w, ew);
    IdleKeepsWaiting(start, msgs, r, Here(m.talk));
    BackOnLoad(m, tag, Steps(start, msgs), th);
  }

  lemma BackOnLoad(m: Model, tag: string, before: Model, th: Thread)
    requires m.mode == Detail || m.mode == Compose
    requires Waiting(before, Snapshot(m, tag), Here(m.talk))
    ensures Back(m, before, Next(before, ThreadLoaded(Some(th))).m, th)
  {
    RestoredOnLoad(before, Snapshot(m, tag), Here(m.talk), th);
  }

  /** A process resumed from a thread view waits for that thread. */
  lemma ResumedWaits(m: Model, tag: string, w: bool, ew: bool)
    requires m.mode == Detail || m.mode == Compose
    requires m.talk.account != ""
    ensures Waiting(Resumed(m, tag, w, ew), Snapshot(m, tag), Here(m.talk))
    ensures StartupLoad(Resumed(m, tag, w, ew)) == Some(Here(m.talk))
  {
    var r := Snapshot(m, tag);
    DecodeEncode(r);
    assert Resumed(m, tag, w, ew) == WithResume(Fresh(w, ew), r);
  }

  /** The load that lands on a waiting view restores what the resume carries. */
  lemma RestoredOnLoad(before: Model, r: Resume, c: Coords, th: Thread)
    requires Waiting(before, r, c)
    ensures var after := Next(before, ThreadLoaded(Some(th))).m;
            && after.mode == (if r.mode == "compose" then Compose else Detail)
            && Here(after.talk) == c && after.talk.thread == Some(th)
            && (r.mode == "compose" ==> after.talk.composer.text == r.draft)
            && after.pane.cursor == Min(r.cursor, Max(|before.pane.tickets| - 1, 0))
            && after.up.resume == None
  {
  }

  /** The restarted view once its startup load, if it issues one, has landed. */
  function Landed(start: Model, th: Thread): Model
    requires start.feed.eventScroll >= 0
  {
    if StartupLoad(start).Some? then Next(start, ThreadLoaded(Some(th))).m else start
  }

  /**
   Which views come back: health always, a thread view exactly when it has coordinates, the list
   exactly when it has none left over, and a drill-down on an event, a cell or a record never. What does not
   come back becomes the list, or the thread of the coordinates left over.
   */
  lemma ViewComesBackExactly(m: Model, tag: string, w: bool, ew: bool, th: Thread)
    ensures Resumed(m, tag, w, ew).feed.eventScroll >= 0
    ensures StartupLoad(Resumed(m, tag, w, ew)).None? <==> m.mode == Health || m.talk.account == ""
    ensures var back := Landed(Resumed(m, tag, w, ew), th).mode;
            && (back == m.mode <==>
                  match m.mode
                  case Health => true
                  case Detail => m.talk.account != ""
                  case Compose => m.talk.account != ""
                  case List => m.talk.account == ""
                  case _ => false)
            && (back == m.mode || back == if m.talk.account == "" then List else Detail)
  {
    DecodeEncode(Snapshot(m, tag));
    var start := Resumed(m, tag, w, ew);
    assert start == WithResume(Fresh(w, ew), Snapshot(m, tag));
    if StartupLoad(start).Some? { assert Next(start, ThreadLoaded(Some(th))).m == OnThread(start, Some(th)); }
  }

  /** No load is under way that could move the view, or the view is a thread and has no resume left. */
  ghost predicate Settled(g: World) {
    if g.m.mode == Detail || g.m.mode == Compose then g.m.up.resume.None? else g.loads == multiset{}
  }

  ghost predicate Keyless(hs: seq<Happening>) {
    forall i :: 0 <= i < |hs| ==> !hs[i].msg.KeyMsg?
  }

  lemma {:induction false} NoLoads(cmds: seq<Cmd>)
    requires forall i :: 0 <= i < |cmds| ==> !cmds[i].LoadThread?
    ensures LoadsOf(cmds) == multiset{}
    decreases |cmds|
  {
    if cmds != [] { NoLoads(cmds[1..]); }
  }

  lemma MessagesLoadThreadViews(m: Model, msg: Msg)
    requires m.feed.eventScroll >= 0 && !msg.KeyMsg? && m.mode != Detail && m.mode != Compose && !msg.ThreadLoaded?
    ensures LoadsOf(Next(m, msg).cmds) == multiset{}
  {
    match msg {
      case ActionDone(ok) => assert Next(m, msg) == OnActionDone(m, ok);
      case WatchTicket(t) => assert Next(m, msg) == OnWatchTicket(m, t);
      case UpgradeApplied(tag, outcome) => assert Next(m, msg) == OnUpgradeApplied(m, tag, outcome);
      case _ =>
    }
    NoLoads(Next(m, msg).cmds);
  }

  lemma SettledStep(g: World, h: Happening)
    requires g.m.feed.eventScroll >= 0 && Settled(g) && Possible(g, h) && !h.msg.KeyMsg?
    ensures var g' := StepWorld(g, h); g'.m.mode == g.m.mode && g'.m.feed.eventScroll >= 0 && Settled(g')
  {
    var m, msg := g.m, h.msg;
    assert StepWorld(g, h).m == Next(m, msg).m;
    if msg.ThreadLoaded? {
      assert Next(m, msg).m == OnThread(m, msg.res);
    } else {
      MessageFrame(m, msg);
      if m.mode != Detail && m.mode != Compose { MessagesLoadThreadViews(m, msg); }
    }
  }

  /** And it stays: once settled, no message moves the view; only a key does. */
  lemma {:induction false} OnlyKeysMoveTheView(g: World, hs: seq<Happening>, end: World)
    requires g.m.feed.eventScroll >= 0 && Settled(g) && Keyless(hs) && Run(g, hs, end)
    ensures end.m.mode == g.m.mode
    decreases |hs|
  {
    if hs != [] {
      SettledStep(g, hs[0]);
      OnlyKeysMoveTheView(StepWorld(g, hs[0]), hs[1..], end);
    }
  }

  lemma LandedIsSettled(m: Model, tag: string, w: bool, ew: bool, th: Thread, g: World)
    requires Resumed(m, tag, w, ew).feed.eventScroll >= 0
    requires g.m == Landed(Resumed(m, tag, w, ew), th) && g.loads == multiset{}
    ensures Settled(g) && g.m.feed.eventScroll >= 0
  {
    DecodeEncode(Snapshot(m, tag));
    var start := Resumed(m, tag, w, ew);
    assert start == WithResume(Fresh(w, ew), Snapshot(m, tag));
    if StartupLoad(start).Some? { assert Next(start, ThreadLoaded(Some(th))).m == OnThread(start, Some(th)); }
  }

  /** So a restarted view, once its startup load has landed, stays what it came back as until a key moves it. */
  lemma RestoredViewStays(m: Model, tag: string, w: bool, ew: bool, th: Thread, g: World, hs: seq<Happening>, end: World)
    requires Resumed(m, tag, w, ew).feed.eventScroll >= 0
    requires g.m == Landed(Resumed(m, tag, w, ew), th) && g.loads == multiset{}
    requires Keyless(hs) && Run(g, hs, end)
    ensures end.m.mode == Landed(Resumed(m, tag, w, ew), th).mode
  {
    LandedIsSettled(m, tag, w, ew, th, g);
    OnlyKeysMoveTheView(g, hs, end);
  }

  /** Nor does a list resume bring the cursor back: it stays armed until some thread is opened. */
  lemma ListCursorIsNotRestored(m: Model, tag: string, w: bool, ew: bool, tickets: seq<Ticket>)
    requires m.mode == List
    ensures var after := Next(Resumed(m, tag, w, ew), TicketsLoaded(Some(tickets))).m;
            after.pane.cursor == 0 && after.up.resume == Some(Snapshot(m, tag))
  {
    DecodeEncode(Snapshot(m, tag));
    var start := Resumed(m, tag, w, ew);
    assert start.pane == Pane([], "", 0);
    assert Visible([], "") == [];
    assert Next(start, TicketsLoaded(Some(tickets))).m == OnTickets(start, Some(tickets));
  }

  /**
   The one-shot restore clamps the cursor against all tickets, so it lands in the filtered list
   exactly when that clamp does not pass the list's end.
   */
  lemma ResumeCursorInRangeExactly(m: Model, th: Thread)
    requires m.feed.eventScroll >= 0 && m.up.resume.Some? && m.up.resume.value.cursor >= 0
    ensures var after := Next(m, ThreadLoaded(Some(th))).m;
            && (InRange(Vis(after.pane), after.pane.cursor) <==>
                  Min(m.up.resume.value.cursor, Max(|m.pane.tickets| - 1, 0)) <= Max(|Vis(m.pane)| - 1, 0))
            && (m.pane.stateFilter == "" ==> InRange(Vis(after.pane), after.pane.cursor))
  {
    UnfilteredShowsAll(m.pane.tickets);
    assert Next(m, ThreadLoaded(Some(th))).m == OnThread(m, Some(th));
  }

  /** And it makes the support window index past its list exactly when that clamp passes the end by a whole window. */
  lemma ResumeBreaksRenderExactly(m: Model, th: Thread, topRows: nat)
    requires m.feed.eventScroll >= 0 && m.up.resume.Some? && m.up.resume.value.cursor >= 0 && topRows >= 4
    ensures var after := Next(m, ThreadLoaded(Some(th))).m;
            PaneWindows.IndexPanics(PaneWindows.Ranks(Vis(after.pane)), after.pane.cursor, topRows) <==>
              Vis(m.pane) != []
              && Min(m.up.resume.value.cursor, |m.pane.tickets| - 1) >= |Vis(m.pane)| + topRows
  {
  }

  // ------------------------------------------------------------ restarts that interrupt

  /**
   The restart does come under the operator's fingers, exactly when a finished action releases a
   deferred upgrade while a reply is being typed; the draft is in the snapshot.
   */
  lemma RestartWhileComposingExactly(m: Model, msg: Msg)
    requires m.feed.eventScroll >= 0
    ensures var out := Next(m, msg);
            && (Restarts(m, msg) && out.m.mode == Compose <==>
                  m.mode == Compose && m.up.readyTag != "" && msg.ActionDone? && msg.ok)
            && (Restarts(m, msg) && out.m.mode == Compose ==>
                  out.m.up.relaunch.value.mode == "compose" && out.m.up.relaunch.value.draft == m.talk.composer.text)
  {
    if Restarts(m, msg) {
      RestartsExactly(m, msg);
      match msg
      case ActionDone(ok) => assert Next(m, msg) == OnActionDone(m, ok);
      case UpgradeApplied(tag, outcome) => assert Next(m, msg) == OnUpgradeApplied(m, tag, outcome);
      case KeyMsg(key, edit) => assert Next(m, msg) == ComposeKey(m, key, edit);
    }
  }

  /** While an action is under way no load answers and no second action ends. */
  ghost predicate Undisturbed(g: World, h: Happening) {
    g.acting > 0 ==> !h.msg.TicketsLoaded? && !h.msg.ThreadLoaded? && (h.msg.ActionDone? ==> g.acting == 1)
  }

  ghost predicate LoadingCovers(g: World) {
    g.acting >= 0 && (g.acting > 0 ==> g.m.loading)
  }

  lemma KeyLoading(m: Model, key: Key, edit: Edit)
    requires m.feed.eventScroll >= 0
    ensures HandleKey(m, key, edit).m.loading == (m.loading || (m.mode != Compose && key == Refresh)
              || ActionOf(m, KeyMsg(key, edit)).Some? || Opens(m, KeyMsg(key, edit)))
  {
    if m.mode == Compose {
      assert HandleKey(m, key, edit) == ComposeKey(m, key, edit);
    } else {
      assert HandleKey(m, key, edit) == ViewKey(m, key);
      if m.mode == List && key == Enter { assert ViewKey(m, key) == OpenSelection(m); }
    }
  }

  lemma MessageLoading(m: Model, msg: Msg)
    requires m.feed.eventScroll >= 0 && !msg.KeyMsg?
    ensures Next(m, msg).m.loading == (m.loading && !msg.TicketsLoaded? && !msg.ThreadLoaded? && !msg.ActionDone?)
  {
    match msg
    case ThreadLoaded(res) => assert Next(m, msg).m == OnThread(m, res);
    case ActionDone(ok) => assert Next(m, msg) == OnActionDone(m, ok);
    case UpgradeApplied(tag, outcome) => assert Next(m, msg) == OnUpgradeApplied(m, tag, outcome);
    case _ =>
  }

  lemma {:induction false} NoActions(cmds: seq<Cmd>)
    requires forall i :: 0 <= i < |cmds| ==> !Acts(cmds[i])
    ensures ActionsOf(cmds) == 0
    decreases |cmds|
  {
    if cmds != [] { NoActions(cmds[1..]); }
  }

  lemma ActionsIssued(m: Model, msg: Msg)
    requires m.feed.eventScroll >= 0
    ensures ActionsOf(Next(m, msg).cmds) == if ActionOf(m, msg).Some? then 1 else 0
  {
    NextActions(m, msg);
    if ActionOf(m, msg).None? {
      NoActions(Next(m, msg).cmds);
    } else {
      assert [ActionOf(m, msg).value][1..] == [];
    }
  }

  lemma StepKeepsLoading(g: World, h: Happening)
    requires g.m.feed.eventScroll >= 0 && LoadingCovers(g) && Undisturbed(g, h) && Possible(g, h)
    ensures LoadingCovers(StepWorld(g, h))
  {
    assert StepWorld(g, h).m == Next(g.m, h.msg).m;
    ActionsIssued(g.m, h.msg);
    if h.msg.KeyMsg? {
      assert Next(g.m, h.msg) == HandleKey(g.m, h.msg.key, h.msg.edit);
      KeyLoading(g.m, h.msg.key, h.msg.edit);
    } else {
      MessageLoading(g.m, h.msg);
    }
  }

  /** Exactly when a step restarts the process with an action still under way. */
  lemma CutsOffExactly(g: World, h: Happening)
    requires g.m.feed.eventScroll >= 0 && g.acting >= 0
    ensures Restarts(g.m, h.msg) && StepWorld(g, h).acting > 0 <==>
              && g.acting > 0
              && (|| (h.msg.UpgradeApplied? && h.msg.outcome == Installed && g.m.mode != Compose && !g.m.loading)
                  || (g.m.up.readyTag != ""
                      && (ComposeExit(g.m, h.msg) || (h.msg.ActionDone? && h.msg.ok && g.acting > 1))))
  {
    ActionsIssued(g.m, h.msg);
  }

  /** While the loading flag covers the action and nothing disturbs it, only a reply abandoned during it cuts it off. */
  lemma UndisturbedIsCutOffByExit(g: World, h: Happening)
    requires g.m.feed.eventScroll >= 0 && LoadingCovers(g) && Undisturbed(g, h)
    ensures Restarts(g.m, h.msg) && StepWorld(g, h).acting > 0 <==>
              g.acting > 0 && g.m.up.readyTag != "" && ComposeExit(g.m, h.msg)
  {
    CutsOffExactly(g, h);
  }

  lemma StateKeyActs(g: World, h: Happening)
    requires Sane(g.m) && g.m.mode == Detail && g.m.talk.account != "" && h.msg.KeyMsg? && h.msg.key.SetTo?
    ensures var g' := StepWorld(g, h);
            g'.acting == g.acting + 1 && g'.m == g.m.(loading := true)
  {
    ActionsIssued(g.m, h.msg);
    assert Next(g.m, h.msg) == StateKey(g.m, h.msg.key.state);
  }

  lemma RefreshLands(g: World, h: Happening)
    requires g.m.feed.eventScroll >= 0 && h.msg.TicketsLoaded?
    ensures var g' := StepWorld(g, h);
            g'.acting == g.acting && g'.m == OnTickets(g.m, h.msg.list)
  {
  }

  lemma UpgradeLands(g: World, h: Happening)
    requires g.m.feed.eventScroll >= 0 && h.msg.UpgradeApplied? && Restarts(g.m, h.msg)
    ensures StepWorld(g, h).acting == g.acting && StepWorld(g, h).m.up.relaunch.Some?
  {
  }

  /**
   In other runs the flag does not cover it: a background refresh that lands during a state change
   clears it, and the upgrade then restarts at once with the change still under way.
   */
  lemma RefreshUncoversAction(g: World, tickets: seq<Ticket>, tag: string, c: Coords, edit: Edit)
    returns (hs: seq<Happening>, end: World)
    requires Sane(g.m) && g.m.mode == Detail && g.m.talk.account != "" && g.acting == 0
    ensures Run(g, hs, end) && end.m.up.relaunch.Some? && end.acting == 1
  {
    var h1, h2 := Happening(KeyMsg(SetTo("resolved"), edit), c), Happening(TicketsLoaded(Some(tickets)), c);
    var h3 := Happening(UpgradeApplied(tag, Installed), c);
    var g1 := StepWorld(g, h1);
    StateKeyActs(g, h1);
    var g2 := StepWorld(g1, h2);
    RefreshLands(g1, h2);
    UpgradeLands(g2, h3);
    end := StepWorld(g2, h3);
    hs := [h1, h2, h3];
    assert hs[1..] == [h2, h3] && [h2, h3][1..] == [h3] && [h3][1..] == [];
    assert Run(end, [], end) && Run(g2, [h3], end);
    assert Run(g1, [h2, h3], end);
  }

  /**
   Opening a second ticket before the first one's thread arrives shows the first thread under the
   second one's coordinates: what is typed there goes to the ticket that is not on screen.
   */
  lemma HastyOpenCrossesThreads(g: World, a: Thread, edit: Edit) returns (hs: seq<Happening>, end: World)
    requires Sane(g.m) && g.m.mode == List && g.m.focus == PANE_SUPPORT && g.loads == multiset{}
    requires |Vis(g.m.pane)| >= 2 && g.m.pane.cursor == 0
    requires CoordsOf(a.ticket) == CoordsOf(Vis(g.m.pane)[0]) != CoordsOf(Vis(g.m.pane)[1])
    ensures Run(g, hs, end)
    ensures end.m.mode == Detail && end.m.talk.thread == Some(a) && Here(end.m.talk) == CoordsOf(Vis(g.m.pane)[1])
  {
    var t0, t1 := Vis(g.m.pane)[0], Vis(g.m.pane)[1];
    var c := CoordsOf(t0);
    var enter, down, arrives := Happening(KeyMsg(Enter, edit), c), Happening(KeyMsg(Down, edit), c),
                                Happening(ThreadLoaded(Some(a)), c);
    var g1 := StepWorld(g, enter);
    assert Next(g.m, enter.msg) == OpenTicket(g.m, t0);
    assert [LoadThread(c)][1..] == [];
    assert c in g1.loads && g1.m.mode == List && g1.m.pane == g.m.pane && g1.m.up == g.m.up;
    var g2 := StepWorld(g1, down);
    assert Next(g1.m, down.msg) == Out(MoveDown(g1.m), []);
    assert c in g2.loads && g2.m.mode == List && g2.m.pane.cursor == 1 && Vis(g2.m.pane) == Vis(g.m.pane);
    var g3 := StepWorld(g2, enter);
    assert Next(g2.m, enter.msg) == OpenTicket(g2.m, t1);
    assert c in g3.loads && g3.m.mode == List && Here(g3.m.talk) == CoordsOf(t1) && g3.m.up == g.m.up;
    end := StepWorld(g3, arrives);
    assert Next(g3.m, arrives.msg).m == OnThread(g3.m, Some(a));
    hs := [enter, down, enter, arrives];
    assert hs[1..] == [down, enter, arrives] && hs[1..][1..] == [enter, arrives];
    assert [enter, arrives][1..] == [arrives] && [arrives][1..] == [];
    assert Run(end, [], end) && Run(g3, [arrives], end);
    assert Run(g2, [enter, arrives], end);
    assert Run(g1, [down, enter, arrives], end);
  }

  /** There a state key then acts on the ticket that is not drawn. */
  lemma HastyOpenActsOffScreen(g: World, a: Thread, edit: Edit, state: string)
    returns (hs: seq<Happening>, end: World, c: Coords)
    requires Sane(g.m) && g.m.mode == List && g.m.focus == PANE_SUPPORT && g.loads == multiset{}
    requires |Vis(g.m.pane)| >= 2 && g.m.pane.cursor == 0 && Vis(g.m.pane)[1].account != ""
    requires CoordsOf(a.ticket) == CoordsOf(Vis(g.m.pane)[0]) != CoordsOf(Vis(g.m.pane)[1])
    ensures Run(g, hs, end) && end.m.feed.eventScroll >= 0
    ensures SetState(c, state) in Next(end.m, KeyMsg(SetTo(state), edit)).cmds && !OnScreen(end.m, c)
  {
    hs, end := HastyOpenCrossesThreads(g, a, edit);
    RunIsSane(g, hs, end);
    c := Here(end.m.talk);
    StateChangesAreKeyed(end.m, KeyMsg(SetTo(state), edit), c, state);
  }
}
