/**
 The dashboard's support pane (cmd/witself-admin/tui_model.go): lifecycle order, the live upsert,
 the stage filter and the cursor that follows a ticket id.
 */
module SupportPane {
  import opened Prelude

  datatype Ticket = Ticket(id: string, account: string, state: string, lastActivity: int, cell: string, subject: string)

  function StateRank(state: string): nat {
    if state == "awaiting_admin" then 0
    else if state == "open" then 1
    else if state == "awaiting_customer" then 2
    else if state == "resolved" then 3
    else if state == "closed" then 4
    else 5
  }

  /** The comparison handed to sort.SliceStable. */
  predicate Less(a: Ticket, b: Ticket) {
    StateRank(a.state) < StateRank(b.state)
    || (StateRank(a.state) == StateRank(b.state) && a.lastActivity > b.lastActivity)
  }

  predicate Ordered(tickets: seq<Ticket>) {
    forall i, j :: 0 <= i < j < |tickets| ==> !Less(tickets[j], tickets[i])
  }

  // ------------------------------------------------------------ sortTickets

  function Insert(t: Ticket, sorted: seq<Ticket>): seq<Ticket>
    decreases |sorted|
  {
    if sorted == [] || !Less(sorted[0], t) then [t] + sorted
    else [sorted[0]] + Insert(t, sorted[1..])
  }

  /** What a stable sort by Less returns. */
  function Sorted(tickets: seq<Ticket>): seq<Ticket>
    decreases |tickets|
  {
    if tickets == [] then [] else Insert(tickets[0], Sorted(tickets[1..]))
  }

  /** Two tickets the pane order does not separate. */
  predicate Ties(a: Ticket, b: Ticket) {
    !Less(a, b) && !Less(b, a)
  }

  /** The tickets tied with k, in list order. */
  function TiedWith(tickets: seq<Ticket>, k: Ticket): seq<Ticket>
    decreases |tickets|
  {
    if tickets == [] then []
    else (if Ties(tickets[0], k) then [tickets[0]] else []) + TiedWith(tickets[1..], k)
  }

  lemma {:induction false} InsertOrdered(t: Ticket, sorted: seq<Ticket>)
    requires Ordered(sorted)
    ensures Ordered(Insert(t, sorted))
    ensures multiset(Insert(t, sorted)) == multiset(sorted) + multiset{t}
    ensures |Insert(t, sorted)| == |sorted| + 1
    decreases |sorted|
  {
    if sorted == [] || !Less(sorted[0], t) {
    } else {
      InsertOrdered(t, sorted[1..]);
      assert sorted == [sorted[0]] + sorted[1..];
      var rest := Insert(t, sorted[1..]);
      forall j | 0 <= j < |rest| ensures !Less(rest[j], sorted[0]) {
        assert rest[j] in multiset(rest);
        assert rest[j] == t || rest[j] in multiset(sorted[1..]);
      }
    }
  }

  lemma {:induction false} InsertTies(t: Ticket, sorted: seq<Ticket>, k: Ticket)
    requires Ordered(sorted)
    ensures TiedWith(Insert(t, sorted), k) == TiedWith([t] + sorted, k)
    decreases |sorted|
  {
    assert ([t] + sorted)[1..] == sorted;
    if sorted == [] || !Less(sorted[0], t) {
    } else {
      InsertTies(t, sorted[1..], k);
      assert ([t] + sorted[1..])[1..] == sorted[1..];
      var out := Insert(t, sorted);
      assert out[1..] == Insert(t, sorted[1..]);
    }
  }

  /** The pane order holds, no ticket is gained or lost, and tied tickets keep their order. */
  lemma {:induction false} SortedIsStable(tickets: seq<Ticket>)
    ensures Ordered(Sorted(tickets))
    ensures multiset(Sorted(tickets)) == multiset(tickets)
    ensures |Sorted(tickets)| == |tickets|
    ensures forall k :: TiedWith(Sorted(tickets), k) == TiedWith(tickets, k)
    decreases |tickets|
  {
    if tickets != [] {
      SortedIsStable(tickets[1..]);
      InsertOrdered(tickets[0], Sorted(tickets[1..]));
      assert tickets == [tickets[0]] + tickets[1..];
      forall k ensures TiedWith(Sorted(tickets), k) == TiedWith(tickets, k) {
        InsertTies(tickets[0], Sorted(tickets[1..]), k);
        assert ([tickets[0]] + Sorted(tickets[1..]))[1..] == Sorted(tickets[1..]);
      }
    }
  }

  lemma {:induction false} TiedAreFrom(tickets: seq<Ticket>, k: Ticket)
    ensures forall t :: t in TiedWith(tickets, k) <==> t in tickets && Ties(t, k)
    decreases |tickets|
  {
    if tickets != [] {
      TiedAreFrom(tickets[1..], k);
      assert tickets == [tickets[0]] + tickets[1..];
    }
  }

  /** An ordered list is fixed by what its ties read, so any stable sort returns the same list. */
  lemma {:induction false} StableSortIsUnique(a: seq<Ticket>, b: seq<Ticket>)
    requires Ordered(a) && Ordered(b)
    requires forall k :: TiedWith(a, k) == TiedWith(b, k)
    ensures a == b
    decreases |a|
  {
    assert a == [] <==> b == [] by {
      if |a| > 0 { assert |TiedWith(a, a[0])| > 0; }
      if |b| > 0 { assert |TiedWith(b, b[0])| > 0; }
    }
    if a != [] {
      TiedAreFrom(a, a[0]);
      TiedAreFrom(b, a[0]);
      assert a[0] in TiedWith(a, a[0]);
      assert a[0] in b;
      TiedAreFrom(a, b[0]);
      TiedAreFrom(b, b[0]);
      assert b[0] in TiedWith(b, b[0]);
      assert b[0] in a;
      assert Ties(a[0], b[0]);
      assert TiedWith(a, a[0])[0] == a[0] && TiedWith(b, a[0])[0] == b[0];
      forall k ensures TiedWith(a[1..], k) == TiedWith(b[1..], k) {
        var head := if Ties(a[0], k) then [a[0]] else [];
        assert TiedWith(a, k) == head + TiedWith(a[1..], k) && TiedWith(b, k) == head + TiedWith(b[1..], k);
        assert (head + TiedWith(a[1..], k))[|head|..] == TiedWith(a[1..], k);
        assert (head + TiedWith(b[1..], k))[|head|..] == TiedWith(b[1..], k);
      }
      StableSortIsUnique(a[1..], b[1..]);
      assert a == [a[0]] + a[1..] && b == [b[0]] + b[1..];
    }
  }

  /** The stages from what waits for the admin down to finished work. */
  const STAGES := ["awaiting_admin", "open", "awaiting_customer", "resolved", "closed"]

  /** Stage after stage, an unknown state last, and within one state the newest first. */
  lemma AttentionFirst(tickets: seq<Ticket>, i: nat, j: nat)
    requires i < j < |tickets|
    ensures var list := Sorted(tickets);
            && |list| == |tickets|
            && (forall p, q :: 0 <= p < q < |STAGES| && list[i].state == STAGES[q] ==> list[j].state != STAGES[p])
            && (list[i].state !in STAGES ==> list[j].state !in STAGES)
            && (list[i].state == list[j].state ==> list[i].lastActivity >= list[j].lastActivity)
  {
    SortedIsStable(tickets);
    var list := Sorted(tickets);
    RankIsStage(list[i].state);
    RankIsStage(list[j].state);
  }

  lemma RankIsStage(state: string)
    ensures if state in STAGES then StateRank(state) < |STAGES| && STAGES[StateRank(state)] == state else StateRank(state) == |STAGES|
    ensures forall p :: 0 <= p < |STAGES| ==> StateRank(STAGES[p]) == p
  {
    assert STAGES[0] == "awaiting_admin" && STAGES[1] == "open" && STAGES[2] == "awaiting_customer";
    assert STAGES[3] == "resolved" && STAGES[4] == "closed";
  }

  // ------------------------------------------------------------ upsertTicket

  predicate HasRow(tickets: seq<Ticket>, id: string) {
    exists i :: 0 <= i < |tickets| && tickets[i].id == id
  }

  predicate DistinctRows(tickets: seq<Ticket>) {
    forall i, j :: 0 <= i < j < |tickets| ==> tickets[i].id != tickets[j].id
  }

  function FirstRow(tickets: seq<Ticket>, id: string): (i: nat)
    ensures i < |tickets| ==> tickets[i].id == id
    ensures i <= |tickets| && forall k :: 0 <= k < i ==> tickets[k].id != id
    decreases |tickets|
  {
    if tickets == [] || tickets[0].id == id then 0
    else
      assert forall k :: 1 <= k < |tickets| ==> tickets[k] == tickets[1..][k - 1];
      1 + FirstRow(tickets[1..], id)
  }

  function Merged(tickets: seq<Ticket>, t: Ticket): seq<Ticket> {
    var i := FirstRow(tickets, t.id);
    if i < |tickets| then tickets[i := t] else tickets + [t]
  }

  function Upserted(tickets: seq<Ticket>, t: Ticket): seq<Ticket> {
    Sorted(Merged(tickets, t))
  }

  method UpsertTicket(tickets: seq<Ticket>, t: Ticket) returns (r: seq<Ticket>)
    ensures r == Upserted(tickets, t)
  {
    r := tickets;
    var replaced := false;
    var i := 0;
    while i < |tickets| && !replaced
      invariant i <= |tickets|
      invariant replaced ==> i > 0 && tickets[i - 1].id == t.id && r == tickets[i - 1 := t]
      invariant !replaced ==> r == tickets
      invariant forall k :: 0 <= k < (if replaced then i - 1 else i) ==> tickets[k].id != t.id
    {
      if tickets[i].id == t.id {
        r := r[i := t];
        replaced := true;
      }
      i := i + 1;
    }
    if !replaced { r := r + [t]; }
    assert FirstRow(tickets, t.id) == if replaced then i - 1 else |tickets|;
    r := Sorted(r);
  }

  lemma MergedRows(tickets: seq<Ticket>, t: Ticket)
    ensures forall x: Ticket :: x.id != t.id ==> multiset(Merged(tickets, t))[x] == multiset(tickets)[x]
    ensures t in Merged(tickets, t)
    ensures |Merged(tickets, t)| == if HasRow(tickets, t.id) then |tickets| else |tickets| + 1
  {
    var i := FirstRow(tickets, t.id);
    if i < |tickets| {
      assert Merged(tickets, t)[i] == t;
      assert multiset(tickets[i := t]) == multiset(tickets) - multiset{tickets[i]} + multiset{t};
    } else {
      assert Merged(tickets, t)[|tickets|] == t;
    }
  }

  lemma {:induction false} InsertDistinct(t: Ticket, sorted: seq<Ticket>)
    requires DistinctRows(sorted) && !HasRow(sorted, t.id)
    ensures DistinctRows(Insert(t, sorted))
    ensures forall i :: 0 <= i < |Insert(t, sorted)| ==>
              Insert(t, sorted)[i].id == t.id || HasRow(sorted, Insert(t, sorted)[i].id)
    decreases |sorted|
  {
    if sorted == [] || !Less(sorted[0], t) {
      forall i | 1 <= i < |[t] + sorted| ensures HasRow(sorted, ([t] + sorted)[i].id) {
        assert sorted[i - 1] == ([t] + sorted)[i];
      }
    } else {
      var tail, rest := sorted[1..], Insert(t, sorted[1..]);
      assert !HasRow(tail, t.id) by { assert forall k :: 0 <= k < |tail| ==> tail[k] == sorted[k + 1]; }
      InsertDistinct(t, tail);
      forall i | 0 <= i < |rest| ensures rest[i].id != sorted[0].id && (rest[i].id == t.id || HasRow(sorted, rest[i].id)) {
        if rest[i].id != t.id {
          var k :| 0 <= k < |tail| && tail[k].id == rest[i].id;
          assert sorted[k + 1].id == rest[i].id;
        } else {
          assert sorted[0].id != t.id;
        }
      }
      assert HasRow(sorted, sorted[0].id);
    }
  }

  lemma {:induction false} SortedDistinct(tickets: seq<Ticket>)
    requires DistinctRows(tickets)
    ensures DistinctRows(Sorted(tickets))
    decreases |tickets|
  {
    if tickets != [] {
      var tail := tickets[1..];
      SortedDistinct(tail);
      SortedIsStable(tail);
      assert !HasRow(Sorted(tail), tickets[0].id) by {
        forall i | 0 <= i < |Sorted(tail)| ensures Sorted(tail)[i].id != tickets[0].id {
          assert Sorted(tail)[i] in multiset(tail);
          var k :| 0 <= k < |tail| && tail[k] == Sorted(tail)[i];
          assert tickets[k + 1] == tail[k];
        }
      }
      InsertDistinct(tickets[0], Sorted(tail));
    }
  }

  /**
   A live update keeps one row per id, leaves every other record as it was, shows the new record,
   and returns the list in pane order.
   */
  lemma UpsertKeepsOthers(tickets: seq<Ticket>, t: Ticket)
    ensures Ordered(Upserted(tickets, t))
    ensures forall x: Ticket :: x.id != t.id ==> multiset(Upserted(tickets, t))[x] == multiset(tickets)[x]
    ensures t in Upserted(tickets, t)
    ensures |Upserted(tickets, t)| == if HasRow(tickets, t.id) then |tickets| else |tickets| + 1
    ensures DistinctRows(tickets) ==> DistinctRows(Upserted(tickets, t))
  {
    var merged := Merged(tickets, t);
    MergedRows(tickets, t);
    SortedIsStable(merged);
    assert multiset(Upserted(tickets, t)) == multiset(merged);
    assert t in multiset(merged);
    if DistinctRows(tickets) {
      MergedDistinct(tickets, t);
      SortedDistinct(merged);
    }
  }

  lemma MergedDistinct(tickets: seq<Ticket>, t: Ticket)
    requires DistinctRows(tickets)
    ensures DistinctRows(Merged(tickets, t))
  {
  }

  // ------------------------------------------------------------ visibleTickets

  /** Which tickets a stage filter shows; a filter the keys never set shows none. */
  predicate Shows(stage: string, t: Ticket) {
    stage == ""
    || (stage == "active" && t.state != "resolved" && t.state != "closed")
    || ((stage == "resolved" || stage == "closed") && t.state == stage)
  }

  function Visible(tickets: seq<Ticket>, stage: string): seq<Ticket>
    decreases |tickets|
  {
    if tickets == [] then []
    else
      var last := |tickets| - 1;
      Visible(tickets[..last], stage) + if Shows(stage, tickets[last]) then [tickets[last]] else []
  }

  lemma {:induction false} UnfilteredShowsAll(tickets: seq<Ticket>)
    ensures Visible(tickets, "") == tickets
    decreases |tickets|
  {
    if tickets != [] { UnfilteredShowsAll(tickets[..|tickets| - 1]); }
  }

  method VisibleTickets(tickets: seq<Ticket>, stateFilter: string) returns (out: seq<Ticket>)
    ensures out == Visible(tickets, stateFilter)
  {
    if stateFilter == "" {
      UnfilteredShowsAll(tickets);
      return tickets;
    }
    out := [];
    for i := 0 to |tickets|
      invariant out == Visible(tickets[..i], stateFilter)
    {
      assert tickets[..i + 1][..i] == tickets[..i];
      var t := tickets[i];
      if stateFilter == "active" {
        if t.state != "resolved" && t.state != "closed" { out := out + [t]; }
      } else if stateFilter == "resolved" || stateFilter == "closed" {
        if t.state == stateFilter { out := out + [t]; }
      }
    }
    assert tickets[..|tickets|] == tickets;
  }

  lemma {:induction false} VisibleMembers(tickets: seq<Ticket>, stage: string)
    ensures forall t :: t in Visible(tickets, stage) <==> t in tickets && Shows(stage, t)
    decreases |tickets|
  {
    if tickets != [] {
      var last := |tickets| - 1;
      VisibleMembers(tickets[..last], stage);
      assert tickets == tickets[..last] + [tickets[last]];
    }
  }

  lemma {:induction false} VisibleOrdered(tickets: seq<Ticket>, stage: string)
    requires Ordered(tickets)
    ensures Ordered(Visible(tickets, stage))
    decreases |tickets|
  {
    if tickets != [] {
      var last := |tickets| - 1;
      var rest := Visible(tickets[..last], stage);
      VisibleOrdered(tickets[..last], stage);
      VisibleMembers(tickets[..last], stage);
      forall i | 0 <= i < |rest| ensures !Less(tickets[last], rest[i]) {
        assert rest[i] in tickets[..last];
        var k :| 0 <= k < last && tickets[k] == rest[i];
      }
    }
  }

  lemma {:induction false} VisibleDistinct(tickets: seq<Ticket>, stage: string)
    requires DistinctRows(tickets)
    ensures DistinctRows(Visible(tickets, stage))
    decreases |tickets|
  {
    if tickets != [] {
      var last := |tickets| - 1;
      var rest := Visible(tickets[..last], stage);
      VisibleDistinct(tickets[..last], stage);
      VisibleMembers(tickets[..last], stage);
      forall i | 0 <= i < |rest| ensures rest[i].id != tickets[last].id {
        assert rest[i] in tickets[..last];
        var k :| 0 <= k < last && tickets[k] == rest[i];
      }
    }
  }

  /** The working set: exactly the tickets the stage shows, still in pane order and one row per id. */
  lemma VisibleIsTheStage(tickets: seq<Ticket>, stage: string)
    ensures forall t :: t in Visible(tickets, stage) <==> t in tickets && Shows(stage, t)
    ensures Ordered(tickets) ==> Ordered(Visible(tickets, stage))
    ensures DistinctRows(tickets) ==> DistinctRows(Visible(tickets, stage))
  {
    VisibleMembers(tickets, stage);
    if Ordered(tickets) { VisibleOrdered(tickets, stage); }
    if DistinctRows(tickets) { VisibleDistinct(tickets, stage); }
  }

  lemma {:induction false} StagesAddUp(tickets: seq<Ticket>)
    ensures multiset(Visible(tickets, "active")) + multiset(Visible(tickets, "resolved")) + multiset(Visible(tickets, "closed"))
            == multiset(tickets)
    decreases |tickets|
  {
    if tickets != [] {
      var last := |tickets| - 1;
      StagesAddUp(tickets[..last]);
      assert tickets == tickets[..last] + [tickets[last]];
      OneStage(tickets[last]);
    }
  }

  lemma OneStage(t: Ticket)
    ensures Shows("active", t) <==> t.state != "resolved" && t.state != "closed"
    ensures Shows("resolved", t) <==> t.state == "resolved"
    ensures Shows("closed", t) <==> t.state == "closed"
  {
    assert |"active"| == |"closed"| == 6 && |"resolved"| == 8 && "active"[0] == 'a' && "closed"[0] == 'c';
  }

  /** The three stages part the list: every ticket is in exactly one of them, finished work in the one named after its state. */
  lemma StagesPartTheList(tickets: seq<Ticket>)
    ensures multiset(Visible(tickets, "active")) + multiset(Visible(tickets, "resolved")) + multiset(Visible(tickets, "closed"))
            == multiset(tickets)
    ensures forall t :: t in Visible(tickets, "resolved") ==> t.state == "resolved"
    ensures forall t :: t in Visible(tickets, "closed") ==> t.state == "closed"
    ensures forall t :: t in Visible(tickets, "active") ==> t.state != "resolved" && t.state != "closed"
    ensures Visible(tickets, "") == tickets
  {
    StagesAddUp(tickets);
    UnfilteredShowsAll(tickets);
    VisibleMembers(tickets, "active");
    VisibleMembers(tickets, "resolved");
    VisibleMembers(tickets, "closed");
    forall t: Ticket ensures (Shows("active", t) <==> t.state != "resolved" && t.state != "closed")
                          && (Shows("resolved", t) <==> t.state == "resolved") && (Shows("closed", t) <==> t.state == "closed")
    {
      OneStage(t);
    }
  }

  // ------------------------------------------------------------ anchorCursor

  function SelectedId(visible: seq<Ticket>, cursor: int): string {
    if 0 <= cursor < |visible| then visible[cursor].id else ""
  }

  function Anchored(visible: seq<Ticket>, id: string, cursor: int): int {
    if id != "" && FirstRow(visible, id) < |visible| then FirstRow(visible, id)
    else if cursor >= |visible| then Max(|visible| - 1, 0)
    else cursor
  }

  method AnchorCursor(visible: seq<Ticket>, id: string, cursor: int) returns (c: int)
    ensures c == Anchored(visible, id, cursor)
  {
    c := cursor;
    if id != "" {
      for i := 0 to |visible|
        invariant forall k :: 0 <= k < i ==> visible[k].id != id
      {
        if visible[i].id == id { return i; }
      }
    }
    if c >= |visible| { c := Max(|visible| - 1, 0); }
  }

  predicate InRange(visible: seq<Ticket>, cursor: int) {
    if visible == [] then cursor == 0 else 0 <= cursor < |visible|
  }

  /** Re-anchoring always lands in range: on the same ticket whenever it is still shown, else at the same place or the last. */
  lemma AnchorFollowsTicket(before: seq<Ticket>, after: seq<Ticket>, cursor: int)
    requires InRange(before, cursor)
    ensures var c := Anchored(after, SelectedId(before, cursor), cursor);
            && InRange(after, c)
            && (if before != [] && before[cursor].id != "" && HasRow(after, before[cursor].id)
                then after[c].id == before[cursor].id else c == Min(cursor, Max(|after| - 1, 0)))
  {
  }
}
