/**
 The dashboard's bounded event tail (cmd/witself-admin/tui_model.go): appendEvent, the seed, and
 the paused selection that counts up from the newest event.
 */
module EventTail {
  import opened Prelude

  const CAP := 200

  datatype Event = Event(id: string, at: int, cell: string, payload: string)

  predicate HasId(events: seq<Event>, id: string) {
    exists i :: 0 <= i < |events| && events[i].id == id
  }

  predicate DistinctIds(events: seq<Event>) {
    forall i, j :: 0 <= i < j < |events| ==> events[i].id != events[j].id
  }

  function LastOf(events: seq<Event>, n: nat): seq<Event> {
    if |events| > n then events[|events| - n..] else events
  }

  /** The tail after one live event. */
  function Appended(events: seq<Event>, e: Event): seq<Event> {
    if HasId(events, e.id) then events else LastOf(events + [e], CAP)
  }

  method AppendEvent(events: seq<Event>, e: Event) returns (tail: seq<Event>, added: bool)
    ensures tail == Appended(events, e)
    ensures added <==> !HasId(events, e.id)
  {
    for i := 0 to |events|
      invariant forall k :: 0 <= k < i ==> events[k].id != e.id
    {
      if events[i].id == e.id { return events, false; }
    }
    tail := events + [e];
    if |tail| > CAP { tail := tail[|tail| - CAP..]; }
    return tail, true;
  }

  function Reversed(events: seq<Event>): (r: seq<Event>)
    ensures |r| == |events|
    ensures forall i :: 0 <= i < |r| ==> r[i] == events[|events| - 1 - i]
  {
    if events == [] then [] else Reversed(events[1..]) + [events[0]]
  }

  /** The seed's loop. */
  method ReverseEvents(newestFirst: seq<Event>) returns (r: seq<Event>)
    ensures r == Reversed(newestFirst)
  {
    var n := |newestFirst|;
    var evs := new Event[n](_ => Event("", 0, "", ""));
    for i := 0 to n
      invariant forall k :: n - i <= k < n ==> evs[k] == newestFirst[n - 1 - k]
    {
      evs[n - 1 - i] := newestFirst[i];
    }
    r := evs[..];
  }

  /** selectedEvent's index: the scroll counts up from the newest event and is clamped. */
  function SelectedIndex(events: seq<Event>, scroll: int): int
    requires events != []
  {
    |events| - 1 - Min(scroll, |events| - 1)
  }

  /** The events pane: the tail, how far the selection is scrolled up from its newest event, and the events counted. */
  datatype Feed = Feed(events: seq<Event>, eventScroll: int, eventsSeen: int)

  function Selected(f: Feed): Option<Event> {
    if f.events == [] || f.eventScroll < 0 then None else Some(f.events[SelectedIndex(f.events, f.eventScroll)])
  }

  /** watchEventMsg. */
  function Watched(f: Feed, e: Event): Feed {
    var added := !HasId(f.events, e.id);
    var events := Appended(f.events, e);
    Feed(events,
         if f.eventScroll > 0 && added then Min(f.eventScroll + 1, |events| - 1) else f.eventScroll,
         f.eventsSeen + if added then 1 else 0)
  }

  /** k or up. */
  function Older(f: Feed): Feed {
    if f.eventScroll < |f.events| - 1 then f.(eventScroll := f.eventScroll + 1) else f
  }

  /** j or down. */
  function Newer(f: Feed): Feed {
    if f.eventScroll > 0 then f.(eventScroll := f.eventScroll - 1) else f
  }

  /** A repeat moves nothing. A paused view keeps its event, or the oldest left; a live view follows the new event. */
  lemma WatchKeepsSelection(f: Feed, e: Event)
    requires f.eventScroll >= 0
    ensures var g := Watched(f, e);
            && (HasId(f.events, e.id) ==> g == f)
            && (0 <= f.eventScroll <= Max(|f.events| - 1, 0) ==> 0 <= g.eventScroll <= |g.events| - 1 || g == f)
            && (!HasId(f.events, e.id) && f.eventScroll == 0 ==> Selected(g) == Some(e))
            && (!HasId(f.events, e.id) && f.eventScroll > 0 && f.events != [] ==>
                  Selected(g) == if SelectedIndex(f.events, f.eventScroll) >= |f.events| + 1 - |g.events|
                                 then Selected(f) else Some(g.events[0]))
  {
  }

  /** k selects the next older event and j the next newer one, each stopping at its end of the tail. */
  lemma KeysSelectNeighbours(f: Feed)
    requires 0 <= f.eventScroll < |f.events|
    ensures var i := SelectedIndex(f.events, f.eventScroll);
            && Selected(Older(f)) == Some(f.events[Max(i - 1, 0)])
            && Selected(Newer(f)) == Some(f.events[Min(i + 1, |f.events| - 1)])
            && 0 <= Older(f).eventScroll < |f.events| && 0 <= Newer(f).eventScroll < |f.events|
  {
  }

  /**
   The paused view is anchored for every tail, also one seeded beyond the cap, and for every scroll,
   also one left stale by a shorter seed: the selection moves down with the trimmed events and stops
   at the oldest one left.
   */
  lemma PausedSelection(events: seq<Event>, e: Event, scroll: int)
    requires events != [] && scroll > 0 && !HasId(events, e.id)
    ensures var after := Appended(events, e);
            SelectedIndex(after, Min(scroll + 1, |after| - 1))
              == Max(SelectedIndex(events, scroll) - (|events| + 1 - |after|), 0)
  {
  }

  /** So the same event stays selected exactly while it is still in the tail. */
  lemma PausedEventStays(events: seq<Event>, e: Event, scroll: int)
    requires events != [] && scroll > 0 && !HasId(events, e.id) && DistinctIds(events)
    ensures var after := Appended(events, e);
            var was := events[SelectedIndex(events, scroll)];
            var now := after[SelectedIndex(after, Min(scroll + 1, |after| - 1))];
            && (was in after <==> now == was)
            && (was !in after ==> now == after[0])
  {
  }

  // ------------------------------------------------------------ feeding a stream

  /** The tail after a stream of live events, and how many of them were counted as new. */
  function Fed(tail: seq<Event>, stream: seq<Event>): seq<Event>
    decreases |stream|
  {
    if stream == [] then tail else Fed(Appended(tail, stream[0]), stream[1..])
  }

  function Counted(tail: seq<Event>, stream: seq<Event>): nat
    decreases |stream|
  {
    if stream == [] then 0
    else (if HasId(tail, stream[0].id) then 0 else 1) + Counted(Appended(tail, stream[0]), stream[1..])
  }

  /** The first appearances of a stream, after what is already known. */
  function FirstSeen(known: seq<Event>, stream: seq<Event>): seq<Event>
    decreases |stream|
  {
    if stream == [] then known
    else FirstSeen(if HasId(known, stream[0].id) then known else known + [stream[0]], stream[1..])
  }

  lemma {:induction false} FirstSeenExtends(known: seq<Event>, stream: seq<Event>)
    ensures known <= FirstSeen(known, stream)
    decreases |stream|
  {
    if stream != [] {
      FirstSeenExtends(if HasId(known, stream[0].id) then known else known + [stream[0]], stream[1..]);
    }
  }

  /** However often the stream repeats itself, the tail never holds an id twice and never outgrows its bound. */
  lemma {:induction false} TailStaysDistinct(tail: seq<Event>, stream: seq<Event>)
    requires DistinctIds(tail)
    ensures DistinctIds(Fed(tail, stream))
    ensures |Fed(tail, stream)| <= Max(CAP, |tail|)
    decreases |stream|
  {
    if stream != [] {
      TailStaysDistinct(Appended(tail, stream[0]), stream[1..]);
    }
  }

  /** While nothing rolls off, the tail is exactly the first appearances in order, each counted once. */
  lemma {:induction false} TailIsFirstSeen(tail: seq<Event>, stream: seq<Event>)
    requires |FirstSeen(tail, stream)| <= CAP
    ensures Fed(tail, stream) == FirstSeen(tail, stream)
    ensures Counted(tail, stream) == |FirstSeen(tail, stream)| - |tail|
    decreases |stream|
  {
    if stream != [] {
      FirstSeenExtends(if HasId(tail, stream[0].id) then tail else tail + [stream[0]], stream[1..]);
      TailIsFirstSeen(Appended(tail, stream[0]), stream[1..]);
    }
  }

  lemma {:induction false} FirstSeenCovers(known: seq<Event>, stream: seq<Event>, e: Event)
    requires e in stream || HasId(known, e.id)
    ensures HasId(FirstSeen(known, stream), e.id)
    decreases |stream|
  {
    if stream == [] {
    } else {
      var next := if HasId(known, stream[0].id) then known else known + [stream[0]];
      if HasId(known, e.id) {
        var i :| 0 <= i < |known| && known[i].id == e.id;
        assert next[i].id == e.id;
      } else if e == stream[0] {
        assert next[|known|].id == e.id;
      }
      FirstSeenCovers(next, stream[1..], e);
    }
  }

  /** An element of the stream that is known by then, but no longer in the tail. */
  ghost predicate RepeatsRolledOff(tail: seq<Event>, known: seq<Event>, stream: seq<Event>)
    decreases |stream|
  {
    stream != []
    && ((HasId(known, stream[0].id) && !HasId(tail, stream[0].id))
        || RepeatsRolledOff(Appended(tail, stream[0]),
                            if HasId(known, stream[0].id) then known else known + [stream[0]], stream[1..]))
  }

  ghost predicate Knows(known: seq<Event>, tail: seq<Event>) {
    forall id :: HasId(tail, id) ==> HasId(known, id)
  }

  lemma KnowsOneMore(tail: seq<Event>, known: seq<Event>, e: Event)
    requires Knows(known, tail)
    ensures Knows(if HasId(known, e.id) then known else known + [e], Appended(tail, e))
  {
    var next := if HasId(known, e.id) then known else known + [e];
    assert forall i :: 0 <= i < |known| ==> next[i] == known[i];
    if !HasId(known, e.id) { assert next[|known|].id == e.id; }
    forall id | HasId(Appended(tail, e), id) ensures HasId(next, id) {
      if id != e.id {
        var i :| 0 <= i < |Appended(tail, e)| && Appended(tail, e)[i].id == id;
        assert Appended(tail, e)[i] in tail + [e];
        var j :| 0 <= j < |tail| && tail[j].id == id;
        assert HasId(tail, id);
      }
    }
  }

  /**
   Every event is counted at least once, and each exactly once precisely when no repeat comes of an
   event that has rolled off the tail.
   */
  lemma {:induction false} CountedOnceExactly(tail: seq<Event>, known: seq<Event>, stream: seq<Event>)
    requires Knows(known, tail)
    ensures Counted(tail, stream) >= |FirstSeen(known, stream)| - |known|
    ensures Counted(tail, stream) == |FirstSeen(known, stream)| - |known| <==> !RepeatsRolledOff(tail, known, stream)
    decreases |stream|
  {
    if stream != [] {
      var next := if HasId(known, stream[0].id) then known else known + [stream[0]];
      KnowsOneMore(tail, known, stream[0]);
      CountedOnceExactly(Appended(tail, stream[0]), next, stream[1..]);
    }
  }

  /**
   Past the cap the count is not the number of events: a repeat of an event that has rolled off is
   appended and counted again, so 201 events and one repeat count as 202.
   */
  lemma RepeatAfterRollOffCountsAgain(events: seq<Event>)
    requires DistinctIds(events) && |events| == CAP + 1
    ensures Counted([], events + [events[0]]) == CAP + 2
  {
    FedDistinct([], events);
    CountedSplit([], events, [events[0]]);
    var tail := Fed([], events);
    assert tail == events[1..];
    assert !HasId(tail, events[0].id);
    assert [events[0]][1..] == [];
    assert Counted(Appended(tail, events[0]), []) == 0;
  }

  /** Feeding distinct new events keeps the last of them. */
  lemma {:induction false} FedDistinct(tail: seq<Event>, stream: seq<Event>)
    requires DistinctIds(tail + stream) && |tail| <= CAP
    ensures Fed(tail, stream) == LastOf(tail + stream, CAP)
    ensures Counted(tail, stream) == |stream|
    decreases |stream|
  {
    if stream == [] {
      assert tail + stream == tail;
    } else {
      assert (tail + stream)[|tail|] == stream[0];
      assert !HasId(tail, stream[0].id) by {
        forall i | 0 <= i < |tail| ensures tail[i].id != stream[0].id {
          assert (tail + stream)[i].id != (tail + stream)[|tail|].id;
        }
      }
      var next := Appended(tail, stream[0]);
      var dropped := |tail| + 1 - |next|;
      assert next + stream[1..] == (tail + stream)[dropped..];
      assert DistinctIds(next + stream[1..]) by {
        forall i, j | 0 <= i < j < |next + stream[1..]| ensures (next + stream[1..])[i].id != (next + stream[1..])[j].id {
          assert (tail + stream)[i + dropped].id != (tail + stream)[j + dropped].id;
        }
      }
      FedDistinct(next, stream[1..]);
      assert LastOf(next + stream[1..], CAP) == LastOf(tail + stream, CAP);
    }
  }

  lemma {:induction false} CountedSplit(tail: seq<Event>, x: seq<Event>, y: seq<Event>)
    ensures Counted(tail, x + y) == Counted(tail, x) + Counted(Fed(tail, x), y)
    decreases |x|
  {
    if x == [] {
      assert x + y == y;
    } else {
      assert (x + y)[1..] == x[1..] + y;
      CountedSplit(Appended(tail, x[0]), x[1..], y);
    }
  }
}
