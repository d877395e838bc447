/** What the state after a run of scenes shows, read off the events of the run alone. */
module SceneHistory {
  import opened Common
  import opened SceneModel
  import opened SceneContinuity

  /** All events of a run, in order. */
  function AllEvents(scenes: seq<Scene>): seq<Event> {
    if scenes == [] then [] else AllEvents(scenes[..|scenes| - 1]) + scenes[|scenes| - 1].events
  }

  // ---------- Open actions ----------

  predicate Begins(e: Event) {
    e.status == "started" || e.status == "ongoing"
  }

  /** The later event begins the same id again, or closes the id or the action. */
  predicate Supersedes(later: Event, e: Event) {
    || (Begins(later) && later.id == e.id)
    || (later.status in {"completed", "resolved", "interrupted", "cancelled", "canceled", "failed"}
        && (later.id == e.id
            || (later.kind == e.kind && multiset(later.subjects) == multiset(e.subjects)
                && multiset(later.objects) == multiset(e.objects) && later.location == e.location)))
  }

  /** Begun, and nothing superseded it since. */
  predicate StillOpen(events: seq<Event>, i: nat)
    requires i < |events|
  {
    Begins(events[i]) && forall j | i < j < |events| :: !Supersedes(events[j], events[i])
  }

  /** Those of the first `n` events that are still open after all of them, in order. */
  function OpenAmong(events: seq<Event>, n: nat): seq<Event>
    requires n <= |events|
  {
    if n == 0 then [] else OpenAmong(events, n - 1) + if StillOpen(events, n - 1) then [events[n - 1]] else []
  }

  /** What a later event leaves of a list. */
  function NotSuperseded(open: seq<Event>, later: Event): seq<Event> {
    if open == [] then []
    else
      NotSuperseded(open[..|open| - 1], later)
      + if Supersedes(later, open[|open| - 1]) then [] else [open[|open| - 1]]
  }

  lemma NotSupersededSnoc(open: seq<Event>, x: Event, later: Event)
    ensures NotSuperseded(open + [x], later) == NotSuperseded(open, later) + if Supersedes(later, x) then [] else [x]
  {
    assert (open + [x])[..|open|] == open;
  }

  lemma StillOpenSnoc(events: seq<Event>, e: Event, i: nat)
    requires i < |events|
    ensures StillOpen(events + [e], i) <==> StillOpen(events, i) && !Supersedes(e, events[i])
  {
    var all := events + [e];
    assert all[|events|] == e;
    if StillOpen(all, i) {
      forall j | i < j < |events| ensures !Supersedes(events[j], events[i]) {
        assert all[j] == events[j];
      }
    }
  }

  lemma {:induction false} OpenAmongSnoc(events: seq<Event>, e: Event, n: nat)
    requires n <= |events|
    ensures OpenAmong(events + [e], n) == NotSuperseded(OpenAmong(events, n), e)
  {
    if n == 0 {
    } else {
      OpenAmongSnoc(events, e, n - 1);
      StillOpenSnoc(events, e, n - 1);
      OneOfThem(events, e, n, OpenAmong(events, n - 1));
    }
  }

  lemma OneOfThem(events: seq<Event>, e: Event, n: nat, before: seq<Event>)
    requires 0 < n <= |events| && before == OpenAmong(events, n - 1)
    requires StillOpen(events + [e], n - 1) <==> StillOpen(events, n - 1) && !Supersedes(e, events[n - 1])
    ensures NotSuperseded(OpenAmong(events, n), e)
         == NotSuperseded(before, e) + if StillOpen(events + [e], n - 1) then [events[n - 1]] else []
  {
    if StillOpen(events, n - 1) {
      NotSupersededSnoc(before, events[n - 1], e);
    } else {
      assert before + [] == before;
    }
  }

  /** `e` drops `x` from the open actions. */
  predicate Drops(e: Event, bySignature: bool, x: Event) {
    x.id == e.id || (bySignature && SameAction(x, e))
  }

  lemma DropsSuperseded(e: Event, x: Event)
    ensures Opens(e.status) ==> (Drops(e, false, x) <==> Supersedes(e, x))
    ensures Closes(e.status) ==> (Drops(e, true, x) <==> Supersedes(e, x))
    ensures !Opens(e.status) && !Closes(e.status) ==> !Supersedes(e, x)
  {
  }

  lemma {:induction false} WithoutDropped(open: seq<Event>, e: Event, bySignature: bool)
    requires forall x :: Drops(e, bySignature, x) <==> Supersedes(e, x)
    ensures Without(open, e, bySignature) == NotSuperseded(open, e)
    decreases |open|
  {
    if open == [] {
    } else {
      WithoutDropped(open[..|open| - 1], e, bySignature);
      assert Drops(e, bySignature, open[|open| - 1]) <==> Supersedes(e, open[|open| - 1]);
    }
  }

  lemma {:induction false} NoneSuperseded(open: seq<Event>, e: Event)
    requires forall x :: !Supersedes(e, x)
    ensures NotSuperseded(open, e) == open
    decreases |open|
  {
    if open == [] {
    } else {
      NoneSuperseded(open[..|open| - 1], e);
      assert open == open[..|open| - 1] + [open[|open| - 1]];
    }
  }

  lemma RecordedOpen(p: Progress, e: Event)
    ensures Record(p, e).open == NotSuperseded(p.open, e) + if Begins(e) then [e] else []
  {
    forall x
      ensures Opens(e.status) ==> (Drops(e, false, x) <==> Supersedes(e, x))
      ensures Closes(e.status) ==> (Drops(e, true, x) <==> Supersedes(e, x))
      ensures !Opens(e.status) && !Closes(e.status) ==> !Supersedes(e, x)
    {
      DropsSuperseded(e, x);
    }
    if Opens(e.status) {
      WithoutDropped(p.open, e, false);
    } else if Closes(e.status) {
      WithoutDropped(p.open, e, true);
    } else {
      NoneSuperseded(p.open, e);
    }
  }

  const NOTHING := Progress([], [], [])

  lemma {:induction false} OpenExactly(events: seq<Event>)
    ensures RecordAll(NOTHING, events).open == OpenAmong(events, |events|)
    decreases |events|
  {
    if events == [] {
    } else {
      var front, e := events[..|events| - 1], events[|events| - 1];
      OpenExactly(front);
      OpenAmongSnoc(front, e, |front|);
      RecordedOpen(RecordAll(NOTHING, front), e);
      assert events == front + [e];
    }
  }

  // ---------- Completed events ----------

  /** The first event with this id that was completed. */
  predicate FirstCompletion(events: seq<Event>, i: nat)
    requires i < |events|
  {
    events[i].status == "completed" && forall j | 0 <= j < i :: !(events[j].status == "completed" && events[j].id == events[i].id)
  }

  /** The ids of completed events, in order of completion. */
  function CompletedIds(events: seq<Event>, n: nat): seq<string>
    requires n <= |events|
  {
    if n == 0 then [] else CompletedIds(events, n - 1) + if FirstCompletion(events, n - 1) then [events[n - 1].id] else []
  }

  /** The same kind of thing happened to the same people and things at the same place. */
  predicate SameHappening(a: Event, b: Event) {
    && a.kind == b.kind && multiset(a.subjects) == multiset(b.subjects) && multiset(a.objects) == multiset(b.objects)
    && a.location == b.location
  }

  predicate FirstHappening(events: seq<Event>, i: nat)
    requires i < |events|
  {
    && events[i].status == "completed"
    && forall j | 0 <= j < i :: !(events[j].status == "completed" && SameHappening(events[j], events[i]))
  }

  /** The completed events that did not happen before, in order. */
  function Happenings(events: seq<Event>, n: nat): seq<Event>
    requires n <= |events|
  {
    if n == 0 then [] else Happenings(events, n - 1) + if FirstHappening(events, n - 1) then [events[n - 1]] else []
  }

  lemma {:induction false} IdsAmong(events: seq<Event>, n: nat, id: string)
    requires n <= |events|
    ensures id in CompletedIds(events, n) <==> exists j :: 0 <= j < n && events[j].status == "completed" && events[j].id == id
  {
    if n == 0 {
    } else {
      IdsAmong(events, n - 1, id);
      if events[n - 1].status == "completed" && events[n - 1].id == id && !FirstCompletion(events, n - 1) {
        var j :| 0 <= j < n - 1 && events[j].status == "completed" && events[j].id == id;
      }
    }
  }

  /** Something like `e` was completed among the first `n` events. */
  predicate Happened(events: seq<Event>, n: nat, e: Event)
    requires n <= |events|
  {
    exists j :: 0 <= j < n && events[j].status == "completed" && SameHappening(events[j], e)
  }

  predicate Recorded(kept: seq<Event>, e: Event) {
    exists q :: q in kept && SameHappening(q, e)
  }

  lemma RecordedSnoc(kept: seq<Event>, x: Event, e: Event)
    ensures Recorded(kept + [x], e) <==> Recorded(kept, e) || SameHappening(x, e)
  {
    assert x in kept + [x];
    assert forall q :: q in kept + [x] <==> q in kept || q == x;
  }

  lemma HappenedSnoc(events: seq<Event>, n: nat, e: Event)
    requires 0 < n <= |events|
    ensures Happened(events, n, e)
            <==> Happened(events, n - 1, e) || (events[n - 1].status == "completed" && SameHappening(events[n - 1], e))
  {
  }

  lemma HappenedAlike(events: seq<Event>, n: nat, x: Event, e: Event)
    requires n <= |events| && SameHappening(x, e)
    ensures Happened(events, n, x) <==> Happened(events, n, e)
  {
  }

  lemma {:induction false} HappeningsAmong(events: seq<Event>, n: nat, e: Event)
    requires n <= |events|
    ensures Recorded(Happenings(events, n), e) <==> Happened(events, n, e)
    ensures forall q | q in Happenings(events, n) :: q.status == "completed"
  {
    if n == 0 {
    } else {
      var x, before := events[n - 1], Happenings(events, n - 1);
      HappeningsAmong(events, n - 1, e);
      HappenedSnoc(events, n, e);
      if FirstHappening(events, n - 1) {
        RecordedSnoc(before, x, e);
      } else {
        assert before + [] == before;
        if x.status == "completed" && SameHappening(x, e) {
          assert Happened(events, n - 1, x);
          HappenedAlike(events, n - 1, x, e);
        }
      }
    }
  }

  lemma {:induction false} PrefixCompleted(events: seq<Event>, front: seq<Event>, n: nat)
    requires n <= |front| <= |events| && front == events[..|front|]
    ensures CompletedIds(events, n) == CompletedIds(front, n) && Happenings(events, n) == Happenings(front, n)
  {
    if n == 0 {
    } else {
      PrefixCompleted(events, front, n - 1);
      assert forall j | 0 <= j < n :: events[j] == front[j];
    }
  }

  lemma {:induction false} CompletedIdsExactly(events: seq<Event>)
    ensures RecordAll(NOTHING, events).completedIds == CompletedIds(events, |events|)
    decreases |events|
  {
    if events == [] {
    } else {
      var front, e := events[..|events| - 1], events[|events| - 1];
      CompletedIdsExactly(front);
      PrefixCompleted(events, front, |front|);
      IdsAmong(events, |front|, e.id);
    }
  }

  lemma {:induction false} HappeningsExactly(events: seq<Event>)
    ensures RecordAll(NOTHING, events).completedEvents == Happenings(events, |events|)
    decreases |events|
  {
    if events == [] {
    } else {
      var front, e := events[..|events| - 1], events[|events| - 1];
      HappeningsExactly(front);
      PrefixCompleted(events, front, |front|);
      HappeningsAmong(events, |front|, e);
      RecordedHappening(RecordAll(NOTHING, front), e);
    }
  }

  lemma RecordedHappening(p: Progress, e: Event)
    requires forall q | q in p.completedEvents :: q.status == "completed"
    ensures Record(p, e).completedEvents
         == p.completedEvents
            + if e.status == "completed" && !Recorded(p.completedEvents, e) then [e] else []
  {
    assert e.status == "completed" ==> forall q | q in p.completedEvents :: SameEvent(q, e) <==> SameHappening(q, e);
  }

  // ---------- Whole runs ----------

  lemma {:induction false} RecordConcat(p: Progress, a: seq<Event>, b: seq<Event>)
    ensures RecordAll(p, a + b) == RecordAll(RecordAll(p, a), b)
    decreases |b|
  {
    if b == [] {
      assert a + b == a;
    } else {
      assert (a + b)[..|a + b| - 1] == a + b[..|b| - 1];
      RecordConcat(p, a, b[..|b| - 1]);
    }
  }

  lemma {:induction false} ProgressOverRun(scenes: seq<Scene>, bookkeeping: set<string>)
    requires Play(EMPTY, scenes, bookkeeping).Some?
    ensures ProgressOf(Play(EMPTY, scenes, bookkeeping).value) == RecordAll(NOTHING, AllEvents(scenes))
    decreases |scenes|
  {
    if scenes == [] {
    } else {
      var front := scenes[..|scenes| - 1];
      ProgressOverRun(front, bookkeeping);
      RecordConcat(NOTHING, AllEvents(front), scenes[|scenes| - 1].events);
    }
  }

  /** After any run of accepted scenes the open actions are exactly the events that began and were not superseded since,
      in order; the completed ids those of the completed events, each once and in order; and the completed events those
      that had not happened before. */
  lemma StateShowsTheEvents(scenes: seq<Scene>, bookkeeping: set<string>)
    requires Play(EMPTY, scenes, bookkeeping).Some?
    ensures var state, events := Play(EMPTY, scenes, bookkeeping).value, AllEvents(scenes);
            && state.openActions == OpenAmong(events, |events|)
            && state.completedIds == CompletedIds(events, |events|)
            && state.completedEvents == Happenings(events, |events|)
  {
    ProgressOverRun(scenes, bookkeeping);
    OpenExactly(AllEvents(scenes));
    CompletedIdsExactly(AllEvents(scenes));
    HappeningsExactly(AllEvents(scenes));
  }

  // ---------- Place and people ----------

  /** The place of the last event that has one. */
  predicate LastPlace(events: seq<Event>, place: string) {
    if place == "" then forall i | 0 <= i < |events| :: events[i].location == ""
    else
      exists i | 0 <= i < |events| ::
        events[i].location == place && forall j | i < j < |events| :: events[j].location == ""
  }

  lemma LastPlaceConcat(a: seq<Event>, b: seq<Event>, earlier: string, later: string)
    requires LastPlace(a, earlier) && LastPlace(b, later)
    ensures LastPlace(a + b, if later == "" then earlier else later)
  {
    var all := a + b;
    assert forall i | 0 <= i < |a| :: all[i] == a[i];
    assert forall i | 0 <= i < |b| :: all[|a| + i] == b[i];
    if later != "" {
      var i :| 0 <= i < |b| && b[i].location == later && forall j | i < j < |b| :: b[j].location == "";
      assert all[|a| + i].location == later;
      forall j | |a| + i < j < |all| ensures all[j].location == "" {
        assert all[j] == b[j - |a|];
      }
    } else if earlier != "" {
      var i :| 0 <= i < |a| && a[i].location == earlier && forall j | i < j < |a| :: a[j].location == "";
      forall j | i < j < |all| ensures all[j].location == "" {
        assert all[j] == if j < |a| then a[j] else b[j - |a|];
      }
    } else {
      forall j | 0 <= j < |all| ensures all[j].location == "" {
        assert all[j] == if j < |a| then a[j] else b[j - |a|];
      }
    }
  }

  lemma {:induction false} LastLocationIsPlace(events: seq<Event>)
    ensures LastPlace(events, LastLocation(events))
    decreases |events|
  {
    if events == [] {
    } else {
      var front, e := events[..|events| - 1], events[|events| - 1];
      LastLocationIsPlace(front);
      assert events == front + [e];
      LastPlaceConcat(front, [e], LastLocation(front), e.location);
    }
  }

  /** The people of the scene who were at the place. */
  ghost predicate CastAt(events: seq<Event>, place: string, present: set<string>) {
    forall x :: x in present <==> exists e :: e in events && e.location == place && x in e.subjects
  }

  /** The last scene with an event at a place decides who is present: its subjects at its last place. */
  ghost predicate LastCast(scenes: seq<Scene>, place: string, present: set<string>) {
    if place == "" then present == {}
    else
      exists k | 0 <= k < |scenes| ::
        && LastPlace(scenes[k].events, place) && (forall l | k < l < |scenes| :: LastPlace(scenes[l].events, ""))
        && CastAt(scenes[k].events, place, present)
  }

  lemma LastCastSnoc(front: seq<Scene>, last: Scene, before: State)
    requires LastCast(front, before.currentLocation, before.present)
    ensures var after := After(before, last); LastCast(front + [last], after.currentLocation, after.present)
  {
    var place, scenes := LastLocation(last.events), front + [last];
    LastLocationIsPlace(last.events);
    assert scenes[|front|] == last;
    if place == "" && before.currentLocation != "" {
      var k :| 0 <= k < |front| && LastPlace(front[k].events, before.currentLocation)
               && (forall l | k < l < |front| :: LastPlace(front[l].events, ""))
               && CastAt(front[k].events, before.currentLocation, before.present);
      assert scenes[k] == front[k];
      forall l | k < l < |scenes| ensures LastPlace(scenes[l].events, "") {
        assert scenes[l] == if l < |front| then front[l] else last;
      }
    }
  }

  ghost predicate Placed(scenes: seq<Scene>, state: State) {
    LastPlace(AllEvents(scenes), state.currentLocation) && LastCast(scenes, state.currentLocation, state.present)
  }

  lemma OneMorePlace(scenes: seq<Scene>, front: seq<Scene>, before: State, after: State)
    requires scenes != [] && front == scenes[..|scenes| - 1] && after == After(before, scenes[|scenes| - 1])
    requires Placed(front, before)
    ensures Placed(scenes, after)
  {
    var last := scenes[|scenes| - 1];
    LastLocationIsPlace(last.events);
    LastPlaceConcat(AllEvents(front), last.events, before.currentLocation, LastLocation(last.events));
    LastCastSnoc(front, last, before);
    assert scenes == front + [last];
  }

  /** After any run the current place is that of the last event that has one, and those present are the people of its scene
      who were there. */
  lemma {:induction false} PlaceIsLast(scenes: seq<Scene>, bookkeeping: set<string>)
    requires Play(EMPTY, scenes, bookkeeping).Some?
    ensures Placed(scenes, Play(EMPTY, scenes, bookkeeping).value)
    decreases |scenes|
  {
    if scenes == [] {
    } else {
      var front := scenes[..|scenes| - 1];
      PlaceIsLast(front, bookkeeping);
      OneMorePlace(scenes, front, Play(EMPTY, front, bookkeeping).value, Play(EMPTY, scenes, bookkeeping).value);
    }
  }
}
