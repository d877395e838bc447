/** What every run of accepted scenes keeps. */
module SceneContinuity {
  import opened Common
  import opened SceneModel

  /** The state after accepted scenes; `None` as soon as one is rejected. */
  function Play(state: State, scenes: seq<Scene>, bookkeeping: set<string>): Option<State> {
    if scenes == [] then Some(state)
    else
      match Play(state, scenes[..|scenes| - 1], bookkeeping)
      case None => None
      case Some(before) =>
        if Accepted(before, scenes[|scenes| - 1], bookkeeping) then Some(After(before, scenes[|scenes| - 1])) else None
  }

  lemma AllEmpty(a: seq<Finding>, b: seq<Finding>, c: seq<Finding>, d: seq<Finding>, e: seq<Finding>, f: seq<Finding>,
                 g: seq<Finding>)
    requires a + b + c + d + e + f + g == []
    ensures a == b == c == d == e == f == g == []
  {
    assert |a + b + c + d + e + f + g| == |a| + |b| + |c| + |d| + |e| + |f| + |g|;
  }

  /** An accepted scene has no finding of any kind. */
  lemma AcceptedParts(before: State, scene: Scene, bookkeeping: set<string>)
    requires Accepted(before, scene, bookkeeping)
    ensures scene.required <= IdsOf(scene.events)
    ensures EventsFindings(before, scene, |scene.events|, bookkeeping) == []
    ensures ApplyLocations(before.locations, scene.locations).findings == []
    ensures ApplyNumbers(before.inventories, scene.inventory).findings == []
    ensures ApplyNumbers(before.counters, scene.counters).findings == []
  {
    var missing := scene.required - IdsOf(scene.events);
    AllEmpty(When(missing != {}, MissingPlanned(|missing|)),
             EventsFindings(before, scene, |scene.events|, bookkeeping),
             ApplyFields(before.characters, scene.characters, None).findings,
             ApplyFields(before.relationships, scene.relationships, Some(IdsOf(scene.events))).findings,
             ApplyLocations(before.locations, scene.locations).findings,
             ApplyNumbers(before.inventories, scene.inventory).findings,
             ApplyNumbers(before.counters, scene.counters).findings);
    assert forall id | id in scene.required :: id in IdsOf(scene.events) || id in missing;
  }

  // ---------- Conservation of numbers ----------

  function Change(d: NumberDelta): real {
    d.change.GetOr(0.0)
  }

  /** The sum of the changes declared for a key. */
  function ChangeSum(deltas: seq<NumberDelta>, key: string): real {
    if deltas == [] then 0.0
    else ChangeSum(deltas[..|deltas| - 1], key) + if deltas[|deltas| - 1].key == key then Change(deltas[|deltas| - 1]) else 0.0
  }

  /** The value the first delta for a key starts from. */
  function StartOf(deltas: seq<NumberDelta>, key: string): Option<real> {
    if deltas == [] then None
    else
      match StartOf(deltas[..|deltas| - 1], key)
      case Some(start) => Some(start)
      case None => if deltas[|deltas| - 1].key == key then deltas[|deltas| - 1].before else None
  }

  /** What the ledger held before, or what the deltas start from. */
  function Base(ledger: map<string, real>, deltas: seq<NumberDelta>, key: string): Option<real> {
    if key in ledger then Some(ledger[key]) else StartOf(deltas, key)
  }

  /** Every number is there. */
  predicate Complete(deltas: seq<NumberDelta>) {
    forall d | d in deltas :: d.before.Some? && d.change.Some? && d.after.Some?
  }

  lemma {:induction false} NumbersComplete(ledger: map<string, real>, deltas: seq<NumberDelta>)
    requires ApplyNumbers(ledger, deltas).findings == []
    ensures Complete(deltas)
    decreases |deltas|
  {
    if deltas == [] {
    } else {
      var front, last := deltas[..|deltas| - 1], deltas[|deltas| - 1];
      NumbersComplete(ledger, front);
      assert deltas == front + [last];
    }
  }

  lemma {:induction false} NumbersBalance(ledger: map<string, real>, deltas: seq<NumberDelta>, key: string)
    requires ApplyNumbers(ledger, deltas).findings == []
    ensures var after := ApplyNumbers(ledger, deltas).ledger;
            && (key in after <==> Base(ledger, deltas, key).Some?)
            && (key in after ==> after[key] == Base(ledger, deltas, key).value + ChangeSum(deltas, key))
    ensures StartOf(deltas, key).None? ==> ChangeSum(deltas, key) == 0.0
    decreases |deltas|
  {
    if deltas == [] {
    } else {
      NumbersBalance(ledger, deltas[..|deltas| - 1], key);
    }
  }

  lemma {:induction false} SumsAdd(a: seq<NumberDelta>, b: seq<NumberDelta>, key: string)
    ensures ChangeSum(a + b, key) == ChangeSum(a, key) + ChangeSum(b, key)
    ensures StartOf(a + b, key) == if StartOf(a, key).Some? then StartOf(a, key) else StartOf(b, key)
    decreases |b|
  {
    if b == [] {
      assert a + b == a;
    } else {
      assert (a + b)[..|a + b| - 1] == a + b[..|b| - 1];
      SumsAdd(a, b[..|b| - 1], key);
    }
  }

  /** All counter deltas of a run, in order. */
  function CounterDeltas(scenes: seq<Scene>): seq<NumberDelta> {
    if scenes == [] then [] else CounterDeltas(scenes[..|scenes| - 1]) + scenes[|scenes| - 1].counters
  }

  function InventoryDeltas(scenes: seq<Scene>): seq<NumberDelta> {
    if scenes == [] then [] else InventoryDeltas(scenes[..|scenes| - 1]) + scenes[|scenes| - 1].inventory
  }

  /** A ledger holds exactly the keys named by the deltas, each at its start plus all declared changes. */
  ghost predicate Conserved(ledger: map<string, real>, deltas: seq<NumberDelta>) {
    forall key ::
      && (key in ledger <==> StartOf(deltas, key).Some?)
      && (key in ledger ==> ledger[key] == StartOf(deltas, key).value + ChangeSum(deltas, key))
      && (key !in ledger ==> ChangeSum(deltas, key) == 0.0)
  }

  lemma StepConserved(ledger: map<string, real>, earlier: seq<NumberDelta>, deltas: seq<NumberDelta>)
    requires Conserved(ledger, earlier) && ApplyNumbers(ledger, deltas).findings == []
    ensures Conserved(ApplyNumbers(ledger, deltas).ledger, earlier + deltas)
  {
    var after := ApplyNumbers(ledger, deltas).ledger;
    forall key
      ensures && (key in after <==> StartOf(earlier + deltas, key).Some?)
              && (key in after ==> after[key] == StartOf(earlier + deltas, key).value + ChangeSum(earlier + deltas, key))
              && (key !in after ==> ChangeSum(earlier + deltas, key) == 0.0)
    {
      NumbersBalance(ledger, deltas, key);
      SumsAdd(earlier, deltas, key);
    }
  }

  /** Over any run of accepted scenes, every counter and every inventory value is what its first delta started from
      plus the sum of all changes declared since. */
  lemma {:induction false} EveryRunConserves(scenes: seq<Scene>, bookkeeping: set<string>)
    requires Play(EMPTY, scenes, bookkeeping).Some?
    ensures Conserved(Play(EMPTY, scenes, bookkeeping).value.counters, CounterDeltas(scenes))
    ensures Conserved(Play(EMPTY, scenes, bookkeeping).value.inventories, InventoryDeltas(scenes))
    decreases |scenes|
  {
    if scenes == [] {
    } else {
      var front, last := scenes[..|scenes| - 1], scenes[|scenes| - 1];
      EveryRunConserves(front, bookkeeping);
      var before := Play(EMPTY, front, bookkeeping).value;
      AcceptedParts(before, last, bookkeeping);
      StepConserved(before.counters, CounterDeltas(front), last.counters);
      StepConserved(before.inventories, InventoryDeltas(front), last.inventory);
    }
  }

  // ---------- Completed and open events ----------

  predicate DistinctIds(events: seq<Event>) {
    forall i, j | 0 <= i < j < |events| :: events[i].id != events[j].id
  }

  /** Each id is open at most once and completed at most once, never both. */
  predicate Tidy(p: Progress) {
    && NoRepeats(p.completedIds)
    && DistinctIds(p.open)
    && forall e | e in p.open :: e.id !in p.completedIds
  }

  lemma DistinctSnoc(front: seq<Event>, last: Event)
    ensures DistinctIds(front + [last]) <==> DistinctIds(front) && forall x | x in front :: x.id != last.id
  {
    var all := front + [last];
    if DistinctIds(all) {
      forall i, j | 0 <= i < j < |front| ensures front[i].id != front[j].id {
        assert all[i] == front[i] && all[j] == front[j];
      }
      forall x | x in front ensures x.id != last.id {
        var i :| 0 <= i < |front| && front[i] == x;
        assert all[i] == x && all[|front|] == last;
      }
    }
    if DistinctIds(front) && forall x | x in front :: x.id != last.id {
      forall i, j | 0 <= i < j < |all| ensures all[i].id != all[j].id {
        assert front[i] in front;
      }
    }
  }

  lemma {:induction false} WithoutKeeps(events: seq<Event>, e: Event, bySignature: bool)
    ensures forall x | x in Without(events, e, bySignature) :: x in events && x.id != e.id
    ensures DistinctIds(events) ==> DistinctIds(Without(events, e, bySignature))
    decreases |events|
  {
    if events == [] {
    } else {
      var front, last := events[..|events| - 1], events[|events| - 1];
      WithoutKeeps(front, e, bySignature);
      assert events == front + [last];
      DistinctSnoc(front, last);
      DistinctSnoc(Without(front, e, bySignature), last);
      assert Without(front, e, bySignature) + [] == Without(front, e, bySignature);
    }
  }

  lemma RecordKeepsTidy(p: Progress, e: Event)
    requires Tidy(p) && e.id !in p.completedIds
    ensures Tidy(Record(p, e)) && p.completedIds <= Record(p, e).completedIds
    ensures forall id | id in Record(p, e).completedIds :: id in p.completedIds || id == e.id
  {
    WithoutKeeps(p.open, e, false);
    WithoutKeeps(p.open, e, true);
    DistinctSnoc(Without(p.open, e, false), e);
  }

  lemma {:induction false} RecordAllKeepsTidy(p: Progress, events: seq<Event>)
    requires Tidy(p) && DistinctIds(events) && forall e | e in events :: e.id !in p.completedIds
    ensures Tidy(RecordAll(p, events)) && p.completedIds <= RecordAll(p, events).completedIds
    ensures forall id | id in RecordAll(p, events).completedIds :: id in p.completedIds || id in IdsOf(events)
    decreases |events|
  {
    if events == [] {
    } else {
      var front, last := events[..|events| - 1], events[|events| - 1];
      assert events == front + [last];
      DistinctSnoc(front, last);
      RecordAllKeepsTidy(p, front);
      RecordKeepsTidy(RecordAll(p, front), last);
    }
  }

  lemma BothEmpty(a: seq<Finding>, b: seq<Finding>)
    requires a + b == []
    ensures a == [] && b == []
  {
    assert |a + b| == |a| + |b|;
  }

  /** When nothing is collected, no event shows anything. */
  lemma {:induction false} NoneCollected(check: (seq<Event>, Event) -> seq<Finding>, events: seq<Event>, n: nat, i: nat)
    requires i < n <= |events| && Collected(check, events, n) == []
    ensures check(events[..i], events[i]) == []
  {
    BothEmpty(Collected(check, events, n - 1), check(events[..n - 1], events[n - 1]));
    if i == n - 1 {
    } else {
      NoneCollected(check, events, n - 1, i);
    }
  }

  lemma EachEventClean(before: State, scene: Scene, bookkeeping: set<string>, i: nat)
    requires EventsFindings(before, scene, |scene.events|, bookkeeping) == [] && i < |scene.events|
    ensures EventFindings(before, scene, scene.events[..i], scene.events[i], bookkeeping) == []
  {
    NoneCollected((earlier, e) => EventFindings(before, scene, earlier, e, bookkeeping), scene.events, |scene.events|, i);
  }

  /** What a clean event satisfies. */
  lemma CleanEvent(before: State, scene: Scene, earlier: seq<Event>, e: Event, bookkeeping: set<string>)
    requires EventFindings(before, scene, earlier, e, bookkeeping) == []
    ensures LocationFindings(before.locations, e, scene.locations) == []
    ensures e.id !in IdsOf(earlier) && e.id !in before.completedIds && e.id !in scene.forbidden
    ensures Opens(e.status) ==> !Restarts(e, before.openActions)
    ensures e.status == "completed" ==> !RepeatsPrior(e, Recent(before.completedEvents), bookkeeping)
  {
    AllEmpty(LocationFindings(before.locations, e, scene.locations), When(e.id in IdsOf(earlier), DuplicateId(e.id)),
             When(e.status == "completed" && Anchored(e) && exists p | p in earlier :: SameEvent(p, e), DuplicateInScene(e.id)),
             When(scene.required != {} && e.id !in scene.required, Unplanned(e.id)),
             PlanFindings(e, scene.planned),
             When(e.id in scene.forbidden || e.id in before.completedIds, RepeatedCompleted(e.id)),
             When(e.status == "completed" && RepeatsPrior(e, Recent(before.completedEvents), bookkeeping), DuplicateOfPrior(e.id))
             + When(Opens(e.status) && Restarts(e, before.openActions), ActionRestarted(e.id)));
  }

  lemma EventFresh(before: State, scene: Scene, bookkeeping: set<string>, j: nat)
    requires EventsFindings(before, scene, |scene.events|, bookkeeping) == [] && j < |scene.events|
    ensures scene.events[j].id !in before.completedIds
    ensures forall i | 0 <= i < j :: scene.events[i].id != scene.events[j].id
  {
    EachEventClean(before, scene, bookkeeping, j);
    CleanEvent(before, scene, scene.events[..j], scene.events[j], bookkeeping);
    forall i | 0 <= i < j ensures scene.events[i].id != scene.events[j].id {
      assert scene.events[i] in scene.events[..j];
    }
  }

  lemma EventsFresh(before: State, scene: Scene, bookkeeping: set<string>)
    requires EventsFindings(before, scene, |scene.events|, bookkeeping) == []
    ensures DistinctIds(scene.events) && forall e | e in scene.events :: e.id !in before.completedIds
  {
    forall j | 0 <= j < |scene.events|
      ensures scene.events[j].id !in before.completedIds && forall i | 0 <= i < j :: scene.events[i].id != scene.events[j].id
    {
      EventFresh(before, scene, bookkeeping, j);
    }
  }

  function ProgressOf(state: State): Progress {
    Progress(state.openActions, state.completedIds, state.completedEvents)
  }

  /** The open action shown is the first one still open. */
  predicate ShowsOldest(state: State) {
    state.openAction == if state.openActions == [] then "" else state.openActions[0].id
  }

  lemma SceneKeepsTidy(before: State, scene: Scene, bookkeeping: set<string>)
    requires Tidy(ProgressOf(before)) && Accepted(before, scene, bookkeeping)
    ensures Tidy(ProgressOf(After(before, scene))) && ShowsOldest(After(before, scene))
    ensures before.completedIds <= After(before, scene).completedIds
  {
    AcceptedParts(before, scene, bookkeeping);
    EventsFresh(before, scene, bookkeeping);
    RecordAllKeepsTidy(ProgressOf(before), scene.events);
  }

  /** One more accepted scene. */
  lemma PlayStep(scenes: seq<Scene>, bookkeeping: set<string>, before: State, after: State)
    requires scenes != [] && Play(EMPTY, scenes[..|scenes| - 1], bookkeeping) == Some(before)
    requires Play(EMPTY, scenes, bookkeeping) == Some(after) && Tidy(ProgressOf(before))
    ensures Tidy(ProgressOf(after)) && ShowsOldest(after) && before.completedIds <= after.completedIds
  {
    SceneKeepsTidy(before, scenes[|scenes| - 1], bookkeeping);
  }

  /** Over any run of accepted scenes: completed event ids never repeat, open actions have distinct ids that are
      not completed, and the open action shown is the first one still open. */
  lemma {:induction false} EveryRunTidy(scenes: seq<Scene>, bookkeeping: set<string>)
    requires Play(EMPTY, scenes, bookkeeping).Some?
    ensures Tidy(ProgressOf(Play(EMPTY, scenes, bookkeeping).value))
    ensures ShowsOldest(Play(EMPTY, scenes, bookkeeping).value)
    decreases |scenes|
  {
    if scenes == [] {
    } else {
      var front := scenes[..|scenes| - 1];
      EveryRunTidy(front, bookkeeping);
      PlayStep(scenes, bookkeeping, Play(EMPTY, front, bookkeeping).value, Play(EMPTY, scenes, bookkeeping).value);
    }
  }

  predicate Plays(scenes: seq<Scene>, bookkeeping: set<string>) {
    Play(EMPTY, scenes, bookkeeping).Some?
  }

  function CompletedAfter(scenes: seq<Scene>, bookkeeping: set<string>): seq<string>
    requires Plays(scenes, bookkeeping)
  {
    Play(EMPTY, scenes, bookkeeping).value.completedIds
  }

  lemma OneMoreGrows(scenes: seq<Scene>, front: seq<Scene>, bookkeeping: set<string>)
    requires scenes != [] && front == scenes[..|scenes| - 1] && Plays(scenes, bookkeeping)
    ensures Plays(front, bookkeeping) && CompletedAfter(front, bookkeeping) <= CompletedAfter(scenes, bookkeeping)
  {
    EveryRunTidy(front, bookkeeping);
    PlayStep(scenes, bookkeeping, Play(EMPTY, front, bookkeeping).value, Play(EMPTY, scenes, bookkeeping).value);
  }

  lemma Shorten(scenes: seq<Scene>, front: seq<Scene>, n: nat)
    requires scenes != [] && front == scenes[..|scenes| - 1] && n < |scenes|
    ensures front[..n] == scenes[..n]
  {
  }

  /** Completed ids only grow: those of an earlier point of the run are a prefix of those of a later one. */
  lemma {:induction false} CompletedOnlyGrow(scenes: seq<Scene>, bookkeeping: set<string>, n: nat, part: seq<Scene>)
    requires n <= |scenes| && part == scenes[..n] && Plays(scenes, bookkeeping)
    ensures Plays(part, bookkeeping) && CompletedAfter(part, bookkeeping) <= CompletedAfter(scenes, bookkeeping)
    decreases |scenes|
  {
    if n == |scenes| {
      assert part == scenes;
    } else {
      var front := scenes[..|scenes| - 1];
      OneMoreGrows(scenes, front, bookkeeping);
      Shorten(scenes, front, n);
      CompletedOnlyGrow(front, bookkeeping, n, part);
    }
  }

  // ---------- Locations ----------

  lemma {:induction false} NoneMisplaced(locations: map<string, Value>, e: Event, names: seq<string>,
                                         deltas: seq<LocationDelta>, name: string)
    requires MisplacedAmong(locations, e, names, deltas) == [] && name in names
    ensures WellPlaced(locations, name, e.location, deltas)
    decreases |names|
  {
    assert names == names[..|names| - 1] + [names[|names| - 1]];
    if name != names[|names| - 1] {
      NoneMisplaced(locations, e, names[..|names| - 1], deltas, name);
    }
  }

  lemma {:induction false} LastMoveDecides(locations: map<string, Value>, deltas: seq<LocationDelta>, entity: string)
    requires ApplyLocations(locations, deltas).findings == []
    ensures var after := ApplyLocations(locations, deltas).ledger;
            match LastMove(deltas, entity)
            case Some(d) => d.after.Some? && entity in after && after[entity] == d.after.value
            case None => (entity in after <==> entity in locations) && (entity in after ==> after[entity] == locations[entity])
    decreases |deltas|
  {
    if deltas == [] {
    } else {
      LastMoveDecides(locations, deltas[..|deltas| - 1], entity);
    }
  }

  lemma {:induction false} UniqueMembers(names: seq<string>, name: string)
    ensures name in Unique(names) <==> name in names
    decreases |names|
  {
    if names == [] {
    } else {
      UniqueMembers(names[..|names| - 1], name);
      assert names == names[..|names| - 1] + [names[|names| - 1]];
    }
  }

  /** In an accepted scene, whoever takes part in an event at a place and whose whereabouts were known
      is at that place before the scene or after it. */
  lemma ParticipantsArePlaced(before: State, scene: Scene, bookkeeping: set<string>, e: Event, entity: string)
    requires Accepted(before, scene, bookkeeping) && e in scene.events && e.location != ""
    requires entity in e.subjects || entity in e.objects
    requires KnownAt(before.locations, entity)
    ensures before.locations[entity] == Text(e.location)
            || (entity in After(before, scene).locations && After(before, scene).locations[entity] == Text(e.location))
  {
    AcceptedParts(before, scene, bookkeeping);
    var i :| 0 <= i < |scene.events| && scene.events[i] == e;
    EachEventClean(before, scene, bookkeeping, i);
    CleanEvent(before, scene, scene.events[..i], e, bookkeeping);
    UniqueMembers(e.subjects + e.objects, entity);
    NoneMisplaced(before.locations, e, Unique(e.subjects + e.objects), scene.locations, entity);
    LastMoveDecides(before.locations, scene.locations, entity);
  }
}
