/** Exactly which findings a scene gives. */
module SceneFindings {
  import opened Common
  import opened SceneModel
  import opened SceneContinuity
  import opened SceneHistory

  // ---------- Findings about one event ----------

  /** Something or someone is named, or a place. */
  predicate HasAnchor(e: Event) {
    |e.subjects| > 0 || |e.objects| > 0 || |e.location| > 0
  }

  /** The last delta about an entity. */
  predicate LastAbout(deltas: seq<LocationDelta>, entity: string, i: int) {
    && 0 <= i < |deltas| && deltas[i].entity == entity
    && forall j | i < j < |deltas| :: deltas[j].entity != entity
  }

  /** The entity is known to be somewhere else, and its last delta does not bring it from there to the place. */
  predicate Elsewhere(locations: map<string, Value>, deltas: seq<LocationDelta>, entity: string, place: string) {
    && entity in locations && locations[entity].Text? && locations[entity].text != "" && locations[entity].text != place
    && !(entity != "" && exists i | 0 <= i < |deltas| ::
           LastAbout(deltas, entity, i) && deltas[i].before == locations[entity] && deltas[i].after == Some(Text(place)))
  }

  /** Both have an anchor, neither is mere bookkeeping, and they tell of the same happening. */
  predicate Repeats(e: Event, p: Event, bookkeeping: set<string>) {
    && e.kind !in bookkeeping && p.kind !in bookkeeping && HasAnchor(e) && HasAnchor(p)
    && SameHappening(p, e) && p.status == e.status
  }

  /** What must be the case for a finding about an event. */
  predicate Justified(before: State, scene: Scene, earlier: seq<Event>, e: Event, bookkeeping: set<string>, f: Finding) {
    match f
    case Misplaced(id, entity) =>
      && id == e.id && e.location != "" && (entity in e.subjects || entity in e.objects)
      && Elsewhere(before.locations, scene.locations, entity, e.location)
    case DuplicateId(id) => id == e.id && exists p :: p in earlier && p.id == e.id
    case DuplicateInScene(id) =>
      && id == e.id && e.status == "completed" && HasAnchor(e)
      && exists p :: p in earlier && SameHappening(p, e) && p.status == e.status
    case Unplanned(id) => id == e.id && scene.required != {} && e.id !in scene.required
    case KindMismatch(id) => id == e.id && e.id in scene.planned && scene.planned[e.id].kind != e.kind
    case ScopeMismatch(id) =>
      && id == e.id && e.id in scene.planned
      && var p := scene.planned[e.id];
         || (p.subjects != [] && p.subjects != e.subjects) || (p.objects != [] && p.objects != e.objects)
         || (p.location != "" && p.location != e.location)
    case RepeatedCompleted(id) => id == e.id && (e.id in scene.forbidden || e.id in before.completedIds)
    case DuplicateOfPrior(id) =>
      && id == e.id && e.status == "completed"
      && var done := before.completedEvents;
         exists i :: 0 <= i < |done| && i >= |done| - 24 && Repeats(e, done[i], bookkeeping)
    case ActionRestarted(id) =>
      && id == e.id && Begins(e) && HasAnchor(e)
      && exists p :: p in before.openActions && p.id != e.id && HasAnchor(p) && SameHappening(p, e)
    case _ => false
  }

  lemma {:induction false} LastMoveExactly(deltas: seq<LocationDelta>, entity: string)
    ensures LastMove(deltas, entity).None? ==> forall j | 0 <= j < |deltas| :: deltas[j].entity != entity
    ensures LastMove(deltas, entity).Some? ==>
              exists i :: LastAbout(deltas, entity, i) && LastMove(deltas, entity) == Some(deltas[i])
    decreases |deltas|
  {
    if deltas == [] {
    } else {
      var front, n := deltas[..|deltas| - 1], |deltas| - 1;
      LastMoveExactly(front, entity);
      if deltas[n].entity == entity {
        assert LastAbout(deltas, entity, n);
      } else if LastMove(front, entity).Some? {
        var i :| LastAbout(front, entity, i) && LastMove(front, entity) == Some(front[i]);
        assert LastAbout(deltas, entity, i);
      }
    }
  }

  lemma LastAboutOnce(deltas: seq<LocationDelta>, entity: string, i: int, j: int)
    requires LastAbout(deltas, entity, i) && LastAbout(deltas, entity, j)
    ensures i == j
  {
  }

  lemma WellPlacedExactly(locations: map<string, Value>, entity: string, place: string, deltas: seq<LocationDelta>)
    ensures WellPlaced(locations, entity, place, deltas) <==> !Elsewhere(locations, deltas, entity, place)
  {
    LastMoveExactly(deltas, entity);
    if LastMove(deltas, entity).Some? {
      var i :| LastAbout(deltas, entity, i) && LastMove(deltas, entity) == Some(deltas[i]);
      forall j | LastAbout(deltas, entity, j) ensures j == i {
        LastAboutOnce(deltas, entity, i, j);
      }
    }
  }

  lemma {:induction false} MisplacedExactly(locations: map<string, Value>, e: Event, names: seq<string>,
                                            deltas: seq<LocationDelta>, f: Finding)
    ensures f in MisplacedAmong(locations, e, names, deltas)
            <==> f.Misplaced? && f.event == e.id && f.entity in names && Elsewhere(locations, deltas, f.entity, e.location)
    decreases |names|
  {
    if names == [] {
    } else {
      var front, last := names[..|names| - 1], names[|names| - 1];
      MisplacedExactly(locations, e, front, deltas, f);
      WellPlacedExactly(locations, last, e.location, deltas);
      assert names == front + [last];
    }
  }

  lemma LocationExactly(before: State, scene: Scene, e: Event, f: Finding)
    ensures f in LocationFindings(before.locations, e, scene.locations)
            <==> f.Misplaced? && Justified(before, scene, [], e, {}, f)
  {
    if e.location != "" {
      MisplacedExactly(before.locations, e, Unique(e.subjects + e.objects), scene.locations, f);
      if f.Misplaced? {
        UniqueMembers(e.subjects + e.objects, f.entity);
      }
    }
  }

  lemma RepeatsAlike(e: Event, p: Event, bookkeeping: set<string>)
    ensures Repeats(e, p, bookkeeping)
            <==> !Bookkeeping(e, bookkeeping) && !Bookkeeping(p, bookkeeping) && Anchored(e) && Anchored(p) && SameEvent(p, e)
  {
  }

  lemma RecentAt(done: seq<Event>, k: nat)
    requires k < |Recent(done)|
    ensures |Recent(done)| == Min(24, |done|) && Recent(done)[k] == done[k + |done| - |Recent(done)|]
  {
  }

  lemma RepeatsExactly(e: Event, done: seq<Event>, bookkeeping: set<string>)
    ensures RepeatsPrior(e, Recent(done), bookkeeping)
            <==> exists i :: 0 <= i < |done| && i >= |done| - 24 && Repeats(e, done[i], bookkeeping)
  {
    var recent := Recent(done);
    forall p ensures Repeats(e, p, bookkeeping) <==> !Bookkeeping(e, bookkeeping) && !Bookkeeping(p, bookkeeping)
                                                     && Anchored(e) && Anchored(p) && SameEvent(p, e) {
      RepeatsAlike(e, p, bookkeeping);
    }
    if RepeatsPrior(e, recent, bookkeeping) {
      var p :| p in recent && Repeats(e, p, bookkeeping);
      var k :| 0 <= k < |recent| && recent[k] == p;
      RecentAt(done, k);
      assert Repeats(e, done[k + |done| - |recent|], bookkeeping);
    }
    if i :| 0 <= i < |done| && i >= |done| - 24 && Repeats(e, done[i], bookkeeping) {
      RecentAt(done, i - (|done| - Min(24, |done|)));
      assert done[i] in recent;
    }
  }

  lemma PlanExactly(before: State, scene: Scene, e: Event, f: Finding)
    ensures f in PlanFindings(e, scene.planned)
            <==> (f.KindMismatch? || f.ScopeMismatch?) && Justified(before, scene, [], e, {}, f)
  {
  }

  lemma RepeatsInSceneExactly(earlier: seq<Event>, e: Event)
    ensures Anchored(e) <==> HasAnchor(e)
    ensures (exists p | p in earlier :: SameEvent(p, e))
            <==> exists p :: p in earlier && SameHappening(p, e) && p.status == e.status
    ensures e.id in IdsOf(earlier) <==> exists p :: p in earlier && p.id == e.id
  {
    if p :| p in earlier && SameEvent(p, e) {
      assert SameHappening(p, e);
    }
    if p :| p in earlier && SameHappening(p, e) && p.status == e.status {
      assert SameEvent(p, e);
    }
  }

  lemma RestartsExactly(e: Event, running: seq<Event>)
    ensures Restarts(e, running)
            <==> HasAnchor(e) && exists p :: p in running && p.id != e.id && HasAnchor(p) && SameHappening(p, e)
  {
    if p :| p in running && p.id != e.id && Anchored(e) && Anchored(p) && SameAction(p, e) {
      assert HasAnchor(p) && SameHappening(p, e);
    }
    if HasAnchor(e) {
      if p :| p in running && p.id != e.id && HasAnchor(p) && SameHappening(p, e) {
        assert Anchored(p) && SameAction(p, e);
      }
    }
  }

  /** The sources of findings about an event. */
  lemma FromOneSource(before: State, scene: Scene, earlier: seq<Event>, e: Event, bookkeeping: set<string>, f: Finding)
    ensures f in EventFindings(before, scene, earlier, e, bookkeeping) <==>
              || f in LocationFindings(before.locations, e, scene.locations)
              || f in When(e.id in IdsOf(earlier), DuplicateId(e.id))
              || f in When(e.status == "completed" && Anchored(e) && exists p | p in earlier :: SameEvent(p, e), DuplicateInScene(e.id))
              || f in When(scene.required != {} && e.id !in scene.required, Unplanned(e.id))
              || f in PlanFindings(e, scene.planned)
              || f in When(e.id in scene.forbidden || e.id in before.completedIds, RepeatedCompleted(e.id))
              || f in When(e.status == "completed" && RepeatsPrior(e, Recent(before.completedEvents), bookkeeping), DuplicateOfPrior(e.id))
              || f in When(Opens(e.status) && Restarts(e, before.openActions), ActionRestarted(e.id))
  {
  }

  lemma DuplicatesExactly(before: State, scene: Scene, earlier: seq<Event>, e: Event, bookkeeping: set<string>, f: Finding)
    ensures f in When(e.id in IdsOf(earlier), DuplicateId(e.id))
            <==> f.DuplicateId? && Justified(before, scene, earlier, e, bookkeeping, f)
    ensures f in When(e.status == "completed" && Anchored(e) && exists p | p in earlier :: SameEvent(p, e), DuplicateInScene(e.id))
            <==> f.DuplicateInScene? && Justified(before, scene, earlier, e, bookkeeping, f)
  {
    RepeatsInSceneExactly(earlier, e);
  }

  lemma PriorsExactly(before: State, scene: Scene, earlier: seq<Event>, e: Event, bookkeeping: set<string>, f: Finding)
    ensures f in When(e.id in scene.forbidden || e.id in before.completedIds, RepeatedCompleted(e.id))
            <==> f.RepeatedCompleted? && Justified(before, scene, earlier, e, bookkeeping, f)
    ensures f in When(e.status == "completed" && RepeatsPrior(e, Recent(before.completedEvents), bookkeeping), DuplicateOfPrior(e.id))
            <==> f.DuplicateOfPrior? && Justified(before, scene, earlier, e, bookkeeping, f)
  {
    RepeatsExactly(e, before.completedEvents, bookkeeping);
  }

  lemma ActionsExactly(before: State, scene: Scene, earlier: seq<Event>, e: Event, bookkeeping: set<string>, f: Finding)
    ensures f in When(scene.required != {} && e.id !in scene.required, Unplanned(e.id))
            <==> f.Unplanned? && Justified(before, scene, earlier, e, bookkeeping, f)
    ensures f in When(Opens(e.status) && Restarts(e, before.openActions), ActionRestarted(e.id))
            <==> f.ActionRestarted? && Justified(before, scene, earlier, e, bookkeeping, f)
  {
    RestartsExactly(e, before.openActions);
  }

  lemma SameJustification(before: State, scene: Scene, earlier: seq<Event>, e: Event, bookkeeping: set<string>, f: Finding)
    requires f.Misplaced? || f.KindMismatch? || f.ScopeMismatch?
    ensures Justified(before, scene, earlier, e, bookkeeping, f) <==> Justified(before, scene, [], e, {}, f)
  {
  }

  /** A finding is reported about an event exactly when it is justified. */
  lemma EventFindingsExactly(before: State, scene: Scene, earlier: seq<Event>, e: Event, bookkeeping: set<string>, f: Finding)
    ensures f in EventFindings(before, scene, earlier, e, bookkeeping)
            <==> Justified(before, scene, earlier, e, bookkeeping, f)
  {
    FromOneSource(before, scene, earlier, e, bookkeeping, f);
    LocationExactly(before, scene, e, f);
    PlanExactly(before, scene, e, f);
    if f.Misplaced? || f.KindMismatch? || f.ScopeMismatch? {
      SameJustification(before, scene, earlier, e, bookkeeping, f);
    }
    DuplicatesExactly(before, scene, earlier, e, bookkeeping, f);
    PriorsExactly(before, scene, earlier, e, bookkeeping, f);
    ActionsExactly(before, scene, earlier, e, bookkeeping, f);
  }
}
