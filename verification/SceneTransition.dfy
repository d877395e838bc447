/** The scene state object: deltas are applied in place, one after the other, while findings are collected. */
module SceneTransition {
  import opened Common
  import opened SceneModel

  class SceneState {
    var characters: Fields
    var relationships: Fields
    var locations: map<string, Value>
    var inventories: map<string, real>
    var counters: map<string, real>
    var progress: Progress
    var currentLocation: string
    var present: set<string>
    var openAction: string

    function View(): State
      reads this
    {
      State(characters, relationships, locations, inventories, counters, progress.completedIds, progress.completedEvents,
            currentLocation, present, openAction, progress.open)
    }

    constructor (before: State)
      ensures View() == before
    {
      characters, relationships, locations := before.characters, before.relationships, before.locations;
      inventories, counters := before.inventories, before.counters;
      progress := Progress(before.openActions, before.completedIds, before.completedEvents);
      currentLocation, present, openAction := before.currentLocation, before.present, before.openAction;
    }

    method ApplyCharacterDeltas(deltas: seq<FieldDelta>) returns (findings: seq<Finding>)
      modifies this`characters
      ensures Applied(characters, findings) == ApplyFields(old(characters), deltas, None)
    {
      findings := [];
      for n := 0 to |deltas|
        invariant Applied(characters, findings) == ApplyFields(old(characters), deltas[..n], None)
      {
        assert deltas[..n + 1][..n] == deltas[..n];
        var d := deltas[n];
        if d.owner == "" || d.field == "" || d.after.None? {
          findings := findings + [InvalidDelta];
        } else {
          var own := FieldsOf(characters, d.owner);
          if d.field in own && own[d.field] != d.before {
            findings := findings + [StaleField];
          }
          characters := characters[d.owner := own[d.field := d.after.value]];
        }
      }
      assert deltas[..|deltas|] == deltas;
    }

    method ApplyRelationshipDeltas(deltas: seq<FieldDelta>, current: set<string>) returns (findings: seq<Finding>)
      modifies this`relationships
      ensures Applied(relationships, findings) == ApplyFields(old(relationships), deltas, Some(current))
    {
      findings := [];
      for n := 0 to |deltas|
        invariant Applied(relationships, findings) == ApplyFields(old(relationships), deltas[..n], Some(current))
      {
        assert deltas[..n + 1][..n] == deltas[..n];
        var d := deltas[n];
        if d.owner == "" || d.after.None? {
          findings := findings + [InvalidDelta];
        } else {
          var own := FieldsOf(relationships, d.owner);
          if d.sourceEvent == "" {
            findings := findings + [NoSourceEvent];
          } else if d.sourceEvent !in current {
            findings := findings + [ForeignSourceEvent];
          }
          if d.field in own && own[d.field] != d.before {
            findings := findings + [StaleField];
          }
          relationships := relationships[d.owner := own[d.field := d.after.value]];
        }
      }
      assert deltas[..|deltas|] == deltas;
    }

    method ApplyLocationDeltas(deltas: seq<LocationDelta>) returns (findings: seq<Finding>)
      modifies this`locations
      ensures Applied(locations, findings) == ApplyLocations(old(locations), deltas)
    {
      findings := [];
      for n := 0 to |deltas|
        invariant Applied(locations, findings) == ApplyLocations(old(locations), deltas[..n])
      {
        assert deltas[..n + 1][..n] == deltas[..n];
        var d := deltas[n];
        if d.entity == "" || d.after.None? {
          findings := findings + [InvalidDelta];
        } else {
          if d.entity in locations && locations[d.entity] != Null && locations[d.entity] != d.before {
            findings := findings + [StaleLocation];
          }
          locations := locations[d.entity := d.after.value];
        }
      }
      assert deltas[..|deltas|] == deltas;
    }

    method ApplyNumericDeltas(deltas: seq<NumberDelta>, inventory: bool) returns (findings: seq<Finding>)
      modifies this`inventories, this`counters
      ensures inventory ==> counters == old(counters)
                            && Applied(inventories, findings) == ApplyNumbers(old(inventories), deltas)
      ensures !inventory ==> inventories == old(inventories)
                             && Applied(counters, findings) == ApplyNumbers(old(counters), deltas)
    {
      findings := [];
      var ledger := if inventory then inventories else counters;
      for n := 0 to |deltas|
        invariant Applied(ledger, findings) == ApplyNumbers(old(if inventory then inventories else counters), deltas[..n])
      {
        assert deltas[..n + 1][..n] == deltas[..n];
        var d := deltas[n];
        if d.key == "" || d.before.None? || d.after.None? || d.change.None? {
          findings := findings + [InvalidDelta];
        } else {
          if d.key in ledger && ledger[d.key] != d.before.value {
            findings := findings + [StaleNumber];
          }
          if d.before.value + d.change.value != d.after.value {
            findings := findings + [BadArithmetic];
          }
          ledger := ledger[d.key := d.after.value];
        }
      }
      assert deltas[..|deltas|] == deltas;
      if inventory {
        inventories := ledger;
      } else {
        counters := ledger;
      }
    }

    /** Opens, closes and completes actions, event by event. */
    method RecordEvents(events: seq<Event>)
      modifies this`progress
      ensures progress == RecordAll(old(progress), events)
    {
      for n := 0 to |events|
        invariant progress == RecordAll(old(progress), events[..n])
      {
        assert events[..n + 1][..n] == events[..n];
        progress := Record(progress, events[n]);
      }
      assert events[..|events|] == events;
    }

    /** The place of the last event that has one, and who took part in events there. */
    method Settle(events: seq<Event>)
      modifies this`currentLocation, this`present, this`openAction
      ensures var place := LastLocation(events);
              && currentLocation == (if place == "" then old(currentLocation) else place)
              && present == (if place == "" then old(present) else SubjectsAt(events, place))
      ensures openAction == if progress.open == [] then "" else progress.open[0].id
    {
      var place := "";
      for n := 0 to |events|
        invariant place == LastLocation(events[..n])
      {
        assert events[..n + 1][..n] == events[..n];
        if events[n].location != "" {
          place := events[n].location;
        }
      }
      assert events[..|events|] == events;
      if place != "" {
        currentLocation := place;
        var who: set<string> := {};
        for n := 0 to |events|
          invariant who == SubjectsAt(events[..n], place)
        {
          assert events[..n + 1] == events[..n] + [events[n]];
          var here := if events[n].location == place then set x | x in events[n].subjects else {};
          assert SubjectsAt(events[..n + 1], place) == SubjectsAt(events[..n], place) + here;
          who := who + here;
        }
        assert events[..|events|] == events;
        present := who;
      }
      openAction := if progress.open == [] then "" else progress.open[0].id;
    }

    /** All deltas in their fixed order, then the events. */
    method ApplyScene(scene: Scene, ghost before: State)
        returns (found: (seq<Finding>, seq<Finding>, seq<Finding>, seq<Finding>, seq<Finding>))
      requires View() == before
      modifies this
      ensures View() == After(before, scene)
      ensures found.0 == ApplyFields(before.characters, scene.characters, None).findings
      ensures found.1 == ApplyFields(before.relationships, scene.relationships, Some(IdsOf(scene.events))).findings
      ensures found.2 == ApplyLocations(before.locations, scene.locations).findings
      ensures found.3 == ApplyNumbers(before.inventories, scene.inventory).findings
      ensures found.4 == ApplyNumbers(before.counters, scene.counters).findings
    {
      found := ApplyDeltas(scene);
      RecordAndSettle(scene.events);
    }

    /** The ledgers, each by its own deltas. */
    method ApplyDeltas(scene: Scene)
        returns (found: (seq<Finding>, seq<Finding>, seq<Finding>, seq<Finding>, seq<Finding>))
      modifies this`characters, this`relationships, this`locations, this`inventories, this`counters
      ensures Applied(characters, found.0) == ApplyFields(old(characters), scene.characters, None)
      ensures Applied(relationships, found.1) == ApplyFields(old(relationships), scene.relationships, Some(IdsOf(scene.events)))
      ensures Applied(locations, found.2) == ApplyLocations(old(locations), scene.locations)
      ensures Applied(inventories, found.3) == ApplyNumbers(old(inventories), scene.inventory)
      ensures Applied(counters, found.4) == ApplyNumbers(old(counters), scene.counters)
    {
      var first := ApplyCharacterDeltas(scene.characters);
      var second := ApplyRelationshipDeltas(scene.relationships, IdsOf(scene.events));
      var third := ApplyLocationDeltas(scene.locations);
      var fourth := ApplyNumericDeltas(scene.inventory, true);
      var fifth := ApplyNumericDeltas(scene.counters, false);
      found := (first, second, third, fourth, fifth);
    }

    /** The events change everything but the ledgers. */
    method RecordAndSettle(events: seq<Event>)
      modifies this`progress, this`currentLocation, this`present, this`openAction
      ensures progress == RecordAll(old(progress), events)
      ensures var place := LastLocation(events);
              && currentLocation == (if place == "" then old(currentLocation) else place)
              && present == (if place == "" then old(present) else SubjectsAt(events, place))
      ensures openAction == if progress.open == [] then "" else progress.open[0].id
    {
      RecordEvents(events);
      Settle(events);
    }
  }

  method ValidateEventLocation(before: State, e: Event, deltas: seq<LocationDelta>) returns (findings: seq<Finding>)
    ensures findings == LocationFindings(before.locations, e, deltas)
  {
    findings := [];
    if e.location == "" {
      return;
    }
    var names := Unique(e.subjects + e.objects);
    for n := 0 to |names|
      invariant findings == MisplacedAmong(before.locations, e, names[..n], deltas)
    {
      assert names[..n + 1][..n] == names[..n];
      if !WellPlaced(before.locations, names[n], e.location, deltas) {
        findings := findings + [Misplaced(e.id, names[n])];
      }
    }
    assert names[..|names|] == names;
  }

  method CheckEvent(before: State, scene: Scene, earlier: seq<Event>, e: Event, bookkeeping: set<string>)
      returns (found: seq<Finding>)
    ensures found == EventFindings(before, scene, earlier, e, bookkeeping)
  {
    found := ValidateEventLocation(before, e, scene.locations);
    found := found + When(e.id in IdsOf(earlier), DuplicateId(e.id));
    found := found + When(e.status == "completed" && Anchored(e) && exists p | p in earlier :: SameEvent(p, e),
                          DuplicateInScene(e.id));
    found := found + When(scene.required != {} && e.id !in scene.required, Unplanned(e.id));
    found := found + PlanFindings(e, scene.planned);
    found := found + When(e.id in scene.forbidden || e.id in before.completedIds, RepeatedCompleted(e.id));
    found := found + When(e.status == "completed" && RepeatsPrior(e, Recent(before.completedEvents), bookkeeping),
                          DuplicateOfPrior(e.id));
    found := found + When(Opens(e.status) && Restarts(e, before.openActions), ActionRestarted(e.id));
  }

  method CheckEvents(before: State, scene: Scene, bookkeeping: set<string>) returns (findings: seq<Finding>)
    ensures findings == EventsFindings(before, scene, |scene.events|, bookkeeping)
  {
    findings := [];
    for n := 0 to |scene.events|
      invariant findings == EventsFindings(before, scene, n, bookkeeping)
    {
      var found := CheckEvent(before, scene, scene.events[..n], scene.events[n], bookkeeping);
      findings := findings + found;
    }
  }

  /** Applies everything a scene declares, on a copy of the state, and reports every finding. */
  method ValidateSceneTransition(before: State, scene: Scene, bookkeeping: set<string>)
      returns (findings: seq<Finding>, after: SceneState)
    ensures findings == Findings(before, scene, bookkeeping)
    ensures fresh(after) && after.View() == After(before, scene)
  {
    after := new SceneState(before);
    var missing := scene.required - IdsOf(scene.events);
    findings := When(missing != {}, MissingPlanned(|missing|));
    var checked := CheckEvents(before, scene, bookkeeping);
    findings := findings + checked;
    var found := after.ApplyScene(scene, before);
    findings := findings + found.0 + found.1 + found.2 + found.3 + found.4;
  }
}
