/** When the declared changes of a scene are accepted, and what a run of accepted ones adds up to: every value is the one
    its last change declared, and each change starts from where the one before it ended. */
module SceneChanges {
  import opened Common
  import opened SceneModel
  import opened SceneContinuity
  import opened SceneFindings

  // ---------- One change ----------

  predicate NumberFits(ledger: map<string, real>, d: NumberDelta) {
    && d.key != "" && d.before.Some? && d.change.Some? && d.after.Some?
    && d.after.value == d.before.value + d.change.value
    && (d.key in ledger ==> ledger[d.key] == d.before.value)
  }

  predicate LocationFits(locations: map<string, Value>, d: LocationDelta) {
    && d.entity != "" && d.after.Some?
    && (d.entity in locations ==> locations[d.entity] == Null || locations[d.entity] == d.before)
  }

  /** A relationship change, besides, names an event of its scene. */
  predicate FieldFits(fields: Fields, d: FieldDelta, events: Option<set<string>>) {
    && d.owner != "" && d.after.Some?
    && (events.None? ==> d.field != "")
    && (events.Some? ==> d.sourceEvent != "" && d.sourceEvent in events.value)
    && (d.owner in fields && d.field in fields[d.owner] ==> fields[d.owner][d.field] == d.before)
  }

  // ---------- A list of changes ----------

  /** Each change fits where those before it have led. */
  predicate NumbersFit(ledger: map<string, real>, deltas: seq<NumberDelta>) {
    deltas != [] ==>
      var front := deltas[..|deltas| - 1];
      NumbersFit(ledger, front) && NumberFits(ApplyNumbers(ledger, front).ledger, deltas[|deltas| - 1])
  }

  predicate LocationsFit(locations: map<string, Value>, deltas: seq<LocationDelta>) {
    deltas != [] ==>
      var front := deltas[..|deltas| - 1];
      LocationsFit(locations, front) && LocationFits(ApplyLocations(locations, front).ledger, deltas[|deltas| - 1])
  }

  predicate FieldsFit(fields: Fields, deltas: seq<FieldDelta>, events: Option<set<string>>) {
    deltas != [] ==>
      var front := deltas[..|deltas| - 1];
      FieldsFit(fields, front, events) && FieldFits(ApplyFields(fields, front, events).ledger, deltas[|deltas| - 1], events)
  }

  lemma BothEmpty(a: seq<Finding>, b: seq<Finding>)
    ensures a + b == [] <==> a == [] && b == []
  {
    assert |a + b| == |a| + |b|;
  }

  lemma {:induction false} NumbersFitExactly(ledger: map<string, real>, deltas: seq<NumberDelta>)
    ensures ApplyNumbers(ledger, deltas).findings == [] <==> NumbersFit(ledger, deltas)
    decreases |deltas|
  {
    if deltas == [] {
    } else {
      var front, last := deltas[..|deltas| - 1], deltas[|deltas| - 1];
      NumbersFitExactly(ledger, front);
      BothEmpty(ApplyNumbers(ledger, front).findings, ApplyNumber(ApplyNumbers(ledger, front).ledger, last).findings);
    }
  }

  lemma {:induction false} LocationsFitExactly(locations: map<string, Value>, deltas: seq<LocationDelta>)
    ensures ApplyLocations(locations, deltas).findings == [] <==> LocationsFit(locations, deltas)
    decreases |deltas|
  {
    if deltas == [] {
    } else {
      var front, last := deltas[..|deltas| - 1], deltas[|deltas| - 1];
      LocationsFitExactly(locations, front);
      BothEmpty(ApplyLocations(locations, front).findings, ApplyLocation(ApplyLocations(locations, front).ledger, last).findings);
    }
  }

  lemma {:induction false} FieldsFitExactly(fields: Fields, deltas: seq<FieldDelta>, events: Option<set<string>>)
    ensures ApplyFields(fields, deltas, events).findings == [] <==> FieldsFit(fields, deltas, events)
    decreases |deltas|
  {
    if deltas == [] {
    } else {
      var front, last := deltas[..|deltas| - 1], deltas[|deltas| - 1];
      FieldsFitExactly(fields, front, events);
      BothEmpty(ApplyFields(fields, front, events).findings, ApplyField(ApplyFields(fields, front, events).ledger, last, events).findings);
    }
  }

  /** No finding is justified about the `i`-th event. */
  ghost predicate Blameless(before: State, scene: Scene, bookkeeping: set<string>, i: nat) {
    i < |scene.events| && forall f :: !Justified(before, scene, scene.events[..i], scene.events[i], bookkeeping, f)
  }

  predicate HasEvent(scene: Scene, id: string) {
    exists e :: e in scene.events && e.id == id
  }

  lemma NothingIsMissing(scene: Scene)
    ensures scene.required - IdsOf(scene.events) == {} <==> forall id | id in scene.required :: HasEvent(scene, id)
  {
    forall id ensures HasEvent(scene, id) <==> id in IdsOf(scene.events) {
    }
    if scene.required - IdsOf(scene.events) == {} {
      forall id | id in scene.required ensures HasEvent(scene, id) {
        assert id !in scene.required - IdsOf(scene.events);
      }
    }
  }

  /** A scene is accepted exactly when every required event is there, no event justifies a finding, and all changes fit. */
  lemma AcceptedExactly(before: State, scene: Scene, bookkeeping: set<string>)
    ensures Accepted(before, scene, bookkeeping) <==>
              && (forall id | id in scene.required :: HasEvent(scene, id))
              && (forall i: nat | i < |scene.events| :: Blameless(before, scene, bookkeeping, i))
              && FieldsFit(before.characters, scene.characters, None)
              && FieldsFit(before.relationships, scene.relationships, Some(IdsOf(scene.events)))
              && LocationsFit(before.locations, scene.locations)
              && NumbersFit(before.inventories, scene.inventory) && NumbersFit(before.counters, scene.counters)
  {
    FieldsFitExactly(before.characters, scene.characters, None);
    FieldsFitExactly(before.relationships, scene.relationships, Some(IdsOf(scene.events)));
    LocationsFitExactly(before.locations, scene.locations);
    NumbersFitExactly(before.inventories, scene.inventory);
    NumbersFitExactly(before.counters, scene.counters);
    EventsJustifyNothing(before, scene, bookkeeping);
    AcceptedInParts(before, scene, bookkeeping);
    NothingIsMissing(scene);
  }

  lemma NothingIsFound(before: State, scene: Scene, earlier: seq<Event>, e: Event, bookkeeping: set<string>)
    ensures EventFindings(before, scene, earlier, e, bookkeeping) == []
            <==> forall f :: !Justified(before, scene, earlier, e, bookkeeping, f)
  {
    var findings := EventFindings(before, scene, earlier, e, bookkeeping);
    forall f ensures f in findings <==> Justified(before, scene, earlier, e, bookkeeping, f) {
      EventFindingsExactly(before, scene, earlier, e, bookkeeping, f);
    }
    if findings != [] {
      assert findings[0] in findings;
    }
  }

  lemma {:induction false} StepByStep(empty: nat -> bool, clean: nat -> bool, n: nat)
    requires empty(0) && forall k: nat | k < n :: empty(k + 1) <==> empty(k) && clean(k)
    ensures empty(n) <==> forall i: nat | i < n :: clean(i)
  {
    if n == 0 {
    } else {
      StepByStep(empty, clean, n - 1);
      assert empty(n - 1 + 1) <==> empty(n - 1) && clean(n - 1);
    }
  }

  lemma EventsJustifyNothing(before: State, scene: Scene, bookkeeping: set<string>)
    ensures EventsFindings(before, scene, |scene.events|, bookkeeping) == []
            <==> forall i: nat | i < |scene.events| :: Blameless(before, scene, bookkeeping, i)
  {
    var n := |scene.events|;
    ghost var empty := (k: nat) => k <= n && EventsFindings(before, scene, k, bookkeeping) == [];
    ghost var clean := (k: nat) => Blameless(before, scene, bookkeeping, k);
    forall k: nat | k < n ensures empty(k + 1) <==> empty(k) && clean(k) {
      OneMoreBlameless(before, scene, bookkeeping, k);
    }
    StepByStep(empty, clean, n);
    assert forall i: nat | i < n :: clean(i) <==> Blameless(before, scene, bookkeeping, i);
  }

  lemma OneMoreBlameless(before: State, scene: Scene, bookkeeping: set<string>, k: nat)
    requires k < |scene.events|
    ensures EventsFindings(before, scene, k + 1, bookkeeping) == []
            <==> EventsFindings(before, scene, k, bookkeeping) == [] && Blameless(before, scene, bookkeeping, k)
  {
    NothingIsFound(before, scene, scene.events[..k], scene.events[k], bookkeeping);
    EventsFindingsSnoc(before, scene, bookkeeping, k + 1);
  }

  lemma EventsFindingsSnoc(before: State, scene: Scene, bookkeeping: set<string>, n: nat)
    requires 0 < n <= |scene.events|
    ensures EventsFindings(before, scene, n, bookkeeping) == []
            <==> EventsFindings(before, scene, n - 1, bookkeeping) == []
                 && EventFindings(before, scene, scene.events[..n - 1], scene.events[n - 1], bookkeeping) == []
  {
    var check := (earlier, e) => EventFindings(before, scene, earlier, e, bookkeeping);
    BothEmpty(Collected(check, scene.events, n - 1), check(scene.events[..n - 1], scene.events[n - 1]));
  }

  lemma AcceptedInParts(before: State, scene: Scene, bookkeeping: set<string>)
    ensures Accepted(before, scene, bookkeeping) <==>
              && scene.required - IdsOf(scene.events) == {}
              && EventsFindings(before, scene, |scene.events|, bookkeeping) == []
              && ApplyFields(before.characters, scene.characters, None).findings == []
              && ApplyFields(before.relationships, scene.relationships, Some(IdsOf(scene.events))).findings == []
              && ApplyLocations(before.locations, scene.locations).findings == []
              && ApplyNumbers(before.inventories, scene.inventory).findings == []
              && ApplyNumbers(before.counters, scene.counters).findings == []
  {
    if Accepted(before, scene, bookkeeping) {
      var missing := scene.required - IdsOf(scene.events);
      AllEmpty(When(missing != {}, MissingPlanned(|missing|)),
               EventsFindings(before, scene, |scene.events|, bookkeeping),
               ApplyFields(before.characters, scene.characters, None).findings,
               ApplyFields(before.relationships, scene.relationships, Some(IdsOf(scene.events))).findings,
               ApplyLocations(before.locations, scene.locations).findings,
               ApplyNumbers(before.inventories, scene.inventory).findings,
               ApplyNumbers(before.counters, scene.counters).findings);
    }
  }

  // ---------- The last change decides ----------

  /** The last change of a field. */
  predicate LastOf(deltas: seq<FieldDelta>, owner: string, field: string, i: int) {
    && 0 <= i < |deltas| && deltas[i].owner == owner && deltas[i].field == field
    && forall j | i < j < |deltas| :: !(deltas[j].owner == owner && deltas[j].field == field)
  }

  function ValueIn(fields: Fields, owner: string, field: string): Option<Value> {
    if owner in fields && field in fields[owner] then Some(fields[owner][field]) else None
  }

  lemma AppliedValue(fields: Fields, d: FieldDelta, events: Option<set<string>>, owner: string, field: string)
    requires FieldFits(fields, d, events)
    ensures ValueIn(ApplyField(fields, d, events).ledger, owner, field)
         == if d.owner == owner && d.field == field then d.after else ValueIn(fields, owner, field)
  {
  }

  lemma LastOfSnoc(front: seq<FieldDelta>, d: FieldDelta, owner: string, field: string, i: int)
    ensures LastOf(front + [d], owner, field, i)
            <==> if d.owner == owner && d.field == field then i == |front| else LastOf(front, owner, field, i)
  {
    var all := front + [d];
    assert all[|front|] == d && forall j | 0 <= j < |front| :: all[j] == front[j];
    if !(d.owner == owner && d.field == field) && LastOf(front, owner, field, i) {
      forall j | i < j < |all| ensures !(all[j].owner == owner && all[j].field == field) {
        assert all[j] == if j < |front| then front[j] else d;
      }
    }
  }

  /** `deltas` came one after the other upon nothing, and led to `fields`. */
  ghost predicate LedTo(deltas: seq<FieldDelta>, fields: Fields) {
    forall owner, field ::
      && (forall i | LastOf(deltas, owner, field, i) :: deltas[i].after.Some? && ValueIn(fields, owner, field) == deltas[i].after)
      && (ValueIn(fields, owner, field).Some? ==> exists i :: LastOf(deltas, owner, field, i))
  }

  /** `i` is the last change of the field that `j` changes, before `j`. */
  predicate ChangedBefore(deltas: seq<FieldDelta>, i: int, j: nat) {
    j < |deltas| && LastOf(deltas[..j], deltas[j].owner, deltas[j].field, i)
  }

  /** Each change starts from where the last change of the same field ended. */
  ghost predicate Chained(deltas: seq<FieldDelta>) {
    forall i, j: nat | ChangedBefore(deltas, i, j) :: deltas[i].after == Some(deltas[j].before)
  }

  lemma LedToSnoc(front: seq<FieldDelta>, d: FieldDelta, fields: Fields, events: Option<set<string>>)
    requires LedTo(front, fields) && FieldFits(fields, d, events)
    ensures LedTo(front + [d], ApplyField(fields, d, events).ledger)
  {
    var all, after := front + [d], ApplyField(fields, d, events).ledger;
    forall owner, field
      ensures forall i | LastOf(all, owner, field, i) :: all[i].after.Some? && ValueIn(after, owner, field) == all[i].after
      ensures ValueIn(after, owner, field).Some? ==> exists i :: LastOf(all, owner, field, i)
    {
      AppliedValue(fields, d, events, owner, field);
      forall i ensures LastOf(all, owner, field, i)
                       <==> if d.owner == owner && d.field == field then i == |front| else LastOf(front, owner, field, i)
      {
        LastOfSnoc(front, d, owner, field, i);
      }
      if d.owner == owner && d.field == field {
        assert LastOf(all, owner, field, |front|);
      } else if ValueIn(after, owner, field).Some? {
        var i :| LastOf(front, owner, field, i);
        assert LastOf(all, owner, field, i);
      }
    }
  }

  lemma ChainedSnoc(front: seq<FieldDelta>, d: FieldDelta, fields: Fields, events: Option<set<string>>)
    requires LedTo(front, fields) && Chained(front) && FieldFits(fields, d, events)
    ensures Chained(front + [d])
  {
    var all := front + [d];
    forall i, j: nat | ChangedBefore(all, i, j) ensures all[i].after == Some(all[j].before) {
      if j < |front| {
        assert all[..j] == front[..j] && all[j] == front[j] && all[i] == front[i];
        assert ChangedBefore(front, i, j);
      } else {
        assert all[..j] == front && all[j] == d && all[i] == front[i];
        assert ValueIn(fields, d.owner, d.field) == front[i].after;
      }
    }
  }

  lemma {:induction false} MoreChanges(earlier: seq<FieldDelta>, fields: Fields, deltas: seq<FieldDelta>, events: Option<set<string>>)
    requires LedTo(earlier, fields) && Chained(earlier) && ApplyFields(fields, deltas, events).findings == []
    ensures LedTo(earlier + deltas, ApplyFields(fields, deltas, events).ledger) && Chained(earlier + deltas)
    decreases |deltas|
  {
    if deltas == [] {
      assert earlier + deltas == earlier;
    } else {
      var front, last := deltas[..|deltas| - 1], deltas[|deltas| - 1];
      FieldsFitExactly(fields, deltas, events);
      FieldsFitExactly(fields, front, events);
      MoreChanges(earlier, fields, front, events);
      OneMoreChange(earlier + front, last, ApplyFields(fields, front, events).ledger, events);
      assert earlier + deltas == (earlier + front) + [last];
    }
  }

  lemma OneMoreChange(earlier: seq<FieldDelta>, d: FieldDelta, fields: Fields, events: Option<set<string>>)
    requires LedTo(earlier, fields) && Chained(earlier) && FieldFits(fields, d, events)
    ensures LedTo(earlier + [d], ApplyField(fields, d, events).ledger) && Chained(earlier + [d])
  {
    LedToSnoc(earlier, d, fields, events);
    ChainedSnoc(earlier, d, fields, events);
  }

  function CharacterChanges(scenes: seq<Scene>): seq<FieldDelta> {
    if scenes == [] then [] else CharacterChanges(scenes[..|scenes| - 1]) + scenes[|scenes| - 1].characters
  }

  function RelationshipChanges(scenes: seq<Scene>): seq<FieldDelta> {
    if scenes == [] then [] else RelationshipChanges(scenes[..|scenes| - 1]) + scenes[|scenes| - 1].relationships
  }

  /** Over any run of accepted scenes every field of a character or a relationship has the value that its last change
      declared, fields without a change have none, and each change starts from the value the one before it declared. */
  lemma {:induction false} FieldsShowLastChanges(scenes: seq<Scene>, bookkeeping: set<string>)
    requires Play(EMPTY, scenes, bookkeeping).Some?
    ensures var state := Play(EMPTY, scenes, bookkeeping).value;
            && LedTo(CharacterChanges(scenes), state.characters) && Chained(CharacterChanges(scenes))
            && LedTo(RelationshipChanges(scenes), state.relationships) && Chained(RelationshipChanges(scenes))
    decreases |scenes|
  {
    if scenes == [] {
    } else {
      var front, last := scenes[..|scenes| - 1], scenes[|scenes| - 1];
      FieldsShowLastChanges(front, bookkeeping);
      var before := Play(EMPTY, front, bookkeeping).value;
      AcceptedInParts(before, last, bookkeeping);
      MoreChanges(CharacterChanges(front), before.characters, last.characters, None);
      MoreChanges(RelationshipChanges(front), before.relationships, last.relationships, Some(IdsOf(last.events)));
    }
  }
}
