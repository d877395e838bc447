/** The state a story carries from scene to scene, and what one scene declares about it. */
module SceneModel {
  import opened Common

  datatype Value = Null | Text(text: string)

  datatype Event = Event(id: string, kind: string, subjects: seq<string>, objects: seq<string>, location: string,
                         status: string)

  predicate Opens(status: string) {
    status == "started" || status == "ongoing"
  }

  predicate Closes(status: string) {
    status in ["completed", "resolved", "interrupted", "cancelled", "canceled", "failed"]
  }

  /** Equal signatures: the same kind, the same people and things in any order, the same place. */
  predicate SameAction(a: Event, b: Event) {
    a.kind == b.kind && multiset(a.subjects) == multiset(b.subjects) && multiset(a.objects) == multiset(b.objects)
    && a.location == b.location
  }

  predicate SameEvent(a: Event, b: Event) {
    SameAction(a, b) && a.status == b.status
  }

  predicate Anchored(e: Event) {
    e.subjects != [] || e.objects != [] || e.location != ""
  }

  /** One changed field of a character or relationship; `owner` is empty when an id is missing,
      `after` is absent when the delta does not say. */
  datatype FieldDelta = FieldDelta(owner: string, field: string, before: Value, after: Option<Value>, sourceEvent: string)

  datatype LocationDelta = LocationDelta(entity: string, before: Value, after: Option<Value>)

  /** A number that is not one is absent. */
  datatype NumberDelta = NumberDelta(key: string, before: Option<real>, change: Option<real>, after: Option<real>)

  datatype Scene = Scene(events: seq<Event>, characters: seq<FieldDelta>, relationships: seq<FieldDelta>,
                         locations: seq<LocationDelta>, inventory: seq<NumberDelta>, counters: seq<NumberDelta>,
                         required: set<string>, forbidden: set<string>, planned: map<string, Event>)

  type Fields = map<string, map<string, Value>>

  datatype State = State(characters: Fields, relationships: Fields, locations: map<string, Value>,
                         inventories: map<string, real>, counters: map<string, real>, completedIds: seq<string>,
                         completedEvents: seq<Event>, currentLocation: string, present: set<string>,
                         openAction: string, openActions: seq<Event>)

  const EMPTY := State(map[], map[], map[], map[], map[], [], [], "", {}, "", [])

  datatype Finding =
    | MissingPlanned(count: nat)
    | Misplaced(event: string, entity: string)
    | DuplicateId(event: string)
    | DuplicateInScene(event: string)
    | Unplanned(event: string)
    | KindMismatch(event: string)
    | ScopeMismatch(event: string)
    | RepeatedCompleted(event: string)
    | DuplicateOfPrior(event: string)
    | ActionRestarted(event: string)
    | InvalidDelta
    | StaleField
    | NoSourceEvent
    | ForeignSourceEvent
    | StaleLocation
    | StaleNumber
    | BadArithmetic

  function IdsOf(events: seq<Event>): set<string> {
    set e | e in events :: e.id
  }

  // ---------- Applying deltas, one after the other ----------

  datatype Applied<T> = Applied(ledger: T, findings: seq<Finding>)

  function ApplyNumber(ledger: map<string, real>, d: NumberDelta): Applied<map<string, real>> {
    if d.key == "" || d.before.None? || d.after.None? || d.change.None? then Applied(ledger, [InvalidDelta])
    else
      Applied(ledger[d.key := d.after.value],
              (if d.key in ledger && ledger[d.key] != d.before.value then [StaleNumber] else [])
              + if d.before.value + d.change.value != d.after.value then [BadArithmetic] else [])
  }

  function ApplyNumbers(ledger: map<string, real>, deltas: seq<NumberDelta>): Applied<map<string, real>> {
    if deltas == [] then Applied(ledger, [])
    else
      var before := ApplyNumbers(ledger, deltas[..|deltas| - 1]);
      var step := ApplyNumber(before.ledger, deltas[|deltas| - 1]);
      Applied(step.ledger, before.findings + step.findings)
  }

  function ApplyLocation(locations: map<string, Value>, d: LocationDelta): Applied<map<string, Value>> {
    if d.entity == "" || d.after.None? then Applied(locations, [InvalidDelta])
    else
      Applied(locations[d.entity := d.after.value],
              if d.entity in locations && locations[d.entity] != Null && locations[d.entity] != d.before
              then [StaleLocation] else [])
  }

  function ApplyLocations(locations: map<string, Value>, deltas: seq<LocationDelta>): Applied<map<string, Value>> {
    if deltas == [] then Applied(locations, [])
    else
      var before := ApplyLocations(locations, deltas[..|deltas| - 1]);
      var step := ApplyLocation(before.ledger, deltas[|deltas| - 1]);
      Applied(step.ledger, before.findings + step.findings)
  }

  function FieldsOf(fields: Fields, owner: string): map<string, Value> {
    if owner in fields then fields[owner] else map[]
  }

  /** `events` is given for relationships, whose deltas must name an event of the scene. */
  function ApplyField(fields: Fields, d: FieldDelta, events: Option<set<string>>): Applied<Fields> {
    if d.owner == "" || (events.None? && d.field == "") || d.after.None? then Applied(fields, [InvalidDelta])
    else
      var own := FieldsOf(fields, d.owner);
      Applied(fields[d.owner := own[d.field := d.after.value]],
              (if events.None? then []
               else if d.sourceEvent == "" then [NoSourceEvent]
               else if d.sourceEvent !in events.value then [ForeignSourceEvent]
               else [])
              + if d.field in own && own[d.field] != d.before then [StaleField] else [])
  }

  function ApplyFields(fields: Fields, deltas: seq<FieldDelta>, events: Option<set<string>>): Applied<Fields> {
    if deltas == [] then Applied(fields, [])
    else
      var before := ApplyFields(fields, deltas[..|deltas| - 1], events);
      var step := ApplyField(before.ledger, deltas[|deltas| - 1], events);
      Applied(step.ledger, before.findings + step.findings)
  }

  // ---------- Checking events ----------

  /** Order kept, repetitions dropped. */
  function Unique(names: seq<string>): seq<string> {
    if names == [] then []
    else
      var front, last := Unique(names[..|names| - 1]), names[|names| - 1];
      if last in front then front else front + [last]
  }

  /** The last delta that names the entity. */
  function LastMove(deltas: seq<LocationDelta>, entity: string): Option<LocationDelta> {
    if deltas == [] then None
    else if deltas[|deltas| - 1].entity == entity then Some(deltas[|deltas| - 1])
    else LastMove(deltas[..|deltas| - 1], entity)
  }

  /** Where an entity is known to be. */
  predicate KnownAt(locations: map<string, Value>, entity: string) {
    entity in locations && locations[entity] != Null && locations[entity] != Text("")
  }

  predicate WellPlaced(locations: map<string, Value>, entity: string, location: string, deltas: seq<LocationDelta>) {
    || !KnownAt(locations, entity)
    || locations[entity] == Text(location)
    || (entity != "" && LastMove(deltas, entity).Some?
        && LastMove(deltas, entity).value.before == locations[entity]
        && LastMove(deltas, entity).value.after == Some(Text(location)))
  }

  function MisplacedAmong(locations: map<string, Value>, e: Event, names: seq<string>, deltas: seq<LocationDelta>)
    : seq<Finding>
  {
    if names == [] then []
    else
      MisplacedAmong(locations, e, names[..|names| - 1], deltas)
      + if WellPlaced(locations, names[|names| - 1], e.location, deltas) then [] else [Misplaced(e.id, names[|names| - 1])]
  }

  function LocationFindings(locations: map<string, Value>, e: Event, deltas: seq<LocationDelta>): seq<Finding> {
    if e.location == "" then [] else MisplacedAmong(locations, e, Unique(e.subjects + e.objects), deltas)
  }

  const RECENT := 24

  function Recent(events: seq<Event>): seq<Event> {
    if |events| <= RECENT then events else events[|events| - RECENT..]
  }

  predicate Bookkeeping(e: Event, plan: set<string>) {
    e.kind in plan
  }

  function When(condition: bool, finding: Finding): seq<Finding> {
    if condition then [finding] else []
  }

  function PlanFindings(e: Event, planned: map<string, Event>): seq<Finding> {
    if e.id !in planned then []
    else
      var p := planned[e.id];
      When(e.kind != p.kind, KindMismatch(e.id))
      + When(p.subjects != [] && p.subjects != e.subjects, ScopeMismatch(e.id))
      + When(p.objects != [] && p.objects != e.objects, ScopeMismatch(e.id))
      + When(p.location != "" && p.location != e.location, ScopeMismatch(e.id))
  }

  predicate RepeatsPrior(e: Event, prior: seq<Event>, bookkeeping: set<string>) {
    exists p | p in prior ::
      !Bookkeeping(e, bookkeeping) && !Bookkeeping(p, bookkeeping) && Anchored(e) && Anchored(p) && SameEvent(p, e)
  }

  predicate Restarts(e: Event, running: seq<Event>) {
    exists p | p in running :: p.id != e.id && Anchored(e) && Anchored(p) && SameAction(p, e)
  }

  /** `bookkeeping` holds the kinds that only record the plan's own beats. */
  function EventFindings(before: State, scene: Scene, earlier: seq<Event>, e: Event, bookkeeping: set<string>): seq<Finding> {
    LocationFindings(before.locations, e, scene.locations)
    + When(e.id in IdsOf(earlier), DuplicateId(e.id))
    + When(e.status == "completed" && Anchored(e) && exists p | p in earlier :: SameEvent(p, e), DuplicateInScene(e.id))
    + When(scene.required != {} && e.id !in scene.required, Unplanned(e.id))
    + PlanFindings(e, scene.planned)
    + When(e.id in scene.forbidden || e.id in before.completedIds, RepeatedCompleted(e.id))
    + When(e.status == "completed" && RepeatsPrior(e, Recent(before.completedEvents), bookkeeping), DuplicateOfPrior(e.id))
    + When(Opens(e.status) && Restarts(e, before.openActions), ActionRestarted(e.id))
  }

  /** What a check finds at the first `n` events, each together with those before it. */
  function Collected(check: (seq<Event>, Event) -> seq<Finding>, events: seq<Event>, n: nat): seq<Finding>
    requires n <= |events|
  {
    if n == 0 then [] else Collected(check, events, n - 1) + check(events[..n - 1], events[n - 1])
  }

  function EventsFindings(before: State, scene: Scene, n: nat, bookkeeping: set<string>): seq<Finding>
    requires n <= |scene.events|
  {
    Collected((earlier, e) => EventFindings(before, scene, earlier, e, bookkeeping), scene.events, n)
  }

  // ---------- Recording events ----------

  function Without(events: seq<Event>, e: Event, bySignature: bool): seq<Event> {
    if events == [] then []
    else
      var last := events[|events| - 1];
      Without(events[..|events| - 1], e, bySignature)
      + if last.id == e.id || (bySignature && SameAction(last, e)) then [] else [last]
  }

  datatype Progress = Progress(open: seq<Event>, completedIds: seq<string>, completedEvents: seq<Event>)

  function Record(p: Progress, e: Event): Progress {
    var open := if Opens(e.status) then Without(p.open, e, false) + [e]
                else if Closes(e.status) then Without(p.open, e, true)
                else p.open;
    if e.status != "completed" then p.(open := open)
    else
      Progress(open,
               if e.id in p.completedIds then p.completedIds else p.completedIds + [e.id],
               if exists q | q in p.completedEvents :: SameEvent(q, e) then p.completedEvents else p.completedEvents + [e])
  }

  function RecordAll(p: Progress, events: seq<Event>): Progress {
    if events == [] then p else Record(RecordAll(p, events[..|events| - 1]), events[|events| - 1])
  }

  function LastLocation(events: seq<Event>): string {
    if events == [] then ""
    else if events[|events| - 1].location != "" then events[|events| - 1].location
    else LastLocation(events[..|events| - 1])
  }

  function SubjectsAt(events: seq<Event>, location: string): set<string> {
    set e, x | e in events && e.location == location && x in e.subjects :: x
  }

  // ---------- The whole transition ----------

  function After(before: State, scene: Scene): State {
    var p := RecordAll(Progress(before.openActions, before.completedIds, before.completedEvents), scene.events);
    var place := LastLocation(scene.events);
    State(ApplyFields(before.characters, scene.characters, None).ledger,
          ApplyFields(before.relationships, scene.relationships, Some(IdsOf(scene.events))).ledger,
          ApplyLocations(before.locations, scene.locations).ledger,
          ApplyNumbers(before.inventories, scene.inventory).ledger,
          ApplyNumbers(before.counters, scene.counters).ledger,
          p.completedIds, p.completedEvents,
          if place == "" then before.currentLocation else place,
          if place == "" then before.present else SubjectsAt(scene.events, place),
          if p.open == [] then "" else p.open[0].id,
          p.open)
  }

  function Findings(before: State, scene: Scene, bookkeeping: set<string>): seq<Finding> {
    var missing := scene.required - IdsOf(scene.events);
    When(missing != {}, MissingPlanned(|missing|))
    + EventsFindings(before, scene, |scene.events|, bookkeeping)
    + ApplyFields(before.characters, scene.characters, None).findings
    + ApplyFields(before.relationships, scene.relationships, Some(IdsOf(scene.events))).findings
    + ApplyLocations(before.locations, scene.locations).findings
    + ApplyNumbers(before.inventories, scene.inventory).findings
    + ApplyNumbers(before.counters, scene.counters).findings
  }

  predicate Accepted(before: State, scene: Scene, bookkeeping: set<string>) {
    Findings(before, scene, bookkeeping) == []
  }
}
