/** The run budget ledger as a value: reservations, settlements and elastic grants.
    Every operation returns the next ledger together with what its caller sees. */
module RunBudget {
  import opened Common
  import opened TokenUsage
  import Utf8

  datatype ErrorCode =
    | UsageInvalid | AttemptConflict | AttemptMissing
    | CallsExceeded | InputExceeded | OutputExceeded | CostExceeded | ElapsedExceeded
    | AuthorizationInvalid | AuthorizationConflict

  /** `Done(charged)`: the call returned, `charged` telling whether it charged a new reservation. */
  datatype Outcome = Done(charged: bool) | Refused(code: ErrorCode)

  datatype Limits = Limits(maxCalls: int, maxInput: int, maxOutput: int, maxElapsed: int, maxCost: Option<real>)

  datatype Settled = Settled(input: nat, output: nat, error: Option<ErrorCode>)

  datatype Reservation = Reservation(callId: string, input: nat, output: nat, stage: string,
                                     authorizationId: Option<string>, restored: bool,
                                     settlement: Option<Settled>)

  datatype Authorization = Authorization(reason: string, evidence: string, stages: seq<string>,
                                         consumed: seq<string>, active: bool)

  datatype GrantReason =
    | Authorized(reason: string, evidence: string)
    | RestoreDurableAttempt
    | SettleAuthorizedUsage

  datatype Grant = Grant(authorizationId: string, attemptId: string, stage: string, reason: GrantReason,
                         input: nat, output: nat, restored: bool)

  datatype Ledger = Ledger(limits: Limits, startedAt: int, calls: int,
                           totalInput: int, totalOutput: int, reservedOutput: int, cost: real,
                           reservations: map<string, Reservation>,
                           elasticInput: int, elasticOutput: int,
                           authorizations: map<string, Authorization>, activeId: Option<string>,
                           grants: seq<Grant>)

  /** A reservation request. An absent stage is the empty stage. */
  datatype Request = Request(attemptId: string, callId: string, input: int, output: int, stage: string, cost: real)

  datatype Step = Step(ledger: Ledger, outcome: Outcome)

  const RESTORE_AUTHORIZATION := "durable-attempt-restore"

  function Fresh(limits: Limits, now: int): Ledger {
    Ledger(limits, now, 0, 0, 0, 0, 0.0, map[], 0, 0, map[], None, [])
  }

  function InputLimit(s: Ledger): int {
    s.limits.maxInput + s.elasticInput
  }

  function OutputLimit(s: Ledger): int {
    s.limits.maxOutput + s.elasticOutput
  }

  predicate Expired(s: Ledger, now: int) {
    now - s.startedAt > s.limits.maxElapsed
  }

  function InputDeficit(s: Ledger, input: int): nat {
    Max(0, s.totalInput + input - InputLimit(s))
  }

  function OutputDeficit(s: Ledger, output: int): nat {
    Max(0, s.totalOutput + s.reservedOutput + output - OutputLimit(s))
  }

  function RemainingOutput(s: Ledger): nat {
    Max(0, OutputLimit(s) - s.totalOutput - s.reservedOutput)
  }

  function Widen(s: Ledger, grant: Grant): Ledger {
    s.(elasticInput := s.elasticInput + grant.input,
       elasticOutput := s.elasticOutput + grant.output,
       grants := s.grants + [grant])
  }

  // ---------- Elastic authorizations ----------

  /** The non-empty stages in order of first appearance. */
  function NormalizeStages(stages: seq<string>): seq<string>
    decreases |stages|
  {
    if stages == [] then []
    else
      var rest := NormalizeStages(stages[..|stages| - 1]);
      var last := stages[|stages| - 1];
      if last == "" || last in rest then rest else rest + [last]
  }

  function Supersede(authorizations: map<string, Authorization>, previous: Option<string>, key: string)
    : map<string, Authorization>
  {
    if previous.Some? && previous.value != key && previous.value in authorizations
    then authorizations[previous.value := authorizations[previous.value].(active := false)]
    else authorizations
  }

  function Authorize(s: Ledger, key: string, reason: string, evidence: string, stages: seq<string>): Step {
    var normalized := NormalizeStages(stages);
    if key == "" || normalized == [] || reason == "" then
      Step(s, Refused(AuthorizationInvalid))
    else if key in s.authorizations
            && (s.authorizations[key].reason != reason || s.authorizations[key].evidence != evidence
                || s.authorizations[key].stages != normalized) then
      Step(s, Refused(AuthorizationConflict))
    else
      var known := if key in s.authorizations then s.authorizations
                   else s.authorizations[key := Authorization(reason, evidence, normalized, [], true)];
      Step(s.(authorizations := Supersede(known, s.activeId, key), activeId := Some(key)), Done(true))
  }

  predicate MayConsume(s: Ledger, stage: string) {
    && s.activeId.Some?
    && s.activeId.value in s.authorizations
    && var a := s.authorizations[s.activeId.value];
       a.active && stage in a.stages && stage !in a.consumed
  }

  /** Consumes the active authorization for this stage when there is a deficit to cover. */
  function Consume(s: Ledger, stage: string, attemptId: string, input: nat, output: nat): (Ledger, Option<string>) {
    if (input == 0 && output == 0) || !MayConsume(s, stage) then (s, None)
    else
      var key := s.activeId.value;
      var a := s.authorizations[key];
      var marked := s.(authorizations := s.authorizations[key := a.(consumed := a.consumed + [stage])]);
      var grant := Grant(key, attemptId, stage, Authorized(a.reason, a.evidence), input, output, false);
      (Widen(marked, grant), Some(key))
  }

  // ---------- Reservations ----------

  /** Enters the reservation and charges it. */
  function Commit(s: Ledger, r: Request, authorizationId: Option<string>): Ledger
    requires r.input >= 0 && r.output >= 0
  {
    s.(calls := s.calls + 1,
       totalInput := s.totalInput + r.input,
       reservedOutput := s.reservedOutput + r.output,
       cost := s.cost + r.cost,
       reservations := s.reservations[r.attemptId := Reservation(r.callId, r.input, r.output, r.stage,
                                                                 authorizationId, false, None)])
  }

  function Reserve(s: Ledger, r: Request, now: int): Step {
    if Expired(s, now) then Step(s, Refused(ElapsedExceeded))
    else if r.input < 0 || r.output < 0 || r.callId == "" || r.attemptId == "" then Step(s, Refused(UsageInvalid))
    else if r.attemptId in s.reservations then Step(s, Refused(AttemptConflict))
    else if s.calls + 1 > s.limits.maxCalls then Step(s, Refused(CallsExceeded))
    else
      var consumed := Consume(s, r.stage, r.attemptId, InputDeficit(s, r.input), OutputDeficit(s, r.output));
      var t, authorizationId := consumed.0, consumed.1;
      if t.totalInput + r.input > InputLimit(t) then Step(t, Refused(InputExceeded))
      else if t.totalOutput + t.reservedOutput + r.output > OutputLimit(t) then Step(t, Refused(OutputExceeded))
      else if t.limits.maxCost.Some? && t.cost + r.cost > t.limits.maxCost.value then Step(t, Refused(CostExceeded))
      else
        Step(Commit(t, r, authorizationId), Done(true))
  }

  function Ensure(s: Ledger, r: Request, now: int): Step {
    if r.input < 0 || r.output < 0 || r.callId == "" || r.attemptId == "" then Step(s, Refused(UsageInvalid))
    else if r.attemptId in s.reservations then
      var known := s.reservations[r.attemptId];
      if known.callId != r.callId || known.input != r.input || known.output != r.output
      then Step(s, Refused(AttemptConflict))
      else Step(s, Done(false))
    else Reserve(s, r, now)
  }

  function RestoreGrant(s: Ledger, r: Request): Ledger {
    var input, output := InputDeficit(s, r.input), OutputDeficit(s, r.output);
    if input == 0 && output == 0 then s
    else Widen(s, Grant(RESTORE_AUTHORIZATION, r.attemptId, r.stage, RestoreDurableAttempt, input, output, true))
  }

  function MarkRestored(s: Ledger, attemptId: string): Ledger
    requires attemptId in s.reservations
  {
    s.(reservations := s.reservations[attemptId := s.reservations[attemptId].(restored := true)])
  }

  /** Restoring never carries a cost of its own. */
  function Restore(s: Ledger, r: Request, now: int): Step {
    if r.attemptId in s.reservations then Ensure(s, r.(cost := 0.0), now)
    else
      var step := Reserve(RestoreGrant(s, r), r.(cost := 0.0), now);
      if step.outcome.Refused? then step
      else Step(MarkRestored(step.ledger, r.attemptId), Done(true))
  }

  // ---------- Settlement ----------

  function ChargeFor(r: Reservation, text: string, usage: RawUsage): Charge {
    Settlement(Parse(usage), r.input, r.output, Utf8.Length(text))
  }

  predicate MayExtend(r: Reservation) {
    (r.authorizationId.Some? && r.authorizationId.value != "") || r.restored
  }

  function ExtensionAuthorization(r: Reservation): string {
    if r.authorizationId.Some? && r.authorizationId.value != "" then r.authorizationId.value else RESTORE_AUTHORIZATION
  }

  /** Totals after replacing the reserved amounts of `attemptId` by the charge. */
  function Recharge(s: Ledger, attemptId: string, charge: Charge): Ledger
    requires attemptId in s.reservations
  {
    var r := s.reservations[attemptId];
    s.(totalInput := s.totalInput - r.input + charge.input,
       reservedOutput := s.reservedOutput - r.output,
       totalOutput := s.totalOutput + charge.output)
  }

  /** The limit check after recharging: possibly widened limits and the error to report. */
  function CheckSettlement(s: Ledger, attemptId: string, r: Reservation): (Ledger, Option<ErrorCode>) {
    var input, output := InputDeficit(s, 0), OutputDeficit(s, 0);
    if input == 0 && output == 0 then (s, None)
    else if MayExtend(r) then
      (Widen(s, Grant(ExtensionAuthorization(r), attemptId, r.stage, SettleAuthorizedUsage, input, output, r.restored)),
       None)
    else (s, Some(if input > 0 then InputExceeded else OutputExceeded))
  }

  function Record(s: Ledger, attemptId: string, callId: string, text: string, usage: RawUsage, now: int): Step {
    if attemptId !in s.reservations || s.reservations[attemptId].callId != callId then
      Step(s, Refused(AttemptMissing))
    else
      var r := s.reservations[attemptId];
      if r.settlement.Some? then
        Step(s, if r.settlement.value.error.Some? then Refused(r.settlement.value.error.value) else Done(false))
      else if Expired(s, now) then Step(s, Refused(ElapsedExceeded))
      else
        var charge := ChargeFor(r, text, usage);
        var charged := Recharge(s, attemptId, charge);
        var checked := if Parse(usage).invalid then (charged, Some(UsageInvalid))
                       else CheckSettlement(charged, attemptId, r);
        var t, error := checked.0, checked.1;
        var settled := r.(settlement := Some(Settled(charge.input, charge.output, error)));
        Step(t.(reservations := t.reservations[attemptId := settled]),
             if error.Some? then Refused(error.value) else Done(false))
  }

  /** The older output entry point, which looks only at settled output. */
  function RecordOutput(s: Ledger, output: int, cost: real, now: int): Step {
    if Expired(s, now) then Step(s, Refused(ElapsedExceeded))
    else if output < 0 then Step(s, Refused(UsageInvalid))
    else if s.totalOutput + output > s.limits.maxOutput then Step(s, Refused(OutputExceeded))
    else if s.limits.maxCost.Some? && s.cost + cost > s.limits.maxCost.value then Step(s, Refused(CostExceeded))
    else Step(s.(totalOutput := s.totalOutput + output, cost := s.cost + cost), Done(true))
  }

  // ---------- Runs of the model-call interface ----------

  datatype Operation =
    | DoAuthorize(key: string, reason: string, evidence: string, stages: seq<string>)
    | DoReserve(request: Request, now: int)
    | DoEnsure(request: Request, now: int)
    | DoRestore(request: Request, now: int)
    | DoRecord(attemptId: string, callId: string, text: string, usage: RawUsage, now: int)

  function Apply(s: Ledger, op: Operation): Step {
    match op
    case DoAuthorize(key, reason, evidence, stages) => Authorize(s, key, reason, evidence, stages)
    case DoReserve(request, now) => Reserve(s, request, now)
    case DoEnsure(request, now) => Ensure(s, request, now)
    case DoRestore(request, now) => Restore(s, request, now)
    case DoRecord(attemptId, callId, text, usage, now) => Record(s, attemptId, callId, text, usage, now)
  }

  function Run(s: Ledger, ops: seq<Operation>): Ledger
    decreases |ops|
  {
    if ops == [] then s else Run(Apply(s, ops[0]).ledger, ops[1..])
  }
}
