/** The mutable tracker. Its methods update counters, tables and grant lists in the order the
    source does, and each is tied to the ledger function of the same operation. */
module RunBudgetTracking {
  import opened Common
  import opened TokenUsage
  import opened RunBudget
  import opened RunBudgetProofs

  class RunBudgetTracker {
    const limits: Limits
    const startedAt: int
    var calls: int
    var totalInput: int
    var totalOutput: int
    var reservedOutput: int
    var cost: real
    var reservations: map<string, Reservation>
    var elasticInput: int
    var elasticOutput: int
    var authorizations: map<string, Authorization>
    var activeId: Option<string>
    var grants: seq<Grant>

    function View(): Ledger
      reads this
    {
      Ledger(limits, startedAt, calls, totalInput, totalOutput, reservedOutput, cost, reservations,
             elasticInput, elasticOutput, authorizations, activeId, grants)
    }

    constructor (limits: Limits, now: int)
      ensures View() == Fresh(limits, now)
      ensures Accounting(View()) && GrantsAddUp(View())
    {
      this.limits, startedAt := limits, now;
      calls, totalInput, totalOutput, reservedOutput, cost := 0, 0, 0, 0, 0.0;
      reservations := map[];
      elasticInput, elasticOutput := 0, 0;
      authorizations, activeId, grants := map[], None, [];
    }

    method AuthorizeElasticTokens(key: string, reason: string, evidence: string, stages: seq<string>)
      returns (outcome: Outcome)
      modifies this`authorizations, this`activeId
      ensures Step(View(), outcome) == Authorize(old(View()), key, reason, evidence, stages)
    {
      var normalized: seq<string> := [];
      for i := 0 to |stages|
        invariant normalized == NormalizeStages(stages[..i])
      {
        assert stages[..i + 1][..i] == stages[..i];
        if stages[i] != "" && stages[i] !in normalized {
          normalized := normalized + [stages[i]];
        }
      }
      assert stages[..|stages|] == stages;
      if key == "" || normalized == [] || reason == "" {
        return Refused(AuthorizationInvalid);
      }
      if key in authorizations {
        var existing := authorizations[key];
        if existing.reason != reason || existing.evidence != evidence || existing.stages != normalized {
          return Refused(AuthorizationConflict);
        }
      } else {
        authorizations := authorizations[key := Authorization(reason, evidence, normalized, [], true)];
      }
      if activeId.Some? && activeId.value != key && activeId.value in authorizations {
        authorizations := authorizations[activeId.value := authorizations[activeId.value].(active := false)];
      }
      activeId := Some(key);
      return Done(true);
    }

    method ConsumeElasticAuthorization(stage: string, attemptId: string, input: nat, output: nat)
      returns (authorizationId: Option<string>)
      modifies this`authorizations, this`elasticInput, this`elasticOutput, this`grants
      ensures (View(), authorizationId) == Consume(old(View()), stage, attemptId, input, output)
    {
      if input == 0 && output == 0 {
        return None;
      }
      if activeId.None? || activeId.value !in authorizations {
        return None;
      }
      var key := activeId.value;
      var a := authorizations[key];
      if !a.active || stage !in a.stages || stage in a.consumed {
        return None;
      }
      authorizations := authorizations[key := a.(consumed := a.consumed + [stage])];
      elasticInput := elasticInput + input;
      elasticOutput := elasticOutput + output;
      grants := grants + [Grant(key, attemptId, stage, Authorized(a.reason, a.evidence), input, output, false)];
      return Some(key);
    }

    method ReserveModelCall(r: Request, now: int) returns (outcome: Outcome)
      modifies this
      ensures Step(View(), outcome) == Reserve(old(View()), r, now)
    {
      if now - startedAt > limits.maxElapsed {
        return Refused(ElapsedExceeded);
      }
      if r.input < 0 || r.output < 0 || r.callId == "" || r.attemptId == "" {
        return Refused(UsageInvalid);
      }
      if r.attemptId in reservations {
        return Refused(AttemptConflict);
      }
      if calls + 1 > limits.maxCalls {
        return Refused(CallsExceeded);
      }
      var inputDeficit := Max(0, totalInput + r.input - (limits.maxInput + elasticInput));
      var outputDeficit := Max(0, totalOutput + reservedOutput + r.output - (limits.maxOutput + elasticOutput));
      var authorizationId := ConsumeElasticAuthorization(r.stage, r.attemptId, inputDeficit, outputDeficit);
      if totalInput + r.input > limits.maxInput + elasticInput {
        return Refused(InputExceeded);
      }
      if totalOutput + reservedOutput + r.output > limits.maxOutput + elasticOutput {
        return Refused(OutputExceeded);
      }
      if limits.maxCost.Some? && cost + r.cost > limits.maxCost.value {
        return Refused(CostExceeded);
      }
      EnterReservation(r, authorizationId);
      return Done(true);
    }

    /** Enters and charges an admitted reservation. */
    method EnterReservation(r: Request, authorizationId: Option<string>)
      requires r.input >= 0 && r.output >= 0
      modifies this`calls, this`totalInput, this`reservedOutput, this`cost, this`reservations
      ensures View() == Commit(old(View()), r, authorizationId)
    {
      calls := calls + 1;
      totalInput := totalInput + r.input;
      reservedOutput := reservedOutput + r.output;
      cost := cost + r.cost;
      reservations := reservations[r.attemptId :=
        Reservation(r.callId, r.input, r.output, r.stage, authorizationId, false, None)];
    }

    method EnsureModelCall(r: Request, now: int) returns (outcome: Outcome)
      modifies this
      ensures Step(View(), outcome) == Ensure(old(View()), r, now)
    {
      if r.input < 0 || r.output < 0 || r.callId == "" || r.attemptId == "" {
        return Refused(UsageInvalid);
      }
      if r.attemptId in reservations {
        var existing := reservations[r.attemptId];
        if existing.callId != r.callId || existing.input != r.input || existing.output != r.output {
          return Refused(AttemptConflict);
        }
        return Done(false);
      }
      outcome := ReserveModelCall(r, now);
    }

    method RestoreModelCall(request: Request, now: int) returns (outcome: Outcome)
      modifies this
      ensures Step(View(), outcome) == Restore(old(View()), request, now)
    {
      var r := request.(cost := 0.0);
      if r.attemptId in reservations {
        outcome := EnsureModelCall(r, now);
        return;
      }
      ExtendRestoreGrant(request);
      assert View() == RestoreGrant(old(View()), request);
      outcome := ReserveModelCall(r, now);
      if outcome.Done? {
        MarkRestoredAttempt(r.attemptId);
        outcome := Done(true);
      }
    }

    /** Widens the limits by what a durable attempt lacks. */
    method ExtendRestoreGrant(r: Request)
      modifies this`elasticInput, this`elasticOutput, this`grants
      ensures View() == RestoreGrant(old(View()), r)
    {
      var inputDeficit := Max(0, totalInput + r.input - (limits.maxInput + elasticInput));
      var outputDeficit := Max(0, totalOutput + reservedOutput + r.output - (limits.maxOutput + elasticOutput));
      if inputDeficit != 0 || outputDeficit != 0 {
        elasticInput := elasticInput + inputDeficit;
        elasticOutput := elasticOutput + outputDeficit;
        grants := grants + [Grant(RESTORE_AUTHORIZATION, r.attemptId, r.stage, RestoreDurableAttempt,
                                  inputDeficit, outputDeficit, true)];
      }
    }

    method MarkRestoredAttempt(attemptId: string)
      requires attemptId in reservations
      modifies this`reservations
      ensures View() == MarkRestored(old(View()), attemptId)
    {
      reservations := reservations[attemptId := reservations[attemptId].(restored := true)];
    }

    method RecordModelResponse(attemptId: string, callId: string, text: string, usage: RawUsage, now: int)
      returns (outcome: Outcome)
      modifies this
      ensures Step(View(), outcome) == Record(old(View()), attemptId, callId, text, usage, now)
    {
      if attemptId !in reservations || reservations[attemptId].callId != callId {
        return Refused(AttemptMissing);
      }
      var r := reservations[attemptId];
      if r.settlement.Some? {
        return if r.settlement.value.error.Some? then Refused(r.settlement.value.error.value) else Done(false);
      }
      if now - startedAt > limits.maxElapsed {
        return Refused(ElapsedExceeded);
      }
      var charge := ChargeFor(r, text, usage);
      ReplaceReservedByCharge(attemptId, charge);
      var error: Option<ErrorCode> := Some(UsageInvalid);
      if !Parse(usage).invalid {
        error := CheckSettledLimits(attemptId, r);
      }
      reservations := reservations[attemptId := r.(settlement := Some(Settled(charge.input, charge.output, error)))];
      return if error.Some? then Refused(error.value) else Done(false);
    }

    method ReplaceReservedByCharge(attemptId: string, charge: Charge)
      requires attemptId in reservations
      modifies this`totalInput, this`reservedOutput, this`totalOutput
      ensures View() == Recharge(old(View()), attemptId, charge)
    {
      var r := reservations[attemptId];
      totalInput := totalInput - r.input + charge.input;
      reservedOutput := reservedOutput - r.output;
      totalOutput := totalOutput + charge.output;
    }

    /** The limit check of a settlement, which may widen the limits. */
    method CheckSettledLimits(attemptId: string, r: Reservation) returns (error: Option<ErrorCode>)
      modifies this`elasticInput, this`elasticOutput, this`grants
      ensures (View(), error) == CheckSettlement(old(View()), attemptId, r)
    {
      var inputDeficit := Max(0, totalInput - (limits.maxInput + elasticInput));
      var outputDeficit := Max(0, totalOutput + reservedOutput - (limits.maxOutput + elasticOutput));
      var extended := false;
      if inputDeficit != 0 || outputDeficit != 0 {
        extended := ExtendSettlementGrant(r, attemptId, inputDeficit, outputDeficit);
      }
      if inputDeficit != 0 && !extended {
        return Some(InputExceeded);
      }
      if outputDeficit != 0 && !extended {
        return Some(OutputExceeded);
      }
      return None;
    }

    method ExtendSettlementGrant(r: Reservation, attemptId: string, input: nat, output: nat) returns (extended: bool)
      modifies this`elasticInput, this`elasticOutput, this`grants
      ensures extended == MayExtend(r)
      ensures View() == if extended
                        then Widen(old(View()), Grant(ExtensionAuthorization(r), attemptId, r.stage,
                                                      SettleAuthorizedUsage, input, output, r.restored))
                        else old(View())
    {
      if !MayExtend(r) {
        return false;
      }
      elasticInput := elasticInput + input;
      elasticOutput := elasticOutput + output;
      grants := grants + [Grant(ExtensionAuthorization(r), attemptId, r.stage, SettleAuthorizedUsage,
                                input, output, r.restored)];
      return true;
    }

    method RecordOutputTokens(output: int, outputCost: real, now: int) returns (outcome: Outcome)
      modifies this`totalOutput, this`cost
      ensures Step(View(), outcome) == RecordOutput(old(View()), output, outputCost, now)
    {
      if now - startedAt > limits.maxElapsed {
        return Refused(ElapsedExceeded);
      }
      if output < 0 {
        return Refused(UsageInvalid);
      }
      if totalOutput + output > limits.maxOutput {
        return Refused(OutputExceeded);
      }
      if limits.maxCost.Some? && cost + outputCost > limits.maxCost.value {
        return Refused(CostExceeded);
      }
      totalOutput := totalOutput + output;
      cost := cost + outputCost;
      return Done(true);
    }
  }
}
