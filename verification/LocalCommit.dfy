/** The life of a local commit: which states may follow which. */
module LocalCommit {
  import opened Common

  datatype State =
    | New
    | Prepared
    | Applying
    | CommitMarked
    | Publishing
    | Completed
    | RollingBack
    | RolledBack
    | RecoveryRequired

  /** `marker` says whether a valid commit marker was found, when that was looked up. */
  predicate Allowed(current: State, target: State, marker: Option<bool>) {
    match current
    case New => target.Prepared?
    case Prepared => target.Applying? || target.RollingBack?
    case Applying => target.CommitMarked? || target.RollingBack?
    case CommitMarked => target.Publishing?
    case Publishing => target.Completed? || target.RecoveryRequired?
    case Completed => false
    case RollingBack => target.RolledBack? || target.RecoveryRequired?
    case RolledBack => false
    case RecoveryRequired =>
      (target.RollingBack? && marker == Some(false)) || (target.Publishing? && marker == Some(true))
  }

  datatype Step = Step(target: State, marker: Option<bool>)

  predicate Run(start: State, steps: seq<Step>)
    decreases |steps|
  {
    steps == [] || (Allowed(start, steps[0].target, steps[0].marker) && Run(steps[0].target, steps[1..]))
  }

  function End(start: State, steps: seq<Step>): State
    decreases |steps|
  {
    if steps == [] then start else End(steps[0].target, steps[1..])
  }

  /** What recovery finds must be the truth: a marker is there exactly when it was set earlier in the run. */
  predicate Truthful(marked: bool, steps: seq<Step>)
    decreases |steps|
  {
    steps == [] ||
    ((steps[0].marker.Some? ==> steps[0].marker.value == marked)
     && Truthful(marked || steps[0].target.CommitMarked?, steps[1..]))
  }

  /** The states in which a marker may, or may not, have been set. */
  predicate Consistent(state: State, marked: bool) {
    && (state.New? || state.Prepared? || state.Applying? || state.RollingBack? || state.RolledBack? ==> !marked)
    && (state.CommitMarked? || state.Publishing? || state.Completed? ==> marked)
  }

  lemma {:induction false} MarkerDecides(start: State, marked: bool, steps: seq<Step>)
    requires Run(start, steps) && Truthful(marked, steps) && Consistent(start, marked)
    ensures Consistent(End(start, steps), marked || exists i :: 0 <= i < |steps| && steps[i].target.CommitMarked?)
    decreases |steps|
  {
    if steps == [] {
    } else {
      var next := marked || steps[0].target.CommitMarked?;
      MarkerDecides(steps[0].target, next, steps[1..]);
      assert (exists i :: 0 <= i < |steps| && steps[i].target.CommitMarked?)
             <==> steps[0].target.CommitMarked? || exists i :: 0 <= i < |steps[1..]| && steps[1..][i].target.CommitMarked? by {
        if exists i :: 0 <= i < |steps| && steps[i].target.CommitMarked? {
          var i :| 0 <= i < |steps| && steps[i].target.CommitMarked?;
          if i > 0 {
            assert steps[1..][i - 1] == steps[i];
          }
        }
        if exists i :: 0 <= i < |steps[1..]| && steps[1..][i].target.CommitMarked? {
          var i :| 0 <= i < |steps[1..]| && steps[1..][i].target.CommitMarked?;
          assert steps[i + 1] == steps[1..][i];
        }
      }
    }
  }

  /** In every run from the start in which recovery reads the marker correctly: a commit is completed only if its marker
      was set, and rolled back only if it never was. */
  lemma MarkedRunsCompleteOthersRollBack(steps: seq<Step>)
    requires Run(New, steps) && Truthful(false, steps)
    ensures End(New, steps).Completed? ==> exists i :: 0 <= i < |steps| && steps[i].target.CommitMarked?
    ensures End(New, steps).RolledBack? || End(New, steps).RollingBack? ==>
              forall i | 0 <= i < |steps| :: !steps[i].target.CommitMarked?
  {
    MarkerDecides(New, false, steps);
  }

  // ---------- Every commit can end ----------

  /** Some run from `start`, in which recovery reads the marker correctly, ends in `end`. */
  ghost predicate CanReach(start: State, marked: bool, end: State) {
    exists steps :: Run(start, steps) && Truthful(marked, steps) && End(start, steps) == end
  }

  lemma Stays(state: State, marked: bool)
    ensures CanReach(state, marked, state)
  {
    assert Run(state, []) && Truthful(marked, []) && End(state, []) == state;
  }

  lemma OneStep(start: State, marked: bool, step: Step, end: State)
    requires Allowed(start, step.target, step.marker) && (step.marker.Some? ==> step.marker.value == marked)
    requires CanReach(step.target, marked || step.target.CommitMarked?, end)
    ensures CanReach(start, marked, end)
  {
    var rest :| Run(step.target, rest) && Truthful(marked || step.target.CommitMarked?, rest) && End(step.target, rest) == end;
    var steps := [step] + rest;
    assert steps[1..] == rest;
    assert Run(start, steps) && Truthful(marked, steps) && End(start, steps) == end;
  }

  /** A commit whose marker was set can still be completed, one whose marker was not can still be rolled back, and before
      that it can be marked. */
  lemma EveryCommitCanEnd(state: State, marked: bool)
    requires Consistent(state, marked)
    ensures marked ==> CanReach(state, marked, Completed)
    ensures !marked && !state.New? ==> CanReach(state, marked, RolledBack)
    ensures state.New? || state.Prepared? || state.Applying? ==> CanReach(state, marked, Completed)
    ensures state.New? ==> CanReach(state, marked, RolledBack)
  {
    Stays(Completed, true);
    OneStep(Publishing, true, Step(Completed, None), Completed);
    OneStep(RecoveryRequired, true, Step(Publishing, Some(true)), Completed);
    OneStep(CommitMarked, true, Step(Publishing, None), Completed);
    OneStep(Applying, false, Step(CommitMarked, None), Completed);
    OneStep(Prepared, false, Step(Applying, None), Completed);
    OneStep(New, false, Step(Prepared, None), Completed);
    Stays(RolledBack, false);
    OneStep(RollingBack, false, Step(RolledBack, None), RolledBack);
    OneStep(RecoveryRequired, false, Step(RollingBack, Some(false)), RolledBack);
    OneStep(Applying, false, Step(RollingBack, None), RolledBack);
    OneStep(Prepared, false, Step(RollingBack, None), RolledBack);
    OneStep(New, false, Step(Prepared, None), RolledBack);
  }

  /** Recovery is called for while publishing or rolling back, and nowhere else; and only a finished commit has no next step. */
  lemma RecoveryAndEndExactly(state: State)
    ensures Allowed(state, RecoveryRequired, None) <==> state.Publishing? || state.RollingBack?
    ensures (forall target, marker :: !Allowed(state, target, marker)) <==> state.Completed? || state.RolledBack?
  {
    assert Allowed(New, Prepared, None) && Allowed(Prepared, Applying, None) && Allowed(Applying, CommitMarked, None);
    assert Allowed(CommitMarked, Publishing, None) && Allowed(Publishing, Completed, None);
    assert Allowed(RollingBack, RolledBack, None) && Allowed(RecoveryRequired, Publishing, Some(true));
  }
}
