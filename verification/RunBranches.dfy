// The employer branches of one run: none is lost or taken twice, none skips a
// gate, and none enters a stage once the run was asked to stop.
module RunBranches {
  import opened Common
  import opened RunStore
  import opened RunProtocol
  import opened RunSafety

  // --- the pool ---------------------------------------------------------------------

  // Steps that take a branch out of the pool: it failed, it is done, or a gate
  // or a listing check stopped it.
  predicate EndsBranch(s: State, step: Step) {
    match step
    case BranchFail(_, _) => true
    case BranchEnd(_, _) => true
    case CheckRow(r, _) => !IsRunning(s.db, r)
    case CheckMarker(r, _) => MarkerNames(s.db, r)
    case ListingCheck(r, _) => MarkerNames(s.db, r)
    case _ => false
  }

  function BranchesBegun(steps: seq<Step>, r: RunId): nat {
    if steps == [] then 0
    else
      var last := steps[|steps| - 1];
      BranchesBegun(steps[..|steps| - 1], r) + if last.BranchStart? && last.run == r then 1 else 0
  }

  function BranchesEnded(cfg: Config, s: State, steps: seq<Step>, r: RunId): nat {
    if steps == [] then 0
    else
      var init, last := steps[..|steps| - 1], steps[|steps| - 1];
      var mid := Exec(cfg, s, init);
      BranchesEnded(cfg, s, init, r)
      + if mid.Some? && Subject(last) == Some(r) && EndsBranch(mid.value, last) then 1 else 0
  }

  lemma BranchRemoved(m: map<nat, Branch>, b: nat)
    requires b in m
    ensures |m - {b}| == |m| - 1
  {
    assert |m - {b}| == |(m - {b}).Keys| && (m - {b}).Keys == m.Keys - {b};
  }

  lemma BranchStep(s: State, r: RunId, b: nat, t: Thread, step: Step)
    requires b in t.branches && IsBranchStep(step) && step.run == r && step.branch == b
    requires step.CheckRow? ==> t.branches[b].RowGate?
    requires step.CheckMarker? ==> t.branches[b].MarkerGate?
    ensures var t' := BranchAfter(s, r, b, t, step);
            && |t'.branches| + (if EndsBranch(s, step) then 1 else 0) == |t.branches|
            && t'.queued == t.queued
  {
    var after := BranchAfter(s, r, b, t, step).branches;
    BranchRemoved(t.branches, b);
    BranchMapSizes(t.branches, b, if b in after then after[b] else Done);
    assert EndsBranch(s, step) ==> after == t.branches - {b};
    assert !EndsBranch(s, step) ==> after == t.branches || (b in after && after == t.branches[b := after[b]]);
  }

  lemma PoolIsKept(s: State, r: RunId, t: Thread, step: Step)
    requires !IsBranchStep(step) && !step.BranchStart?
    ensures ThreadAfter(s, r, t, step).branches == t.branches && ThreadAfter(s, r, t, step).queued == t.queued
    ensures !EndsBranch(s, step)
  {
  }

  lemma BranchesStep(cfg: Config, s: State, step: Step, r: RunId)
    requires Enabled(cfg, s, step) && r in s.threads && Subject(step) == Some(r) && !step.Crash?
    ensures var t, t' := s.threads[r], ThreadAfter(s, r, s.threads[r], step);
            && |t'.branches| + (if EndsBranch(s, step) then 1 else 0)
               == |t.branches| + (if step.BranchStart? then 1 else 0)
            && t'.queued + (if step.BranchStart? then 1 else 0) == t.queued
  {
    var t := s.threads[r];
    if IsBranchStep(step) {
      BranchStep(s, r, step.branch, t, step);
    } else if step.BranchStart? {
      BranchMapSizes(t.branches, step.branch, RowGate(Load));
    } else {
      PoolIsKept(s, r, t, step);
    }
  }

  // Employers are neither lost nor taken twice: every one is waiting, in the
  // pool, or over.
  lemma {:induction false} EmployersAreConserved(cfg: Config, s: State, steps: seq<Step>, r: RunId)
    requires Exec(cfg, s, steps).Some? && r in s.threads && Crash(r) !in steps
    ensures var end := Exec(cfg, s, steps).value;
            && r in end.threads
            && end.threads[r].queued + BranchesBegun(steps, r) == s.threads[r].queued
            && |end.threads[r].branches| + BranchesEnded(cfg, s, steps, r)
               == |s.threads[r].branches| + BranchesBegun(steps, r)
  {
    if steps != [] {
      var init, last := steps[..|steps| - 1], steps[|steps| - 1];
      var mid := Exec(cfg, s, init).value;
      assert last in steps && Crash(r) !in init;
      EmployersAreConserved(cfg, s, init, r);
      if Subject(last) == Some(r) {
        BranchesStep(cfg, mid, last, r);
      } else {
        OtherRunsStep(cfg, mid, last, r);
      }
    }
  }

  lemma FinalGateIsAfterThePool(cfg: Config, s: State, r: RunId)
    requires Enabled(cfg, s, FinalRowCheck(r))
    ensures r in s.threads && |s.threads[r].branches| == 0 && s.threads[r].queued == 0
  {
  }

  // A run reaches its final gates only when the branch of every employer it was
  // started with has begun and is over.
  lemma {:induction false} FinalGateMeansAllOver(cfg: Config, s: State, steps: seq<Step>, r: RunId, end: State)
    requires r in s.threads && |s.threads[r].branches| == 0
    requires Exec(cfg, s, steps) == Some(end) && Crash(r) !in steps && Enabled(cfg, end, FinalRowCheck(r))
    ensures BranchesBegun(steps, r) == s.threads[r].queued == BranchesEnded(cfg, s, steps, r)
  {
    EmployersAreConserved(cfg, s, steps, r);
    FinalGateIsAfterThePool(cfg, end, r);
  }

  // --- the gates ---------------------------------------------------------------------

  function RowChecks(steps: seq<Step>, r: RunId, b: nat): nat {
    if steps == [] then 0
    else RowChecks(steps[..|steps| - 1], r, b) + if steps[|steps| - 1] == CheckRow(r, b) then 1 else 0
  }

  function MarkerChecks(steps: seq<Step>, r: RunId, b: nat): nat {
    if steps == [] then 0
    else MarkerChecks(steps[..|steps| - 1], r, b) + if steps[|steps| - 1] == CheckMarker(r, b) then 1 else 0
  }

  // The checks a branch has behind it at this point: two at the gate of each stage.
  predicate HasPassed(at: Branch, rows: nat, markers: nat) {
    match at
    case RowGate(stage) => Gates(stage) <= rows && Gates(stage) <= markers
    case MarkerGate(stage) => Gates(stage) < rows && Gates(stage) <= markers
    case Working(stage) => Gates(stage) < rows && Gates(stage) < markers
    case Done => 4 <= rows && 4 <= markers
  }

  function Gates(stage: Stage): nat {
    match stage
    case Load => 0
    case Fetch => 1
    case Score => 2
    case Write => 3
  }

  predicate PassedGates(s: State, r: RunId, b: nat, rows: nat, markers: nat) {
    HasBranch(s, r, b) ==> HasPassed(s.threads[r].branches[b], rows, markers)
  }

  lemma GateOfABranch(cfg: Config, s: State, r: RunId, b: nat, step: Step, rows: nat, markers: nat)
    requires Enabled(cfg, s, step) && HasBranch(s, r, b) && IsBranchStep(step) && step.run == r && step.branch == b
    requires HasPassed(s.threads[r].branches[b], rows, markers)
    ensures var after := BranchAfter(s, r, b, s.threads[r], step).branches;
            b in after ==> HasPassed(after[b], rows + if step.CheckRow? then 1 else 0,
                                     markers + if step.CheckMarker? then 1 else 0)
  {
  }

  // The branch of another employer, and steps that are no branch steps.
  lemma OtherBranches(s: State, r: RunId, b: nat, t: Thread, step: Step)
    requires !step.BranchStart? && (IsBranchStep(step) ==> step.branch != b)
    ensures var after := ThreadAfter(s, r, t, step).branches;
            b in after ==> b in t.branches && after[b] == t.branches[b]
  {
    if !IsBranchStep(step) {
      PoolIsKept(s, r, t, step);
    }
  }

  lemma GateOfAThread(cfg: Config, s: State, r: RunId, b: nat, step: Step, rows: nat, markers: nat)
    requires Enabled(cfg, s, step) && r in s.threads && Subject(step) == Some(r) && !step.Crash?
    requires PassedGates(s, r, b, rows, markers)
    ensures var after := ThreadAfter(s, r, s.threads[r], step).branches;
            b in after ==> HasPassed(after[b], rows + if step == CheckRow(r, b) then 1 else 0,
                                     markers + if step == CheckMarker(r, b) then 1 else 0)
  {
    if IsBranchStep(step) && step.branch == b {
      GateOfABranch(cfg, s, r, b, step, rows, markers);
    } else if !step.BranchStart? {
      OtherBranches(s, r, b, s.threads[r], step);
    }
  }

  lemma GateStep(cfg: Config, s: State, step: Step, r: RunId, b: nat, rows: nat, markers: nat)
    requires Enabled(cfg, s, step) && PassedGates(s, r, b, rows, markers)
    ensures PassedGates(Next(cfg, s, step).value, r, b, rows + if step == CheckRow(r, b) then 1 else 0,
                        markers + if step == CheckMarker(r, b) then 1 else 0)
  {
    if Subject(step) != Some(r) {
      OtherRunsStep(cfg, s, step, r);
    } else if r in s.threads && !step.Crash? {
      GateOfAThread(cfg, s, r, b, step, rows, markers);
    }
  }

  lemma {:induction false} GatesArePassed(cfg: Config, s: State, steps: seq<Step>, r: RunId, b: nat)
    requires Exec(cfg, s, steps).Some? && !HasBranch(s, r, b)
    ensures PassedGates(Exec(cfg, s, steps).value, r, b, RowChecks(steps, r, b), MarkerChecks(steps, r, b))
  {
    if steps != [] {
      var init, last := steps[..|steps| - 1], steps[|steps| - 1];
      GatesArePassed(cfg, s, init, r, b);
      GateStep(cfg, Exec(cfg, s, init).value, last, r, b, RowChecks(init, r, b), MarkerChecks(init, r, b));
    }
  }

  // No branch works on a stage, or commits a batch, without a row check and a
  // marker check of its own for that stage and for each stage before it.
  lemma {:induction false} EveryGateIsPassed(cfg: Config, s: State, steps: seq<Step>, r: RunId, b: nat, stage: Stage)
    requires Exec(cfg, s, steps).Some? && !HasBranch(s, r, b)
    requires BranchAt(Exec(cfg, s, steps).value, r, b, Working(stage))
    ensures RowChecks(steps, r, b) > Gates(stage) && MarkerChecks(steps, r, b) > Gates(stage)
    ensures stage == Write ==> RowChecks(steps, r, b) >= 4 && MarkerChecks(steps, r, b) >= 4
  {
    GatesArePassed(cfg, s, steps, r, b);
  }

  // --- after a stop request -------------------------------------------------------------

  // At its next marker gate, and before its next listing, a branch of a run that
  // was asked to stop is over, and the run can no longer pass its final gates.
  lemma StopEndsTheBranch(cfg: Config, s: State, r: RunId, b: nat, step: Step)
    requires step in {CheckMarker(r, b), ListingCheck(r, b)} && Enabled(cfg, s, step) && MarkerNames(s.db, r)
    ensures var s' := Next(cfg, s, step).value;
            && !HasBranch(s', r, b) && r in s'.threads && s'.threads[r].stopSeen
            && !Enabled(cfg, s', FinalRowCheck(r))
  {
  }

  // What a branch works on.
  predicate WorksOn(branches: map<nat, Branch>, b: nat, stage: Stage) {
    b in branches && branches[b] == Working(stage)
  }

  lemma NoStageOfABranch(s: State, r: RunId, b: nat, t: Thread, step: Step, at: nat, stage: Stage)
    requires MarkerNames(s.db, r) && at in t.branches
    requires WorksOn(BranchAfter(s, r, at, t, step).branches, b, stage)
    ensures WorksOn(t.branches, b, stage)
  {
  }

  lemma NoStageOfAThread(s: State, r: RunId, b: nat, t: Thread, step: Step, stage: Stage)
    requires MarkerNames(s.db, r) && WorksOn(ThreadAfter(s, r, t, step).branches, b, stage)
    ensures WorksOn(t.branches, b, stage)
  {
    if IsBranchStep(step) && step.branch in t.branches {
      NoStageOfABranch(s, r, b, t, step, step.branch, stage);
    }
  }

  lemma NoStageIsEntered(cfg: Config, s: State, step: Step, r: RunId, b: nat, stage: Stage)
    requires Enabled(cfg, s, step) && MarkerNames(s.db, r) && r in s.db.runs
    requires BranchAt(Next(cfg, s, step).value, r, b, Working(stage))
    ensures BranchAt(s, r, b, Working(stage))
  {
    if Subject(step) == Some(r) && r in s.threads && !step.Start? && !step.Crash? {
      NoStageOfAThread(s, r, b, s.threads[r], step, stage);
    }
  }

  // While the marker names a RUNNING run its branches enter no stage: what is
  // being worked on at the end was being worked on when the stop came.
  lemma {:induction false} NoStageIsEnteredAfterAStop(cfg: Config, s: State, steps: seq<Step>, r: RunId, b: nat,
                                                      stage: Stage)
    requires Inv(cfg, s) && Exec(cfg, s, steps).Some? && StopPending(s, r)
    requires forall i :: 0 <= i < |steps| ==> !DisturbsMarker(steps[i], r)
    requires IsRunning(Exec(cfg, s, steps).value.db, r)
    requires BranchAt(Exec(cfg, s, steps).value, r, b, Working(stage))
    ensures BranchAt(s, r, b, Working(stage))
  {
    if steps != [] {
      var init, last := steps[..|steps| - 1], steps[|steps| - 1];
      var mid := Exec(cfg, s, init).value;
      UndisturbedStopIsHonoured(cfg, s, init, r);
      InvAlways(cfg, s, init);
      RowStep(cfg, mid, last, r);
      NoStageIsEntered(cfg, mid, last, r, b, stage);
      NoStageIsEnteredAfterAStop(cfg, s, init, r, b, stage);
    }
  }
}
