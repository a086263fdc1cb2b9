// Every process that touches a run, as one transition system: the run's own
// thread and its employer branches, its heartbeat, the API's stop call, the two
// sweeps, the scheduler's skip. A step is what one session does up to its
// commit, or one read of a gate. Steps of all runs interleave freely, every
// step reads its own clock, and no relation between those readings is assumed.
module RunProtocol {
  import opened Common
  import opened RunStore

  datatype Config = Config(staleAfter: int, grace: int, concurrency: nat)

  const HEARTBEAT_INTERVAL := 15

  // The four full stop gates of an employer branch: before its company is
  // loaded, after its fetch, before its first model call, before its write.
  datatype Stage = Load | Fetch | Score | Write

  // A full gate is two reads in two sessions: the run row, then the stop marker.
  datatype Branch = RowGate(stage: Stage) | MarkerGate(stage: Stage) | Working(stage: Stage) | Done

  datatype Main =
    | Starting       // row and lease committed, clients being built
    | InGraph        // employer branches run
    | RowChecked     // finalize_run passed its row check
    | MarkerChecked  // finalize_run passed both checks
    | Finalized      // finalize_run committed
    | Stopping       // RunStoppedByUser caught
    | Failing        // any other exception caught
    | Exited         // the exit's own commit is done
    | Gone           // the heartbeat was told to stop

  datatype Heartbeat = Off | Waiting | Beating

  datatype Thread = Thread(main: Main, heartbeat: Heartbeat, branches: map<nat, Branch>, queued: nat, stopSeen: bool)

  // `batches` counts the committed job batches of each run.
  datatype State = State(db: Db, threads: map<RunId, Thread>, batches: map<RunId, nat>)

  // A `Guard` is the overlap check of a trigger that is then admitted: it found
  // no RUNNING row. The run it admits starts later, in a commit of its own.
  datatype Step =
    | Guard(run: RunId)
    | Start(run: RunId, trigger: Trigger, startedAt: Time, beatAt: Time, employers: nat)
    | Skip(run: RunId, trigger: Trigger, blocking: RunId, startedAt: Time, clock: Time)
    | Reconcile(now: Time, clock: Time)
    | GraceSweep(now: Time, clock: Time)
    | RequestStop(run: RunId, now: Time)
    | StopStale(run: RunId, now: Time, clock: Time)
    | EnterGraph(run: RunId)
    | BeatBegin(run: RunId)
    | BeatCommit(run: RunId, now: Time)
    | BeatFail(run: RunId)
    | BranchStart(run: RunId, branch: nat)
    | CheckRow(run: RunId, branch: nat)
    | CheckMarker(run: RunId, branch: nat)
    | ListingCheck(run: RunId, branch: nat)
    | Recheck(run: RunId, branch: nat)
    | Advance(run: RunId, branch: nat)
    | CommitBatch(run: RunId, branch: nat)
    | BranchFail(run: RunId, branch: nat)
    | BranchEnd(run: RunId, branch: nat)
    | Retry(run: RunId, branch: nat)
    | FinalRowCheck(run: RunId)
    | FinalMarkerCheck(run: RunId)
    | Finalize(run: RunId, status: Status, counters: Counters, note: Option<Note>, clock: Time)
    | CatchStop(run: RunId)
    | Abort(run: RunId)
    | StopExit(run: RunId, counters: Counters, clock: Time)
    | FailExit(run: RunId, counters: Counters, message: string, clock: Time)
    | Cleanup(run: RunId)
    | SignalHeartbeat(run: RunId)
    | Crash(run: RunId)

  predicate At(s: State, r: RunId, main: Main) {
    r in s.threads && s.threads[r].main == main
  }

  predicate BranchAt(s: State, r: RunId, b: nat, at: Branch) {
    r in s.threads && b in s.threads[r].branches && s.threads[r].branches[b] == at
  }

  predicate HasBranch(s: State, r: RunId, b: nat) {
    r in s.threads && b in s.threads[r].branches
  }

  predicate Enabled(cfg: Config, s: State, step: Step) {
    match step
    case Guard(r) => r !in s.db.runs && forall q :: q in s.db.runs ==> !IsRunning(s.db, q)
    case Start(r, _, _, _, _) => r !in s.db.runs && r !in s.threads
    case Skip(r, _, blocking, _, _) => r !in s.db.runs && IsRunning(s.db, blocking)
    case Reconcile(_, _) => true
    case GraceSweep(_, _) => true
    case RequestStop(r, now) => IsLive(s.db, r, now, cfg.staleAfter)
    case StopStale(r, now, _) => IsStale(s.db, r, now, cfg.staleAfter)
    case EnterGraph(r) => At(s, r, Starting)
    case BeatBegin(r) => r in s.threads && s.threads[r].heartbeat == Waiting && s.threads[r].main != Gone
    case BeatCommit(r, _) => r in s.threads && s.threads[r].heartbeat == Beating
    case BeatFail(r) => r in s.threads && s.threads[r].heartbeat == Beating
    case BranchStart(r, b) =>
      && At(s, r, InGraph) && s.threads[r].queued > 0
      && b !in s.threads[r].branches && |s.threads[r].branches| < cfg.concurrency
    case CheckRow(r, b) => HasBranch(s, r, b) && s.threads[r].branches[b].RowGate?
    case CheckMarker(r, b) => HasBranch(s, r, b) && s.threads[r].branches[b].MarkerGate?
    case ListingCheck(r, b) => BranchAt(s, r, b, Working(Score))
    case Recheck(r, b) => BranchAt(s, r, b, Working(Load))
    case Advance(r, b) =>
      HasBranch(s, r, b) && s.threads[r].branches[b].Working? && s.threads[r].branches[b].stage != Write
    case CommitBatch(r, b) => BranchAt(s, r, b, Working(Write)) && r in s.batches
    case BranchFail(r, b) => HasBranch(s, r, b)
    case BranchEnd(r, b) => BranchAt(s, r, b, Done)
    case Retry(r, b) => HasBranch(s, r, b)
    case FinalRowCheck(r) =>
      && At(s, r, InGraph) && s.threads[r].branches == map[] && s.threads[r].queued == 0 && !s.threads[r].stopSeen
    case FinalMarkerCheck(r) => At(s, r, RowChecked)
    case Finalize(r, status, _, note, _) =>
      && At(s, r, MarkerChecked) && status in {Success, Partial, Failed, Capped}
      && (note.Some? ==> note.value.Summary?)
    case CatchStop(r) => At(s, r, InGraph) && s.threads[r].stopSeen
    case Abort(r) => At(s, r, InGraph) || At(s, r, RowChecked) || At(s, r, MarkerChecked) || At(s, r, Finalized)
    case StopExit(r, _, _) => At(s, r, Stopping)
    case FailExit(r, _, _, _) => At(s, r, Failing)
    case Cleanup(r) => At(s, r, Finalized)
    case SignalHeartbeat(r) => At(s, r, Exited)
    case Crash(r) => r in s.threads
  }

  function DbAfter(cfg: Config, s: State, step: Step): Db {
    match step
    case Start(r, trigger, startedAt, beatAt, _) => Started(s.db, r, trigger, startedAt, beatAt)
    case Skip(r, trigger, blocking, startedAt, clock) => SkipRecorded(s.db, r, trigger, blocking, startedAt, clock)
    case Reconcile(now, clock) => Reconciled(s.db, now, cfg.staleAfter, clock)
    case GraceSweep(now, clock) => GraceSwept(s.db, now, cfg.grace, clock)
    case RequestStop(r, now) => StopRequested(s.db, r, now)
    case StopStale(r, _, clock) => StopCleared(FinalizeStale(s.db, r, Stopped, StaleStop, clock), Some(r))
    case BeatCommit(r, now) => Put(s.db, Lease(r), Stamp(now))
    case Finalize(r, status, counters, note, clock) => FinishedIfRunning(s.db, r, status, counters, note, clock)
    case StopExit(r, counters, clock) => StoppedExit(s.db, r, counters, clock)
    case FailExit(r, counters, message, clock) => FailedExit(s.db, r, counters, message, clock)
    case Cleanup(r) => ArtifactsCleared(s.db, r)
    case _ => s.db
  }

  function NextStage(stage: Stage): Stage {
    match stage
    case Load => Fetch
    case Fetch => Score
    case Score => Write
    case Write => Write
  }

  function WithBranch(t: Thread, b: nat, at: Branch): Thread {
    t.(branches := t.branches[b := at])
  }

  // The branch raised RunStoppedByUser: it is over and the graph saw the stop.
  function BranchStopped(t: Thread, b: nat): Thread {
    t.(branches := t.branches - {b}, stopSeen := true)
  }

  function BranchAfter(s: State, r: RunId, b: nat, t: Thread, step: Step): Thread
    requires b in t.branches
  {
    var at := t.branches[b];
    match step
    case CheckRow(_, _) =>
      if at.RowGate? && IsRunning(s.db, r) then WithBranch(t, b, MarkerGate(at.stage)) else BranchStopped(t, b)
    case CheckMarker(_, _) =>
      if at.MarkerGate? && !MarkerNames(s.db, r) then WithBranch(t, b, Working(at.stage)) else BranchStopped(t, b)
    case ListingCheck(_, _) => if MarkerNames(s.db, r) then BranchStopped(t, b) else t
    case Recheck(_, _) => WithBranch(t, b, RowGate(Load))
    case Advance(_, _) => if at.Working? then WithBranch(t, b, RowGate(NextStage(at.stage))) else t
    case CommitBatch(_, _) => WithBranch(t, b, Done)
    case BranchFail(_, _) => t.(branches := t.branches - {b})
    case BranchEnd(_, _) => t.(branches := t.branches - {b})
    case Retry(_, _) => WithBranch(t, b, RowGate(Load))
    case _ => t
  }

  // The thread of run `r` after a step of that run.
  function ThreadAfter(s: State, r: RunId, t: Thread, step: Step): Thread {
    match step
    case EnterGraph(_) => t.(main := InGraph, heartbeat := Waiting)
    case BeatBegin(_) => t.(heartbeat := Beating)
    case BeatCommit(_, _) => t.(heartbeat := Waiting)
    case BeatFail(_) => t.(heartbeat := Waiting)
    case BranchStart(_, b) => WithBranch(t, b, RowGate(Load)).(queued := if t.queued > 0 then t.queued - 1 else 0)
    case FinalRowCheck(_) => t.(main := if IsRunning(s.db, r) then RowChecked else Stopping)
    case FinalMarkerCheck(_) => t.(main := if MarkerNames(s.db, r) then Stopping else MarkerChecked)
    case Finalize(_, _, _, _, _) => t.(main := Finalized)
    case CatchStop(_) => t.(main := Stopping)
    case Abort(_) => t.(main := Failing)
    case StopExit(_, _, _) => t.(main := Exited)
    case FailExit(_, _, _, _) => t.(main := Exited)
    case Cleanup(_) => t.(main := Exited)
    case SignalHeartbeat(_) => t.(main := Gone)
    case _ => var b := if IsBranchStep(step) then step.branch else 0;
              if IsBranchStep(step) && b in t.branches then BranchAfter(s, r, b, t, step) else t
  }

  predicate IsBranchStep(step: Step) {
    || step.CheckRow? || step.CheckMarker? || step.ListingCheck? || step.Recheck? || step.Advance?
    || step.CommitBatch? || step.BranchFail? || step.BranchEnd? || step.Retry?
  }

  // The run a step belongs to; a sweep belongs to none.
  function Subject(step: Step): Option<RunId> {
    if step.Reconcile? || step.GraceSweep? then None else Some(step.run)
  }

  function ThreadsAfter(s: State, step: Step): map<RunId, Thread> {
    match step
    case Start(r, _, _, _, employers) => s.threads[r := Thread(Starting, Off, map[], employers, false)]
    case Crash(r) => s.threads - {r}
    case _ =>
      var r := Subject(step);
      if r.Some? && r.value in s.threads
      then s.threads[r.value := ThreadAfter(s, r.value, s.threads[r.value], step)]
      else s.threads
  }

  function BatchesAfter(s: State, step: Step): map<RunId, nat> {
    match step
    case Start(r, _, _, _, _) => s.batches[r := 0]
    case CommitBatch(r, _) => if r in s.batches then s.batches[r := s.batches[r] + 1] else s.batches
    case _ => s.batches
  }

  function Next(cfg: Config, s: State, step: Step): Option<State> {
    if Enabled(cfg, s, step)
    then Some(State(DbAfter(cfg, s, step), ThreadsAfter(s, step), BatchesAfter(s, step)))
    else None
  }

  // The state after a schedule of steps; `None` when some step was not possible.
  function Exec(cfg: Config, s: State, steps: seq<Step>): Option<State> {
    if steps == [] then Some(s)
    else
      var before := Exec(cfg, s, steps[..|steps| - 1]);
      if before.None? then None else Next(cfg, before.value, steps[|steps| - 1])
  }

  // --- initial states and the invariant -----------------------------------------------

  ghost predicate RowWellFormed(run: Run) {
    && (run.status != Running <==> run.finishedAt.Some?)
    && (run.status == Running ==> run.counters == ZERO && run.note == None)
  }

  // Any stored tables, orphaned RUNNING rows and left-over settings included,
  // with no process of ours alive yet.
  ghost predicate Idle(s: State) {
    && s.threads == map[]
    && s.batches == map[]
    && forall r :: r in s.db.runs ==> RowWellFormed(s.db.runs[r])
  }

  ghost predicate ThreadOk(cfg: Config, s: State, r: RunId)
    requires r in s.threads
  {
    var t := s.threads[r];
    && r in s.db.runs
    && r in s.batches
    && (t.main in {Finalized, Exited, Gone} ==> IsTerminal(s.db, r))
    && |t.branches| <= cfg.concurrency
  }

  ghost predicate Inv(cfg: Config, s: State) {
    && (forall r :: r in s.db.runs ==> RowWellFormed(s.db.runs[r]))
    && (forall r :: r in s.threads ==> ThreadOk(cfg, s, r))
  }

  // What one step may do to an existing row.
  lemma RowStep(cfg: Config, s: State, step: Step, r: RunId)
    requires Enabled(cfg, s, step) && r in s.db.runs
    ensures var after := DbAfter(cfg, s, step);
            && r in after.runs
            && (IsTerminal(s.db, r) ==> after.runs[r] == s.db.runs[r])
            && (IsRunning(s.db, r) ==> after.runs[r] == s.db.runs[r] || after.runs[r].finishedAt.Some?)
            && (IsRunning(s.db, r) && IsRunning(after, r) ==> after.runs[r] == s.db.runs[r])
            && after.runs[r].trigger == s.db.runs[r].trigger
            && after.runs[r].startedAt == s.db.runs[r].startedAt
  {
  }

  lemma NewRowStep(cfg: Config, s: State, step: Step, r: RunId)
    requires Enabled(cfg, s, step) && r !in s.db.runs && r in DbAfter(cfg, s, step).runs
    ensures RowWellFormed(DbAfter(cfg, s, step).runs[r])
    ensures step.Start? || step.Skip?
  {
  }

  lemma BranchMapSizes(m: map<nat, Branch>, b: nat, at: Branch)
    ensures |m - {b}| <= |m|
    ensures |m[b := at]| == if b in m then |m| else |m| + 1
  {
    assert |m - {b}| == |(m - {b}).Keys| && (m - {b}).Keys == m.Keys - {b};
    assert |m[b := at]| == |m[b := at].Keys| && m[b := at].Keys == m.Keys + {b};
  }

  lemma BranchCount(cfg: Config, s: State, step: Step, r: RunId)
    requires Enabled(cfg, s, step) && r in s.threads && ThreadOk(cfg, s, r)
    requires Subject(step) == Some(r) && !step.Start? && !step.Crash?
    ensures |ThreadAfter(s, r, s.threads[r], step).branches| <= cfg.concurrency
  {
    var t := s.threads[r];
    var after := ThreadAfter(s, r, t, step).branches;
    if IsBranchStep(step) || step.BranchStart? {
      var b := step.branch;
      BranchMapSizes(t.branches, b, if b in after then after[b] else Done);
      assert after == t.branches || after == t.branches - {b} || (b in after && after == t.branches[b := after[b]]);
    }
  }

  lemma EndedThreadStep(cfg: Config, s: State, step: Step, r: RunId)
    requires Inv(cfg, s) && Enabled(cfg, s, step) && r in s.threads && Subject(step) == Some(r) && !step.Crash?
    ensures ThreadAfter(s, r, s.threads[r], step).main in {Finalized, Exited, Gone} ==>
              IsTerminal(DbAfter(cfg, s, step), r)
  {
    assert ThreadOk(cfg, s, r);
    RowStep(cfg, s, step, r);
  }

  lemma ThreadOkStep(cfg: Config, s: State, step: Step, r: RunId)
    requires Inv(cfg, s) && Enabled(cfg, s, step) && r in Next(cfg, s, step).value.threads
    ensures ThreadOk(cfg, Next(cfg, s, step).value, r)
  {
    if r in s.threads {
      assert ThreadOk(cfg, s, r);
      RowStep(cfg, s, step, r);
      if Subject(step) == Some(r) {
        EndedThreadStep(cfg, s, step, r);
        BranchCount(cfg, s, step, r);
      }
    }
  }

  lemma InvStep(cfg: Config, s: State, step: Step)
    requires Inv(cfg, s) && Enabled(cfg, s, step)
    ensures Inv(cfg, Next(cfg, s, step).value)
  {
    var s' := Next(cfg, s, step).value;
    forall r | r in s'.db.runs
      ensures RowWellFormed(s'.db.runs[r])
    {
      if r in s.db.runs {
        RowStep(cfg, s, step, r);
      } else {
        NewRowStep(cfg, s, step, r);
      }
    }
    forall r | r in s'.threads
      ensures ThreadOk(cfg, s', r)
    {
      ThreadOkStep(cfg, s, step, r);
    }
  }

  // A stop call is one of the steps: it records a request exactly when that step
  // is possible, ends a stale run exactly when that one is, and else changes nothing.
  lemma StopCallIsAStep(cfg: Config, s: State, r: RunId, now: Time, clock: Time)
    ensures var (reply, after) := StopCall(s.db, r, now, cfg.staleAfter, clock);
            && (reply == Accepted <==> Enabled(cfg, s, RequestStop(r, now)))
            && (reply == StaleStopped <==> Enabled(cfg, s, StopStale(r, now, clock)))
            && after == (match reply
                         case Accepted => DbAfter(cfg, s, RequestStop(r, now))
                         case StaleStopped => DbAfter(cfg, s, StopStale(r, now, clock))
                         case _ => s.db)
  {
  }

  lemma {:induction false} InvAlways(cfg: Config, s: State, steps: seq<Step>)
    requires Inv(cfg, s) && Exec(cfg, s, steps).Some?
    ensures Inv(cfg, Exec(cfg, s, steps).value)
  {
    if steps != [] {
      InvAlways(cfg, s, steps[..|steps| - 1]);
      InvStep(cfg, Exec(cfg, s, steps[..|steps| - 1]).value, steps[|steps| - 1]);
    }
  }

  // --- terminal rows -----------------------------------------------------------------------

  // Once a row has left RUNNING, no schedule of any processes changes any of
  // its columns again, from whatever state the schedule starts.
  lemma {:induction false} TerminalRowsFrozen(cfg: Config, s: State, steps: seq<Step>, r: RunId)
    requires Exec(cfg, s, steps).Some? && IsTerminal(s.db, r)
    ensures var after := Exec(cfg, s, steps).value.db;
            r in after.runs && after.runs[r] == s.db.runs[r]
  {
    if steps != [] {
      TerminalRowsFrozen(cfg, s, steps[..|steps| - 1], r);
      RowStep(cfg, Exec(cfg, s, steps[..|steps| - 1]).value, steps[|steps| - 1], r);
    }
  }

  lemma {:induction false} FinishTimeIffTerminal(cfg: Config, s: State, steps: seq<Step>, r: RunId)
    requires Idle(s) && Exec(cfg, s, steps).Some? && r in Exec(cfg, s, steps).value.db.runs
    ensures var run := Exec(cfg, s, steps).value.db.runs[r];
            && (run.finishedAt.Some? <==> run.status != Running)
            && (run.status == Running ==> run.counters == ZERO && run.note == None)
  {
    InvAlways(cfg, s, steps);
  }
}
