// What every interleaving of the run protocol guarantees, and the exact
// conditions under which the guarantees it does not give would hold.
module RunSafety {
  import opened Common
  import opened RunStore
  import opened RunProtocol

  lemma {:induction false} ExecSnoc(cfg: Config, s: State, steps: seq<Step>, step: Step)
    ensures Exec(cfg, s, steps + [step]) ==
            if Exec(cfg, s, steps).None? then None else Next(cfg, Exec(cfg, s, steps).value, step)
  {
    assert (steps + [step])[..|steps|] == steps;
  }

  lemma {:induction false} ExecConcat(cfg: Config, s: State, a: seq<Step>, b: seq<Step>)
    ensures Exec(cfg, s, a + b) ==
            if Exec(cfg, s, a).None? then None else Exec(cfg, Exec(cfg, s, a).value, b)
  {
    if b == [] {
      assert a + b == a;
    } else {
      var init, last := b[..|b| - 1], b[|b| - 1];
      ExecConcat(cfg, s, a, init);
      assert a + b == (a + init) + [last];
      ExecSnoc(cfg, s, a + init, last);
    }
  }

  // --- what a schedule says about a run ----------------------------------------------------

  // When the latest stop request for `r` in the schedule was made.
  function LastRequest(steps: seq<Step>, r: RunId): Option<Time> {
    if steps == [] then None
    else
      var step := steps[|steps| - 1];
      if step.RequestStop? && step.run == r then Some(step.now) else LastRequest(steps[..|steps| - 1], r)
  }

  // When the lease of `r` was last written by its own process.
  function LastBeat(steps: seq<Step>, r: RunId): Option<Time> {
    if steps == [] then None
    else
      var step := steps[|steps| - 1];
      if step.Start? && step.run == r then Some(step.beatAt)
      else if step.BeatCommit? && step.run == r then Some(step.now)
      else LastBeat(steps[..|steps| - 1], r)
  }

  // Whether the user asked for `r` to stop.
  predicate Asked(steps: seq<Step>, r: RunId) {
    steps != [] &&
    var step := steps[|steps| - 1];
    || ((step.RequestStop? || step.StopStale?) && step.run == r)
    || Asked(steps[..|steps| - 1], r)
  }

  // --- a requested stop is never lost ---------------------------------------------------------

  // A step that belongs to another run, or to none, leaves the settings of a run
  // alone that it does not end.
  lemma OtherRunsSettings(cfg: Config, s: State, step: Step, r: RunId)
    requires Enabled(cfg, s, step) && Subject(step) != Some(r) && !IsTerminal(DbAfter(cfg, s, step), r)
    ensures ParseTimestamp(DbAfter(cfg, s, step), StopAt(r)) == ParseTimestamp(s.db, StopAt(r))
    ensures ParseTimestamp(DbAfter(cfg, s, step), Lease(r)) == ParseTimestamp(s.db, Lease(r))
  {
    match step
    case Reconcile(now, clock) => SparedByReconcile(s.db, now, cfg.staleAfter, clock, r);
    case GraceSweep(now, clock) => SparedBySweep(s.db, now, cfg.grace, clock, r);
    case Start(q, trigger, startedAt, beatAt, n) => assert Lease(q) != Lease(r);
    case Skip(q, trigger, blocking, startedAt, clock) =>
    case RequestStop(q, now) => assert StopAt(q) != StopAt(r);
    case StopStale(q, now, clock) => assert StopAt(q) != StopAt(r) && Lease(q) != Lease(r);
    case BeatCommit(q, now) => assert Lease(q) != Lease(r);
    case Finalize(q, status, counters, note, clock) =>
    case StopExit(q, counters, clock) => assert StopAt(q) != StopAt(r) && Lease(q) != Lease(r);
    case FailExit(q, counters, message, clock) => assert Lease(q) != Lease(r);
    case Cleanup(q) => assert StopAt(q) != StopAt(r) && Lease(q) != Lease(r);
    case _ =>
  }

  lemma SparedByReconcile(db: Db, now: Time, staleAfter: int, clock: Time, r: RunId)
    requires !IsTerminal(Reconciled(db, now, staleAfter, clock), r)
    ensures ParseTimestamp(Reconciled(db, now, staleAfter, clock), StopAt(r)) == ParseTimestamp(db, StopAt(r))
    ensures ParseTimestamp(Reconciled(db, now, staleAfter, clock), Lease(r)) == ParseTimestamp(db, Lease(r))
  {
    assert r !in StaleRuns(db, now, staleAfter);
  }

  lemma SparedBySweep(db: Db, now: Time, grace: int, clock: Time, r: RunId)
    requires !IsTerminal(GraceSwept(db, now, grace, clock), r)
    ensures ParseTimestamp(GraceSwept(db, now, grace, clock), StopAt(r)) == ParseTimestamp(db, StopAt(r))
    ensures ParseTimestamp(GraceSwept(db, now, grace, clock), Lease(r)) == ParseTimestamp(db, Lease(r))
  {
    assert r !in ExpiredRuns(db, now, grace);
  }

  // A step of a run itself that does not end it touches its settings only by a
  // stop request or a beat.
  lemma OwnSettings(cfg: Config, s: State, step: Step, r: RunId)
    requires Inv(cfg, s) && Enabled(cfg, s, step) && Subject(step) == Some(r) && !step.Start?
    requires !IsTerminal(DbAfter(cfg, s, step), r)
    ensures ParseTimestamp(DbAfter(cfg, s, step), StopAt(r)) ==
            if step.RequestStop? then Some(step.now) else ParseTimestamp(s.db, StopAt(r))
    ensures ParseTimestamp(DbAfter(cfg, s, step), Lease(r)) ==
            if step.BeatCommit? then Some(step.now) else ParseTimestamp(s.db, Lease(r))
  {
    assert r in s.threads ==> ThreadOk(cfg, s, r);
    match step
    case StopStale(q, now, clock) =>
    case StopExit(q, counters, clock) =>
    case FailExit(q, counters, message, clock) =>
    case Cleanup(q) =>
    case Finalize(q, status, counters, note, clock) =>
    case RequestStop(q, now) => assert StopAt(r) != Lease(r);
    case BeatCommit(q, now) => assert StopAt(r) != Lease(r);
    case Skip(q, trigger, blocking, startedAt, clock) =>
    case _ =>
  }

  lemma StopTimeStep(cfg: Config, s: State, step: Step, r: RunId)
    requires Inv(cfg, s) && Enabled(cfg, s, step)
    requires !IsTerminal(DbAfter(cfg, s, step), r)
    ensures !IsTerminal(s.db, r)
    ensures ParseTimestamp(DbAfter(cfg, s, step), StopAt(r)) ==
            if step.RequestStop? && step.run == r then Some(step.now) else ParseTimestamp(s.db, StopAt(r))
  {
    if r in s.db.runs {
      RowStep(cfg, s, step, r);
    }
    if Subject(step) != Some(r) {
      OtherRunsSettings(cfg, s, step, r);
    } else if !step.Start? {
      OwnSettings(cfg, s, step, r);
    } else {
      assert StopAt(r) != Lease(r);
    }
  }

  // However runs, clean-ups and requests for other runs interleave, a run that
  // is still RUNNING carries the time of its own latest stop request.
  lemma {:induction false} StopTimeSurvives(cfg: Config, s: State, steps: seq<Step>, r: RunId)
    requires Idle(s) && Exec(cfg, s, steps).Some?
    ensures var after := Exec(cfg, s, steps).value.db;
            && (LastRequest(steps, r).Some? ==> r in after.runs)
            && (!IsTerminal(after, r) ==>
                  ParseTimestamp(after, StopAt(r)) ==
                  if LastRequest(steps, r).Some? then LastRequest(steps, r) else ParseTimestamp(s.db, StopAt(r)))
  {
    if steps != [] {
      var init, last := steps[..|steps| - 1], steps[|steps| - 1];
      var mid := Exec(cfg, s, init).value;
      StopTimeSurvives(cfg, s, init, r);
      InvAlways(cfg, s, init);
      if r in mid.db.runs {
        RowStep(cfg, mid, last, r);
      }
      if !IsTerminal(DbAfter(cfg, mid, last), r) {
        StopTimeStep(cfg, mid, last, r);
      }
    }
  }

  // Any grace sweep later than the run's latest request plus the grace leaves
  // it terminal, for good, whatever happened to the shared marker meanwhile.
  lemma {:induction false} StopIsNeverLost(cfg: Config, s: State, before: seq<Step>, now: Time, clock: Time,
                                           after: seq<Step>, r: RunId)
    requires Idle(s) && Exec(cfg, s, before + [GraceSweep(now, clock)] + after).Some?
    requires LastRequest(before, r).Some? && now - LastRequest(before, r).value > cfg.grace * SECOND
    ensures IsTerminal(Exec(cfg, s, before + [GraceSweep(now, clock)] + after).value.db, r)
  {
    var swept := before + [GraceSweep(now, clock)];
    ExecConcat(cfg, s, swept, after);
    ExecSnoc(cfg, s, before, GraceSweep(now, clock));
    StopTimeSurvives(cfg, s, before, r);
    TerminalRowsFrozen(cfg, Exec(cfg, s, swept).value, after, r);
  }

  // The sweep finishes nothing else: it ends exactly the runs whose latest
  // request is older than the grace.
  lemma {:induction false} GraceSweepEndsExactly(cfg: Config, s: State, steps: seq<Step>, now: Time, clock: Time,
                                                 r: RunId)
    requires Idle(s) && Exec(cfg, s, steps).Some? && ParseTimestamp(s.db, StopAt(r)).None?
    requires IsRunning(Exec(cfg, s, steps).value.db, r)
    ensures var swept := GraceSwept(Exec(cfg, s, steps).value.db, now, cfg.grace, clock);
            && (IsTerminal(swept, r) <==>
                LastRequest(steps, r).Some? && now - LastRequest(steps, r).value > cfg.grace * SECOND)
            && (IsTerminal(swept, r) ==> swept.runs[r].status == Stopped && swept.runs[r].note == Some(GraceExpired))
  {
    StopTimeSurvives(cfg, s, steps, r);
  }

  // --- leases ------------------------------------------------------------------------------------

  lemma OwnLeaseStep(cfg: Config, s: State, step: Step, r: RunId)
    requires Inv(cfg, s) && Enabled(cfg, s, step) && IsRunning(s.db, r) && IsRunning(DbAfter(cfg, s, step), r)
    requires !(step.BeatCommit? && step.run == r)
    ensures ParseTimestamp(DbAfter(cfg, s, step), Lease(r)) == ParseTimestamp(s.db, Lease(r))
  {
    if Subject(step) != Some(r) {
      OtherRunsSettings(cfg, s, step, r);
    } else {
      OwnSettings(cfg, s, step, r);
    }
  }

  lemma LeaseStep(cfg: Config, s: State, step: Step, r: RunId)
    requires Inv(cfg, s) && Enabled(cfg, s, step)
    requires IsRunning(DbAfter(cfg, s, step), r) && r in s.db.runs
    ensures IsRunning(s.db, r)
    ensures LastSeen(DbAfter(cfg, s, step), r) ==
            if step.BeatCommit? && step.run == r then step.now else LastSeen(s.db, r)
  {
    RowStep(cfg, s, step, r);
    if !(step.BeatCommit? && step.run == r) {
      OwnLeaseStep(cfg, s, step, r);
    }
  }

  // A RUNNING run is judged by its latest lease write, or, for a row left over
  // from an earlier process, by what that row said before.
  lemma {:induction false} LastSeenIsLastBeat(cfg: Config, s: State, steps: seq<Step>, r: RunId)
    requires Idle(s) && Exec(cfg, s, steps).Some? && IsRunning(Exec(cfg, s, steps).value.db, r)
    ensures LastBeat(steps, r).None? ==> r in s.db.runs
    ensures LastSeen(Exec(cfg, s, steps).value.db, r) ==
            if LastBeat(steps, r).Some? then LastBeat(steps, r).value else LastSeen(s.db, r)
  {
    if steps != [] {
      var init, last := steps[..|steps| - 1], steps[|steps| - 1];
      var mid := Exec(cfg, s, init).value;
      InvAlways(cfg, s, init);
      if r in mid.db.runs {
        LeaseStep(cfg, mid, last, r);
        LastSeenIsLastBeat(cfg, s, init, r);
      } else {
        NewRowStep(cfg, mid, last, r);
      }
    }
  }

  lemma {:induction false} ReconcileFinalizesExactly(cfg: Config, s: State, steps: seq<Step>, now: Time, clock: Time,
                                                     r: RunId)
    requires Idle(s) && Exec(cfg, s, steps).Some? && IsRunning(Exec(cfg, s, steps).value.db, r)
    ensures LastBeat(steps, r).None? ==> r in s.db.runs
    ensures var seen := if LastBeat(steps, r).Some? then LastBeat(steps, r).value else LastSeen(s.db, r);
            var swept := Reconciled(Exec(cfg, s, steps).value.db, now, cfg.staleAfter, clock);
            && (IsTerminal(swept, r) <==> now - seen > cfg.staleAfter * SECOND)
            && (IsTerminal(swept, r) ==>
                  swept.runs[r].status == Failed && swept.runs[r].note == Some(Interrupted(seen)))
  {
    LastSeenIsLastBeat(cfg, s, steps, r);
  }

  // A RUNNING row whose lease is missing or unreadable is judged by its start.
  lemma UnleasedRunIsJudgedByItsStart(db: Db, r: RunId, now: Time, staleAfter: int, clock: Time)
    requires IsRunning(db, r) && !(Lease(r) in db.settings && db.settings[Lease(r)].Stamp?)
    ensures var swept := Reconciled(db, now, staleAfter, clock);
            && r in swept.runs
            && (IsTerminal(swept, r) <==> now - db.runs[r].startedAt > staleAfter * SECOND)
            && (IsTerminal(swept, r) ==>
                  EndedAs(db.runs[r], swept.runs[r], Failed, ZERO, Some(Interrupted(db.runs[r].startedAt)), clock))
  {
  }

  // How many scheduled heartbeats after the last written one lie strictly
  // before `now`.
  function MissedBeats(lastBeat: Time, now: Time): int {
    (now - lastBeat + HEARTBEAT_INTERVAL * SECOND - 1) / (HEARTBEAT_INTERVAL * SECOND) - 1
  }

  ghost predicate BeatsInTime(steps: seq<Step>, r: RunId, missed: int) {
    forall i :: 0 <= i < |steps| && steps[i].Reconcile? && LastBeat(steps[..i], r).Some? ==>
      MissedBeats(LastBeat(steps[..i], r).value, steps[i].now) <= missed
  }

  lemma MissedBeatsBound(lastBeat: Time, now: Time, missed: int)
    ensures MissedBeats(lastBeat, now) <= missed <==>
            now - lastBeat <= (missed + 1) * HEARTBEAT_INTERVAL * SECOND
  {
  }

  // A run whose heartbeat never misses more than `missed` beats in a row is
  // never finalized by reconciliation when the threshold covers that many; with
  // the default threshold of 120 seconds that is 7.
  lemma {:induction false} RenewedRunIsNeverInterrupted(cfg: Config, s: State, steps: seq<Step>, r: RunId, missed: nat)
    requires Idle(s) && r !in s.db.runs && Exec(cfg, s, steps).Some?
    requires (missed + 1) * HEARTBEAT_INTERVAL <= cfg.staleAfter
    requires BeatsInTime(steps, r, missed)
    ensures var after := Exec(cfg, s, steps).value.db;
            r in after.runs && after.runs[r].note.Some? ==> !after.runs[r].note.value.Interrupted?
  {
    if steps != [] {
      var init, last := steps[..|steps| - 1], steps[|steps| - 1];
      var mid := Exec(cfg, s, init).value;
      assert forall i :: 0 <= i < |init| ==> init[..i] == steps[..i] && init[i] == steps[i];
      RenewedRunIsNeverInterrupted(cfg, s, init, r, missed);
      InvAlways(cfg, s, init);
      if IsTerminal(mid.db, r) {
        RowStep(cfg, mid, last, r);
      } else if last.Reconcile? && IsRunning(mid.db, r) {
        LastSeenIsLastBeat(cfg, s, init, r);
        MissedBeatsBound(LastBeat(init, r).value, last.now, missed);
        assert IsLive(mid.db, r, last.now, cfg.staleAfter);
      } else if r in mid.db.runs {
        RowStep(cfg, mid, last, r);
      }
    }
  }

  // At the default threshold a reconcile ends a RUNNING run exactly when it has
  // missed eight beats since its last written lease: seven are tolerated.
  lemma {:induction false} SevenMissedBeatsAreTolerated(cfg: Config, s: State, steps: seq<Step>, now: Time, clock: Time,
                                                        r: RunId)
    requires Idle(s) && Exec(cfg, s, steps).Some? && IsRunning(Exec(cfg, s, steps).value.db, r)
    requires cfg.staleAfter == 120 && LastBeat(steps, r).Some?
    ensures IsTerminal(Reconciled(Exec(cfg, s, steps).value.db, now, cfg.staleAfter, clock), r) <==>
            MissedBeats(LastBeat(steps, r).value, now) > 7
  {
    ReconcileFinalizesExactly(cfg, s, steps, now, clock, r);
    MissedBeatsBound(LastBeat(steps, r).value, now, 7);
  }

  // --- job batches after the end of a run ----------------------------------------------------

  // The branches that passed the row check of the gate before the job write.
  function PastRowCheck(s: State, r: RunId): set<nat> {
    if r in s.threads
    then set b | b in s.threads[r].branches && s.threads[r].branches[b] in {MarkerGate(Write), Working(Write)}
    else {}
  }

  function Batches(s: State, r: RunId): nat {
    if r in s.batches then s.batches[r] else 0
  }

  lemma OtherRunsStep(cfg: Config, s: State, step: Step, r: RunId)
    requires Enabled(cfg, s, step) && Subject(step) != Some(r)
    ensures var s' := Next(cfg, s, step).value;
            && (r in s'.threads <==> r in s.threads)
            && (r in s.threads ==> s'.threads[r] == s.threads[r])
            && Batches(s', r) == Batches(s, r)
  {
  }

  lemma LateBranchStep(s: State, r: RunId, step: Step)
    requires r in s.threads && IsTerminal(s.db, r)
    ensures var t' := ThreadAfter(s, r, s.threads[r], step);
            forall b :: b in t'.branches && t'.branches[b] in {MarkerGate(Write), Working(Write)} ==>
              b in PastRowCheck(s, r) && !(step.CommitBatch? && step.branch == b)
  {
    var branches := s.threads[r].branches;
    assert forall b :: b in branches && branches[b] in {MarkerGate(Write), Working(Write)} ==> b in PastRowCheck(s, r);
  }

  lemma LateBatchStep(cfg: Config, s: State, step: Step, r: RunId)
    requires Enabled(cfg, s, step) && IsTerminal(s.db, r)
    ensures var s' := Next(cfg, s, step).value;
            && PastRowCheck(s', r) <= PastRowCheck(s, r)
            && Batches(s, r) <= Batches(s', r)
            && Batches(s', r) + |PastRowCheck(s', r)| <= Batches(s, r) + |PastRowCheck(s, r)|
            && (step.CommitBatch? && step.run == r ==> step.branch in PastRowCheck(s, r))
  {
    var s' := Next(cfg, s, step).value;
    var past, past' := PastRowCheck(s, r), PastRowCheck(s', r);
    if Subject(step) != Some(r) {
      OtherRunsStep(cfg, s, step, r);
    } else if step.Crash? {
      assert past' == {};
    } else {
      LateBranchStep(s, r, step);
      if step.CommitBatch? {
        assert past' <= past - {step.branch};
        SubsetSize(past', past - {step.branch});
      } else {
        assert past' <= past;
        SubsetSize(past', past);
      }
    }
  }

  predicate IsCommitOf(step: Step, r: RunId) {
    step.CommitBatch? && step.run == r
  }

  function Commits(steps: seq<Step>, r: RunId): nat {
    if steps == [] then 0
    else Commits(steps[..|steps| - 1], r) + if IsCommitOf(steps[|steps| - 1], r) then 1 else 0
  }

  // The batches of a run are its commits.
  lemma {:induction false} BatchesAreCommits(cfg: Config, s: State, steps: seq<Step>, r: RunId)
    requires Exec(cfg, s, steps).Some? && r in s.db.runs
    ensures r in Exec(cfg, s, steps).value.db.runs
    ensures Batches(Exec(cfg, s, steps).value, r) == Batches(s, r) + Commits(steps, r)
  {
    if steps != [] {
      var init, last := steps[..|steps| - 1], steps[|steps| - 1];
      BatchesAreCommits(cfg, s, init, r);
      var mid := Exec(cfg, s, init).value;
      RowStep(cfg, mid, last, r);
      if Subject(last) != Some(r) {
        OtherRunsStep(cfg, mid, last, r);
      }
    }
  }

  lemma SubsetSize(a: set<nat>, b: set<nat>)
    requires a <= b
    ensures |a| <= |b|
  {
    assert b == a + (b - a);
  }

  lemma PastRowCheckFitsThePool(cfg: Config, s: State, r: RunId)
    requires Inv(cfg, s)
    ensures |PastRowCheck(s, r)| <= cfg.concurrency
  {
    if r in s.threads {
      assert ThreadOk(cfg, s, r);
      SubsetSize(PastRowCheck(s, r), s.threads[r].branches.Keys);
      assert |s.threads[r].branches.Keys| == |s.threads[r].branches|;
    }
  }

  // Against the branches past their row check and the batches of an earlier state.
  predicate OnlyLateOnes(past: set<nat>, batches: nat, s: State, r: RunId) {
    && PastRowCheck(s, r) <= past
    && batches <= Batches(s, r)
    && Batches(s, r) + |PastRowCheck(s, r)| <= batches + |past|
  }

  lemma {:induction false} LateBatches(cfg: Config, s: State, steps: seq<Step>, r: RunId)
    requires Exec(cfg, s, steps).Some? && IsTerminal(s.db, r)
    ensures OnlyLateOnes(PastRowCheck(s, r), Batches(s, r), Exec(cfg, s, steps).value, r)
  {
    if steps != [] {
      var init, last := steps[..|steps| - 1], steps[|steps| - 1];
      LateBatches(cfg, s, init, r);
      TerminalRowsFrozen(cfg, s, init, r);
      LateBatchStep(cfg, Exec(cfg, s, init).value, last, r);
    }
  }

  lemma {:induction false} LateCommits(cfg: Config, s: State, steps: seq<Step>, r: RunId, i: nat)
    requires Exec(cfg, s, steps).Some? && IsTerminal(s.db, r)
    requires i < |steps| && steps[i].CommitBatch? && steps[i].run == r
    ensures steps[i].branch in PastRowCheck(s, r)
  {
    var init, last := steps[..|steps| - 1], steps[|steps| - 1];
    if i < |init| {
      LateCommits(cfg, s, init, r, i);
    } else {
      LateBatches(cfg, s, init, r);
      TerminalRowsFrozen(cfg, s, init, r);
      LateBatchStep(cfg, Exec(cfg, s, init).value, last, r);
    }
  }

  // From the moment a run is terminal, every batch still committed for it comes
  // from a branch that had passed the row check of its last gate by then, each
  // such branch at most once, and there are never more of them than the pool is wide.
  lemma {:induction false} LateBatchesAreBounded(cfg: Config, s: State, steps: seq<Step>, r: RunId)
    requires Inv(cfg, s) && Exec(cfg, s, steps).Some? && IsTerminal(s.db, r)
    ensures var after := Exec(cfg, s, steps).value;
            && PastRowCheck(after, r) <= PastRowCheck(s, r)
            && Batches(s, r) <= Batches(after, r)
            && Batches(after, r) + |PastRowCheck(after, r)| <= Batches(s, r) + |PastRowCheck(s, r)|
            && |PastRowCheck(s, r)| <= cfg.concurrency
    ensures forall i :: 0 <= i < |steps| && steps[i].CommitBatch? && steps[i].run == r ==>
              steps[i].branch in PastRowCheck(s, r)
  {
    LateBatches(cfg, s, steps, r);
    PastRowCheckFitsThePool(cfg, s, r);
    forall i | 0 <= i < |steps| && steps[i].CommitBatch? && steps[i].run == r
      ensures steps[i].branch in PastRowCheck(s, r)
    {
      LateCommits(cfg, s, steps, r, i);
    }
  }

  // --- no run is stopped that nobody asked to stop -----------------------------------------------

  ghost predicate StopsOnlyIfAsked(s: State, r: RunId, asked: bool) {
    r in s.threads && (s.threads[r].stopSeen || s.threads[r].main == Stopping) ==> asked || IsTerminal(s.db, r)
  }

  ghost predicate OnlyIfAsked(s: State, r: RunId, asked: bool) {
    && (MarkerNames(s.db, r) ==> asked)
    && (StopAt(r) in s.db.settings ==> asked)
    && (r in s.db.runs && s.db.runs[r].status == Stopped ==> asked)
    && StopsOnlyIfAsked(s, r, asked)
  }

  lemma AskedDbStep(cfg: Config, s: State, step: Step, r: RunId, asked: bool)
    requires Enabled(cfg, s, step) && Inv(cfg, s) && OnlyIfAsked(s, r, asked)
    requires (step.RequestStop? || step.StopStale?) && step.run == r ==> asked
    ensures var after := DbAfter(cfg, s, step);
            && (MarkerNames(after, r) ==> asked)
            && (StopAt(r) in after.settings ==> asked)
            && (r in after.runs && after.runs[r].status == Stopped ==> asked)
  {
    if step.StopExit? && step.run == r {
      assert s.threads[r].main == Stopping;
    }
  }

  lemma AskedThreadStep(cfg: Config, s: State, step: Step, r: RunId, asked: bool)
    requires Enabled(cfg, s, step) && Subject(step) == Some(r)
    requires r in s.threads && OnlyIfAsked(s, r, asked) && r in s.db.runs
    ensures var t' := ThreadAfter(s, r, s.threads[r], step);
            t'.stopSeen || t'.main == Stopping ==> asked || IsTerminal(s.db, r)
  {
  }

  lemma AskedThread(cfg: Config, s: State, step: Step, r: RunId, asked: bool)
    requires Enabled(cfg, s, step) && Inv(cfg, s) && OnlyIfAsked(s, r, asked)
    ensures StopsOnlyIfAsked(Next(cfg, s, step).value, r, asked)
  {
    if r in s.threads {
      RowStep(cfg, s, step, r);
      if Subject(step) == Some(r) {
        AskedThreadStep(cfg, s, step, r, asked);
      } else {
        OtherRunsStep(cfg, s, step, r);
      }
    }
  }

  lemma AskedStep(cfg: Config, s: State, step: Step, r: RunId, asked: bool)
    requires Enabled(cfg, s, step) && Inv(cfg, s) && OnlyIfAsked(s, r, asked)
    requires (step.RequestStop? || step.StopStale?) && step.run == r ==> asked
    ensures OnlyIfAsked(Next(cfg, s, step).value, r, asked)
  {
    AskedDbStep(cfg, s, step, r, asked);
    AskedThread(cfg, s, step, r, asked);
  }

  lemma {:induction false} OnlyAskedRunsAreStopped(cfg: Config, s: State, steps: seq<Step>, r: RunId)
    requires Idle(s) && Exec(cfg, s, steps).Some? && OnlyIfAsked(s, r, false)
    ensures OnlyIfAsked(Exec(cfg, s, steps).value, r, Asked(steps, r))
  {
    if steps != [] {
      var init, last := steps[..|steps| - 1], steps[|steps| - 1];
      OnlyAskedRunsAreStopped(cfg, s, init, r);
      InvAlways(cfg, s, init);
      AskedStep(cfg, Exec(cfg, s, init).value, last, r, Asked(steps, r));
    }
  }

  // For a run started in the schedule under a fresh id: it ends STOPPED only if
  // a stop call named that very run.
  lemma {:induction false} StoppedMeansAsked(cfg: Config, s: State, steps: seq<Step>, r: RunId)
    requires Idle(s) && Exec(cfg, s, steps).Some?
    requires r !in s.db.runs && StopAt(r) !in s.db.settings && !MarkerNames(s.db, r)
    ensures var after := Exec(cfg, s, steps).value.db;
            r in after.runs && after.runs[r].status == Stopped ==> Asked(steps, r)
  {
    OnlyAskedRunsAreStopped(cfg, s, steps, r);
  }

  // --- when a stop request is honoured by the run's own thread ------------------------------------

  // Steps on behalf of another run that delete or overwrite the shared marker.
  predicate DisturbsMarker(step: Step, r: RunId) {
    (step.RequestStop? || step.StopStale? || step.StopExit? || step.Cleanup?) && step.run != r
  }

  predicate PastLastGate(s: State, r: RunId) {
    At(s, r, MarkerChecked) || At(s, r, Finalized)
  }

  // Either the run is still on its way to the stop, or it ended otherwise than
  // through finalize_run.
  ghost predicate StopPending(s: State, r: RunId) {
    && r in s.db.runs
    && (IsRunning(s.db, r) ==> MarkerNames(s.db, r) && !PastLastGate(s, r))
    && (IsTerminal(s.db, r) ==>
          && s.db.runs[r].status in {Stopped, Failed}
          && s.db.runs[r].note.Some? && !s.db.runs[r].note.value.Summary?)
  }

  lemma StopPendingDbStep(cfg: Config, s: State, step: Step, r: RunId)
    requires Inv(cfg, s) && Enabled(cfg, s, step) && StopPending(s, r) && !DisturbsMarker(step, r)
    ensures var after := DbAfter(cfg, s, step);
            && r in after.runs
            && (IsRunning(after, r) ==> MarkerNames(after, r))
            && (IsRunning(s.db, r) && IsTerminal(after, r) ==>
                  && after.runs[r].status in {Stopped, Failed}
                  && after.runs[r].note.Some? && !after.runs[r].note.value.Summary?)
  {
    RowStep(cfg, s, step, r);
    if step.Finalize? && step.run == r {
      assert PastLastGate(s, r);
    }
  }

  lemma StopPendingThreadStep(s: State, step: Step, r: RunId)
    requires r in s.threads && MarkerNames(s.db, r) && !PastLastGate(s, r)
    ensures ThreadAfter(s, r, s.threads[r], step).main in {MarkerChecked, Finalized} ==> step.Finalize?
  {
  }

  lemma StopPendingStep(cfg: Config, s: State, step: Step, r: RunId)
    requires Inv(cfg, s) && Enabled(cfg, s, step) && StopPending(s, r) && !DisturbsMarker(step, r)
    ensures StopPending(Next(cfg, s, step).value, r)
  {
    var s' := Next(cfg, s, step).value;
    RowStep(cfg, s, step, r);
    StopPendingDbStep(cfg, s, step, r);
    if IsRunning(s'.db, r) && r in s'.threads {
      assert r in s.threads || step.Start?;
      if Subject(step) == Some(r) {
        StopPendingThreadStep(s, step, r);
      } else {
        OtherRunsStep(cfg, s, step, r);
      }
    }
  }

  // While no other run's exit, clean-up or stop call touches the marker, a run
  // that was asked to stop before its last gate can no longer report success.
  lemma {:induction false} UndisturbedStopIsHonoured(cfg: Config, s: State, steps: seq<Step>, r: RunId)
    requires Inv(cfg, s) && Exec(cfg, s, steps).Some? && StopPending(s, r)
    requires forall i :: 0 <= i < |steps| ==> !DisturbsMarker(steps[i], r)
    ensures StopPending(Exec(cfg, s, steps).value, r)
  {
    if steps != [] {
      var init, last := steps[..|steps| - 1], steps[|steps| - 1];
      UndisturbedStopIsHonoured(cfg, s, init, r);
      InvAlways(cfg, s, init);
      StopPendingStep(cfg, Exec(cfg, s, init).value, last, r);
    }
  }

  // A step costs a RUNNING run its stop marker exactly when it is one of those
  // on behalf of another run.
  lemma MarkerIsHeldExactly(cfg: Config, s: State, step: Step, r: RunId)
    requires Inv(cfg, s) && Enabled(cfg, s, step)
    requires IsRunning(s.db, r) && MarkerNames(s.db, r) && IsRunning(DbAfter(cfg, s, step), r)
    ensures MarkerNames(DbAfter(cfg, s, step), r) <==> !DisturbsMarker(step, r)
  {
    assert r in s.threads ==> ThreadOk(cfg, s, r);
  }

  // At its last gate a run can still be reported SUCCESS exactly when the
  // marker no longer names it.
  lemma {:induction false} LastGateDecides(cfg: Config, s: State, r: RunId, counters: Counters, clock: Time)
    requires At(s, r, RowChecked) && IsRunning(s.db, r)
    ensures var after := Exec(cfg, s, [FinalMarkerCheck(r)] + [Finalize(r, Success, counters, None, clock)]);
            && (after.Some? <==> !MarkerNames(s.db, r))
            && (after.Some? ==> r in after.value.db.runs && after.value.db.runs[r].status == Success)
  {
    var gate, finish := FinalMarkerCheck(r), Finalize(r, Success, counters, None, clock);
    PassLastGate(cfg, s, r);
    assert ([gate] + [finish])[..1] == [gate];
    FinishAfterGate(cfg, Exec(cfg, s, [gate]).value, r, counters, clock);
  }

  lemma {:induction false} PassLastGate(cfg: Config, s: State, r: RunId)
    requires At(s, r, RowChecked)
    ensures var mid := Exec(cfg, s, [FinalMarkerCheck(r)]);
            mid.Some? && mid.value.db == s.db
            && At(mid.value, r, if MarkerNames(s.db, r) then Stopping else MarkerChecked)
  {
    assert [FinalMarkerCheck(r)][..0] == [];
  }

  lemma FinishAfterGate(cfg: Config, s: State, r: RunId, counters: Counters, clock: Time)
    requires IsRunning(s.db, r)
    ensures var after := Next(cfg, s, Finalize(r, Success, counters, None, clock));
            && (after.Some? <==> At(s, r, MarkerChecked))
            && (after.Some? ==> r in after.value.db.runs && after.value.db.runs[r].status == Success)
  {
  }

  // --- what is recorded of a run -----------------------------------------------------------------------

  // The row that a step writes when it ends run r.
  predicate RecordsTheEnd(s: State, step: Step, r: RunId, after: Run)
    requires r in s.db.runs
  {
    var before := s.db.runs[r];
    match step
    case Finalize(_, status, counters, note, clock) => EndedAs(before, after, status, counters, note, clock)
    case StopExit(_, counters, clock) => EndedAs(before, after, Stopped, counters, Some(StoppedByUser), clock)
    case FailExit(_, counters, message, clock) =>
      EndedAs(before, after, Failed, counters, Some(Aborted(message)), clock)
    case StopStale(_, _, clock) => EndedAs(before, after, Stopped, ZERO, Some(StaleStop), clock)
    case Reconcile(_, clock) => EndedAs(before, after, Failed, ZERO, Some(Interrupted(LastSeen(s.db, r))), clock)
    case GraceSweep(_, clock) => EndedAs(before, after, Stopped, ZERO, Some(GraceExpired), clock)
    case _ => false
  }

  lemma EndIsRecorded(cfg: Config, s: State, step: Step, r: RunId)
    requires Enabled(cfg, s, step) && IsRunning(s.db, r)
    ensures r in DbAfter(cfg, s, step).runs
    ensures IsTerminal(DbAfter(cfg, s, step), r) ==> RecordsTheEnd(s, step, r, DbAfter(cfg, s, step).runs[r])
  {
  }

  // finalize_run, the exits and a stop call on a stale run always end the run.
  lemma OwnStepsEndTheRun(cfg: Config, s: State, step: Step, r: RunId)
    requires Enabled(cfg, s, step) && IsRunning(s.db, r)
    ensures (step.Finalize? || step.StopExit? || step.FailExit? || step.StopStale?) && step.run == r ==>
              IsTerminal(DbAfter(cfg, s, step), r)
  {
  }

  // Whatever step ends a run, the row holds what that step recorded, each column
  // of it, after every later schedule.
  lemma {:induction false} EndIsRecordedForGood(cfg: Config, s: State, before: seq<Step>, step: Step, later: seq<Step>,
                                                r: RunId)
    requires Exec(cfg, s, before + [step] + later).Some?
    ensures Exec(cfg, s, before).Some? && Exec(cfg, s, before + [step]).Some?
    ensures var mid, ended := Exec(cfg, s, before).value, Exec(cfg, s, before + [step]).value;
            IsRunning(mid.db, r) && IsTerminal(ended.db, r) ==>
              var end := Exec(cfg, s, before + [step] + later).value;
              r in end.db.runs && RecordsTheEnd(mid, step, r, end.db.runs[r])
  {
    ExecConcat(cfg, s, before + [step], later);
    ExecSnoc(cfg, s, before, step);
    var mid, ended := Exec(cfg, s, before).value, Exec(cfg, s, before + [step]).value;
    if IsRunning(mid.db, r) && IsTerminal(ended.db, r) {
      EndIsRecorded(cfg, mid, step, r);
      TerminalRowsFrozen(cfg, ended, later, r);
    }
  }

  // A new row is that of a run just started or of a recorded skip, which names
  // the run in its way.
  lemma NewRowIsRecorded(cfg: Config, s: State, step: Step, r: RunId)
    requires Enabled(cfg, s, step) && r !in s.db.runs && r in DbAfter(cfg, s, step).runs
    ensures var run := DbAfter(cfg, s, step).runs[r];
            match step
            case Start(_, trigger, startedAt, beatAt, _) =>
              run == Run(trigger, Running, startedAt, None, ZERO, None)
              && ParseTimestamp(DbAfter(cfg, s, step), Lease(r)) == Some(beatAt)
            case Skip(_, trigger, blocking, startedAt, clock) =>
              run == Run(trigger, Skipped, startedAt, Some(clock), ZERO, Some(SkippedFor(blocking)))
              && IsRunning(s.db, blocking)
            case _ => false
  {
  }

  // --- what an ended run leaves behind ---------------------------------------------------------------

  // The settings a run still owns right after the step that ended it: its lease
  // exactly when finalize_run ended it, its stop time exactly when finalize_run,
  // reconciliation or the FAILED exit did and a stop time was there.
  lemma ExitLeftovers(cfg: Config, s: State, step: Step, r: RunId)
    requires Enabled(cfg, s, step) && IsRunning(s.db, r) && IsTerminal(DbAfter(cfg, s, step), r)
    ensures Lease(r) in DbAfter(cfg, s, step).settings <==> Lease(r) in s.db.settings && step.Finalize?
    ensures StopAt(r) in DbAfter(cfg, s, step).settings <==>
            StopAt(r) in s.db.settings && (step.Finalize? || step.Reconcile? || step.FailExit?)
  {
  }

  // Whether the last thing the run's own process did to its lease was to write it.
  predicate LeaseRewritten(steps: seq<Step>, r: RunId) {
    steps != [] &&
    var step := steps[|steps| - 1];
    if step.BeatCommit? && step.run == r then true
    else if (step.StopExit? || step.FailExit? || step.Cleanup?) && step.run == r then false
    else LeaseRewritten(steps[..|steps| - 1], r)
  }

  // An ended run without a lease has one again exactly when, since then, a beat
  // of its own was committed and no exit of its own followed.
  lemma {:induction false} LeaseReturnsExactly(cfg: Config, s: State, steps: seq<Step>, r: RunId)
    requires IsTerminal(s.db, r) && Lease(r) !in s.db.settings && Exec(cfg, s, steps).Some?
    ensures Lease(r) in Exec(cfg, s, steps).value.db.settings <==> LeaseRewritten(steps, r)
  {
    if steps != [] {
      var init, last := steps[..|steps| - 1], steps[|steps| - 1];
      LeaseReturnsExactly(cfg, s, init, r);
      TerminalRowsFrozen(cfg, s, init, r);
      EndedSettingsStep(cfg, Exec(cfg, s, init).value, last, r);
    }
  }

  lemma EndedSettingsStep(cfg: Config, s: State, step: Step, r: RunId)
    requires Enabled(cfg, s, step) && IsTerminal(s.db, r)
    ensures Lease(r) in DbAfter(cfg, s, step).settings <==>
            || (step.BeatCommit? && step.run == r)
            || (Lease(r) in s.db.settings && !((step.StopExit? || step.FailExit? || step.Cleanup?) && step.run == r))
    ensures StopAt(r) in DbAfter(cfg, s, step).settings <==>
            StopAt(r) in s.db.settings && !((step.StopExit? || step.Cleanup?) && step.run == r)
  {
  }

  // The request time of an ended run is never set again; it goes exactly with a
  // stopped exit or the clean-up of that run.
  lemma {:induction false} StopTimeStaysExactly(cfg: Config, s: State, steps: seq<Step>, r: RunId)
    requires IsTerminal(s.db, r) && Exec(cfg, s, steps).Some?
    ensures StopAt(r) in Exec(cfg, s, steps).value.db.settings <==>
            && StopAt(r) in s.db.settings
            && forall i :: 0 <= i < |steps| ==> !((steps[i].StopExit? || steps[i].Cleanup?) && steps[i].run == r)
  {
    if steps != [] {
      var init, last := steps[..|steps| - 1], steps[|steps| - 1];
      StopTimeStaysExactly(cfg, s, init, r);
      TerminalRowsFrozen(cfg, s, init, r);
      EndedSettingsStep(cfg, Exec(cfg, s, init).value, last, r);
      assert forall i :: 0 <= i < |init| ==> init[i] == steps[i];
      assert steps[|init|] == last;
    }
  }

  // A beat of the run is under way, or can still be begun: the heartbeat waits
  // and was not told to stop, or the thread has yet to start it.
  predicate BeatMayFollow(s: State, r: RunId) {
    r in s.threads &&
    var t := s.threads[r];
    || t.heartbeat == Beating
    || (t.heartbeat == Waiting && t.main != Gone)
    || t.main == Starting
  }

  lemma OwnStepsStartNoBeat(cfg: Config, s: State, step: Step, r: RunId)
    requires Enabled(cfg, s, step) && r in s.threads && Subject(step) == Some(r) && !BeatMayFollow(s, r)
    ensures !step.BeatCommit?
    ensures var t := ThreadAfter(s, r, s.threads[r], step);
            t.heartbeat != Beating && t.main != Starting && (t.heartbeat == Waiting ==> t.main == Gone)
  {
  }

  lemma BeatMayFollowStep(cfg: Config, s: State, step: Step, r: RunId)
    requires Enabled(cfg, s, step) && IsTerminal(s.db, r) && !BeatMayFollow(s, r)
    ensures !BeatMayFollow(Next(cfg, s, step).value, r) && !(step.BeatCommit? && step.run == r)
  {
    if r in s.threads {
      if Subject(step) == Some(r) {
        OwnStepsStartNoBeat(cfg, s, step, r);
      } else {
        OtherRunsStep(cfg, s, step, r);
      }
    }
  }

  lemma {:induction false} NoBeatFollows(cfg: Config, s: State, steps: seq<Step>, r: RunId)
    requires IsTerminal(s.db, r) && !BeatMayFollow(s, r) && Exec(cfg, s, steps).Some?
    ensures !BeatMayFollow(Exec(cfg, s, steps).value, r) && !LeaseRewritten(steps, r)
  {
    if steps != [] {
      var init := steps[..|steps| - 1];
      NoBeatFollows(cfg, s, init, r);
      TerminalRowsFrozen(cfg, s, init, r);
      BeatMayFollowStep(cfg, Exec(cfg, s, init).value, steps[|steps| - 1], r);
    }
  }

  lemma {:induction false} ExecCons(cfg: Config, s: State, step: Step, rest: seq<Step>)
    requires Enabled(cfg, s, step)
    ensures Exec(cfg, s, [step] + rest) == Exec(cfg, Next(cfg, s, step).value, rest)
  {
    assert [] + [step] == [step];
    ExecSnoc(cfg, s, [], step);
    ExecConcat(cfg, s, [step], rest);
  }

  lemma {:induction false} BeatEnds(cfg: Config, s: State, r: RunId)
    requires r in s.threads && s.threads[r].heartbeat == Beating
    ensures Exec(cfg, s, [BeatCommit(r, 0)]).Some?
  {
    assert [BeatCommit(r, 0)] + [] == [BeatCommit(r, 0)];
    ExecCons(cfg, s, BeatCommit(r, 0), []);
  }

  lemma {:induction false} BeatBegins(cfg: Config, s: State, r: RunId)
    requires r in s.threads && s.threads[r].heartbeat == Waiting && s.threads[r].main != Gone
    ensures Exec(cfg, s, [BeatBegin(r)] + [BeatCommit(r, 0)]).Some?
  {
    ExecCons(cfg, s, BeatBegin(r), [BeatCommit(r, 0)]);
    BeatEnds(cfg, Next(cfg, s, BeatBegin(r)).value, r);
  }

  // One beat, from whatever stage it may follow.
  lemma BeatFollows(cfg: Config, s: State, r: RunId) returns (steps: seq<Step>)
    requires BeatMayFollow(s, r)
    ensures Exec(cfg, s, steps).Some? && LeaseRewritten(steps, r)
  {
    if s.threads[r].heartbeat == Beating {
      steps := [BeatCommit(r, 0)];
      BeatEnds(cfg, s, r);
    } else {
      var beat := [BeatBegin(r)] + [BeatCommit(r, 0)];
      if s.threads[r].heartbeat == Waiting && s.threads[r].main != Gone {
        steps := beat;
        BeatBegins(cfg, s, r);
      } else {
        steps := [EnterGraph(r)] + beat;
        ExecCons(cfg, s, EnterGraph(r), beat);
        BeatBegins(cfg, Next(cfg, s, EnterGraph(r)).value, r);
      }
    }
    assert steps[|steps| - 1] == BeatCommit(r, 0);
  }

  // The lease of an ended run can come back exactly while a beat may follow.
  lemma LeaseCanReturnExactly(cfg: Config, s: State, r: RunId)
    requires IsTerminal(s.db, r) && Lease(r) !in s.db.settings
    ensures (exists steps :: Exec(cfg, s, steps).Some? && Lease(r) in Exec(cfg, s, steps).value.db.settings) <==>
            BeatMayFollow(s, r)
  {
    if BeatMayFollow(s, r) {
      var steps := BeatFollows(cfg, s, r);
      LeaseReturnsExactly(cfg, s, steps, r);
    } else {
      forall steps | Exec(cfg, s, steps).Some?
        ensures Lease(r) !in Exec(cfg, s, steps).value.db.settings
      {
        NoBeatFollows(cfg, s, steps, r);
        LeaseReturnsExactly(cfg, s, steps, r);
      }
    }
  }

  // --- overlapping runs --------------------------------------------------------------------------------

  ghost predicate AtMostOneRunning(db: Db) {
    forall a, b :: IsRunning(db, a) && IsRunning(db, b) ==> a == b
  }

  // Only a start can break the guard's promise: it does so exactly when it finds
  // another RUNNING row.
  lemma SingleRunIsKeptExactly(cfg: Config, s: State, step: Step)
    requires Enabled(cfg, s, step) && AtMostOneRunning(s.db)
    ensures AtMostOneRunning(DbAfter(cfg, s, step)) <==>
            !(step.Start? && exists r :: IsRunning(s.db, r))
  {
    var after := DbAfter(cfg, s, step);
    if step.Start? {
      assert IsRunning(after, step.run);
      assert forall r :: r != step.run ==> (IsRunning(after, r) <==> IsRunning(s.db, r));
    } else {
      forall r | IsRunning(after, r)
        ensures IsRunning(s.db, r)
      {
        if r in s.db.runs {
          RowStep(cfg, s, step, r);
        }
      }
    }
  }

  predicate StartsRun(steps: seq<Step>, q: RunId) {
    exists i :: 0 <= i < |steps| && steps[i].Start? && steps[i].run == q
  }

  // What is RUNNING after a schedule was RUNNING before or was started in it.
  lemma {:induction false} RunningWasStarted(cfg: Config, s: State, steps: seq<Step>, q: RunId)
    requires Exec(cfg, s, steps).Some? && IsRunning(Exec(cfg, s, steps).value.db, q)
    ensures IsRunning(s.db, q) || StartsRun(steps, q)
  {
    if steps != [] {
      var init, last := steps[..|steps| - 1], steps[|steps| - 1];
      var mid := Exec(cfg, s, init).value;
      if q in mid.db.runs {
        RowStep(cfg, mid, last, q);
        RunningWasStarted(cfg, s, init, q);
        if StartsRun(init, q) {
          var i :| 0 <= i < |init| && init[i].Start? && init[i].run == q;
          assert steps[i] == init[i];
        }
      } else {
        NewRowStep(cfg, mid, last, q);
        assert steps[|steps| - 1].Start?;
      }
    }
  }

  // Guard and start are separate commits. A guarded start leaves one RUNNING row
  // exactly when every run started between the two is over by then.
  lemma {:induction false} GuardedStartKeepsOneRunning(cfg: Config, s: State, between: seq<Step>, start: Step)
    requires start.Start? && Enabled(cfg, s, Guard(start.run))
    requires Exec(cfg, s, between).Some? && Enabled(cfg, Exec(cfg, s, between).value, start)
    ensures var mid := Exec(cfg, s, between).value;
            AtMostOneRunning(DbAfter(cfg, mid, start)) <==>
            forall q :: StartsRun(between, q) ==> !IsRunning(mid.db, q)
  {
    var mid := Exec(cfg, s, between).value;
    var after := DbAfter(cfg, mid, start);
    assert forall q :: q != start.run ==> (IsRunning(after, q) <==> IsRunning(mid.db, q));
    assert IsRunning(after, start.run) && !IsRunning(mid.db, start.run);
    forall q | IsRunning(mid.db, q)
      ensures StartsRun(between, q)
    {
      RunningWasStarted(cfg, s, between, q);
    }
  }

  // Every start is that of an admitted trigger, and no other start commits
  // between its guard and itself.
  ghost predicate StartsAreGuarded(steps: seq<Step>) {
    forall j :: 0 <= j < |steps| && steps[j].Start? ==>
      exists i :: 0 <= i < j && steps[i] == Guard(steps[j].run) && NoStartBetween(steps, i, j)
  }

  ghost predicate NoStartBetween(steps: seq<Step>, i: nat, j: nat) {
    forall k :: i < k < j && k < |steps| ==> !steps[k].Start?
  }

  lemma {:induction false} PrefixRuns(cfg: Config, s: State, steps: seq<Step>, n: nat)
    requires Exec(cfg, s, steps).Some? && n <= |steps|
    ensures Exec(cfg, s, steps[..n]).Some?
    decreases |steps|
  {
    if n < |steps| {
      var init := steps[..|steps| - 1];
      PrefixRuns(cfg, s, init, n);
      assert init[..n] == steps[..n];
    } else {
      assert steps[..n] == steps;
    }
  }

  lemma {:induction false} SuffixRuns(cfg: Config, s: State, steps: seq<Step>, n: nat)
    requires Exec(cfg, s, steps).Some? && n <= |steps|
    ensures Exec(cfg, s, steps[..n]).Some?
    ensures Exec(cfg, Exec(cfg, s, steps[..n]).value, steps[n..]) == Exec(cfg, s, steps)
  {
    PrefixRuns(cfg, s, steps, n);
    ExecConcat(cfg, s, steps[..n], steps[n..]);
    assert steps[..n] + steps[n..] == steps;
  }

  lemma {:induction false} StepWasEnabled(cfg: Config, s: State, steps: seq<Step>, n: nat)
    requires Exec(cfg, s, steps).Some? && n < |steps|
    ensures Exec(cfg, s, steps[..n]).Some? && Enabled(cfg, Exec(cfg, s, steps[..n]).value, steps[n])
  {
    PrefixRuns(cfg, s, steps, n);
    PrefixRuns(cfg, s, steps, n + 1);
    assert steps[..n + 1][..n] == steps[..n];
  }

  // With all starts guarded like that there is never more than one RUNNING row.
  lemma {:induction false} GuardedStartsNeverOverlap(cfg: Config, s: State, steps: seq<Step>)
    requires AtMostOneRunning(s.db) && Exec(cfg, s, steps).Some? && StartsAreGuarded(steps)
    ensures AtMostOneRunning(Exec(cfg, s, steps).value.db)
  {
    if steps != [] {
      var n := |steps| - 1;
      var init, last := steps[..n], steps[n];
      assert StartsAreGuarded(init) by {
        forall j | 0 <= j < |init| && init[j].Start?
          ensures exists i :: 0 <= i < j && init[i] == Guard(init[j].run) && NoStartBetween(init, i, j)
        {
          var i :| 0 <= i < j && steps[i] == Guard(steps[j].run) && NoStartBetween(steps, i, j);
          assert init[i] == Guard(init[j].run) && NoStartBetween(init, i, j);
        }
      }
      GuardedStartsNeverOverlap(cfg, s, init);
      var mid := Exec(cfg, s, init).value;
      SingleRunIsKeptExactly(cfg, mid, last);
      if last.Start? {
        var i :| 0 <= i < n && steps[i] == Guard(last.run) && NoStartBetween(steps, i, n);
        NothingRunsAtStart(cfg, s, init, i);
      }
    }
  }

  lemma NothingStarted(steps: seq<Step>, i: nat)
    requires i < |steps| && steps[i].Guard? && NoStartBetween(steps, i, |steps|)
    ensures forall q :: !StartsRun(steps[i..], q)
  {
    forall k | 0 <= k < |steps[i..]|
      ensures !steps[i..][k].Start?
    {
      assert steps[i..][k] == steps[i + k];
    }
  }

  lemma {:induction false} NothingRunsAtStart(cfg: Config, s: State, init: seq<Step>, i: nat)
    requires Exec(cfg, s, init).Some? && i < |init| && init[i].Guard?
    requires NoStartBetween(init, i, |init|)
    ensures forall q :: !IsRunning(Exec(cfg, s, init).value.db, q)
  {
    SuffixRuns(cfg, s, init, i);
    StepWasEnabled(cfg, s, init, i);
    NothingStarted(init, i);
    forall q
      ensures !IsRunning(Exec(cfg, s, init).value.db, q)
    {
      if IsRunning(Exec(cfg, s, init).value.db, q) {
        RunningWasStarted(cfg, Exec(cfg, s, init[..i]).value, init[i..], q);
      }
    }
  }
}
