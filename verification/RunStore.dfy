// The `runs` and `settings` tables and every operation that the run protocol
// performs on them. Each operation is first a function on the value of the two
// tables (`Db`); class `Session` holds the tables as fields and its methods,
// loops included, are proved to compute those functions.
module RunStore {
  import opened Common

  type RunId = nat

  datatype Trigger = Scheduled | Manual | CatchUp

  datatype Status = Running | Success | Partial | Failed | Skipped | Capped | Stopped

  datatype Counters = Counters(
    companies: nat, fetched: nat, afterDedup: nat, afterDeterministic: nat, afterTriage: nat,
    scored: nat, written: nat, tokensIn: nat, tokensOut: nat, costMicros: nat)

  const ZERO := Counters(0, 0, 0, 0, 0, 0, 0, 0, 0, 0)

  // The texts the program writes to `error_summary`.
  datatype Note =
    | Interrupted(lastSeen: Time)
    | StaleStop
    | GraceExpired
    | StoppedByUser
    | Aborted(message: string)
    | SkippedFor(run: RunId)
    | Summary(text: string)

  datatype Run = Run(
    trigger: Trigger, status: Status, startedAt: Time, finishedAt: Option<Time>,
    counters: Counters, note: Option<Note>)

  datatype Key = Lease(run: RunId) | StopAt(run: RunId) | Marker | OtherKey(name: string)

  // A setting holds arbitrary JSON: only some values parse as a timestamp and
  // only some name a run.
  datatype Value = Stamp(at: Time) | RunName(run: RunId) | Raw(text: string)

  datatype Db = Db(runs: map<RunId, Run>, settings: map<Key, Value>)

  // --- rows -------------------------------------------------------------------

  predicate IsRunning(db: Db, r: RunId) {
    r in db.runs && db.runs[r].status == Running
  }

  predicate IsTerminal(db: Db, r: RunId) {
    r in db.runs && db.runs[r].status != Running
  }

  function NewRun(trigger: Trigger, startedAt: Time): Run {
    Run(trigger, Running, startedAt, None, ZERO, None)
  }

  function ApplyFinish(run: Run, status: Status, counters: Counters, note: Option<Note>, clock: Time): Run {
    run.(status := status, counters := counters, finishedAt := Some(clock),
         note := if note.Some? then note else run.note)
  }

  // The columns of a finished row, one by one.
  predicate EndedAs(before: Run, after: Run, status: Status, counters: Counters, note: Option<Note>, clock: Time) {
    && after.status == status
    && after.counters == counters
    && after.finishedAt == Some(clock)
    && after.note == (if note.Some? then note else before.note)
    && after.trigger == before.trigger
    && after.startedAt == before.startedAt
  }

  function FinishedIfRunning(db: Db, r: RunId, status: Status, counters: Counters, note: Option<Note>,
                             clock: Time): Db {
    if IsRunning(db, r)
    then db.(runs := db.runs[r := ApplyFinish(db.runs[r], status, counters, note, clock)])
    else db
  }

  // --- settings -----------------------------------------------------------------

  function ParseTimestamp(db: Db, k: Key): Option<Time> {
    if k in db.settings && db.settings[k].Stamp? then Some(db.settings[k].at) else None
  }

  predicate MarkerNames(db: Db, r: RunId) {
    Marker in db.settings && db.settings[Marker] == RunName(r)
  }

  function Put(db: Db, k: Key, v: Value): Db {
    db.(settings := db.settings[k := v])
  }

  function Drop(db: Db, ks: set<Key>): Db {
    db.(settings := db.settings - ks)
  }

  // Only these settings may differ.
  predicate SameSettingsBut(before: map<Key, Value>, after: map<Key, Value>, ks: set<Key>) {
    && (forall k :: k in before && k !in ks ==> k in after && after[k] == before[k])
    && (forall k :: k in after && k !in ks ==> k in before)
  }

  // Only row r may differ.
  predicate SameRunsBut(before: map<RunId, Run>, after: map<RunId, Run>, r: RunId) {
    && (forall q :: q in before && q != r ==> q in after && after[q] == before[q])
    && (forall q :: q in after && q != r ==> q in before)
  }

  // --- liveness -------------------------------------------------------------------

  function LastSeen(db: Db, r: RunId): Time
    requires r in db.runs
  {
    var lease := ParseTimestamp(db, Lease(r));
    if lease.Some? then lease.value else db.runs[r].startedAt
  }

  // Thresholds are configured in whole seconds.
  predicate IsLive(db: Db, r: RunId, now: Time, staleAfter: int) {
    IsRunning(db, r) && now - LastSeen(db, r) <= staleAfter * SECOND
  }

  predicate IsStale(db: Db, r: RunId, now: Time, staleAfter: int) {
    IsRunning(db, r) && !IsLive(db, r, now, staleAfter)
  }

  predicate IsExpired(db: Db, r: RunId, now: Time, grace: int) {
    var requested := ParseTimestamp(db, StopAt(r));
    IsRunning(db, r) && requested.Some? && now - requested.value > grace * SECOND
  }

  // --- sweeps ---------------------------------------------------------------------

  function FinalizeStale(db: Db, r: RunId, status: Status, note: Note, clock: Time): Db {
    Drop(FinishedIfRunning(db, r, status, ZERO, Some(note), clock), {Lease(r)})
  }

  function StaleRuns(db: Db, now: Time, staleAfter: int): set<RunId> {
    set r | r in db.runs && IsStale(db, r, now, staleAfter)
  }

  function ExpiredRuns(db: Db, now: Time, grace: int): set<RunId> {
    set r | r in db.runs && IsExpired(db, r, now, grace)
  }

  // Every run of `ids` interrupted: its row finished FAILED, its lease deleted.
  function Interrupt(db: Db, ids: set<RunId>, clock: Time): Db {
    Db(map r | r in db.runs :: if r in ids
                               then ApplyFinish(db.runs[r], Failed, ZERO, Some(Interrupted(LastSeen(db, r))), clock)
                               else db.runs[r],
       db.settings - (set r | r in ids :: Lease(r)))
  }

  // Every run of `ids` stopped: its row finished STOPPED, its lease and request
  // time deleted, and the shared marker deleted when it names one of them.
  function StopAll(db: Db, ids: set<RunId>, clock: Time): Db {
    var marker := if Marker in db.settings && db.settings[Marker].RunName? && db.settings[Marker].run in ids
                  then {Marker} else {};
    Db(map r | r in db.runs :: if r in ids
                               then ApplyFinish(db.runs[r], Stopped, ZERO, Some(GraceExpired), clock)
                               else db.runs[r],
       db.settings - (set r | r in ids :: Lease(r)) - (set r | r in ids :: StopAt(r)) - marker)
  }

  function Reconciled(db: Db, now: Time, staleAfter: int, clock: Time): Db {
    Interrupt(db, StaleRuns(db, now, staleAfter), clock)
  }

  function GraceSwept(db: Db, now: Time, grace: int, clock: Time): Db {
    StopAll(db, ExpiredRuns(db, now, grace), clock)
  }

  // --- stop requests ----------------------------------------------------------------

  function StopRequested(db: Db, r: RunId, now: Time): Db {
    Put(Put(db, Marker, RunName(r)), StopAt(r), Stamp(now))
  }

  function StopCleared(db: Db, r: Option<RunId>): Db {
    Drop(db, {Marker} + if r.Some? then {StopAt(r.value)} else {})
  }

  datatype StopReply = NotFound | AlreadyFinished(status: Status) | StaleStopped | Accepted

  function StopCall(db: Db, r: RunId, now: Time, staleAfter: int, clock: Time): (StopReply, Db) {
    if r !in db.runs then (NotFound, db)
    else if !IsRunning(db, r) then (AlreadyFinished(db.runs[r].status), db)
    else if !IsLive(db, r, now, staleAfter) then
      (StaleStopped, StopCleared(FinalizeStale(db, r, Stopped, StaleStop, clock), Some(r)))
    else (Accepted, StopRequested(db, r, now))
  }

  // --- exits of a run's own thread ------------------------------------------------------

  function StoppedExit(db: Db, r: RunId, counters: Counters, clock: Time): Db {
    Drop(StopCleared(FinishedIfRunning(db, r, Stopped, counters, Some(StoppedByUser), clock), Some(r)), {Lease(r)})
  }

  function FailedExit(db: Db, r: RunId, counters: Counters, message: string, clock: Time): Db {
    Drop(FinishedIfRunning(db, r, Failed, counters, Some(Aborted(message)), clock), {Lease(r)})
  }

  function ArtifactsCleared(db: Db, r: RunId): Db {
    StopCleared(Drop(db, {Lease(r)}), Some(r))
  }

  function Started(db: Db, r: RunId, trigger: Trigger, startedAt: Time, beatAt: Time): Db {
    Put(db.(runs := db.runs[r := NewRun(trigger, startedAt)]), Lease(r), Stamp(beatAt))
  }

  function SkipRecorded(db: Db, r: RunId, trigger: Trigger, blocking: RunId, startedAt: Time, clock: Time): Db {
    db.(runs := db.runs[r := ApplyFinish(NewRun(trigger, startedAt), Skipped, ZERO, Some(SkippedFor(blocking)), clock)])
  }

  // --- one row of a sweep -----------------------------------------------------------------

  ghost predicate Enumerates(s: seq<RunId>, ids: set<RunId>) {
    |s| == |ids| && forall r :: r in s <==> r in ids
  }

  lemma Enumerated(s: seq<RunId>, ids: set<RunId>, r: RunId)
    requires Enumerates(s, ids) && r !in ids
    ensures Enumerates(s + [r], ids + {r})
  {
  }

  lemma InterruptNone(db: Db, clock: Time)
    ensures Interrupt(db, {}, clock) == db
  {
    assert Interrupt(db, {}, clock).runs == db.runs;
  }

  // A sweep judges each row by that row's own settings, so finalizing other
  // rows first changes neither its judgement nor its effect.
  lemma InterruptOne(db: Db, done: set<RunId>, r: RunId, now: Time, staleAfter: int, clock: Time)
    requires IsRunning(db, r) && r !in done
    ensures var mid := Interrupt(db, done, clock);
            && IsRunning(mid, r)
            && LastSeen(mid, r) == LastSeen(db, r)
            && (IsLive(mid, r, now, staleAfter) <==> IsLive(db, r, now, staleAfter))
            && FinalizeStale(mid, r, Failed, Interrupted(LastSeen(db, r)), clock) == Interrupt(db, done + {r}, clock)
  {
    var mid := Interrupt(db, done, clock);
    var one := FinalizeStale(mid, r, Failed, Interrupted(LastSeen(db, r)), clock);
    var all := Interrupt(db, done + {r}, clock);
    assert one.runs == all.runs;
    assert one.settings == all.settings;
  }

  lemma StopNone(db: Db, clock: Time)
    ensures StopAll(db, {}, clock) == db
  {
    assert StopAll(db, {}, clock).runs == db.runs;
  }

  lemma StopOne(db: Db, done: set<RunId>, r: RunId, clock: Time)
    requires IsRunning(db, r) && r !in done
    ensures var mid := StopAll(db, done, clock);
            var finished := FinishedIfRunning(mid, r, Stopped, ZERO, Some(GraceExpired), clock);
            && IsRunning(mid, r)
            && ParseTimestamp(mid, StopAt(r)) == ParseTimestamp(db, StopAt(r))
            && Drop(Drop(Drop(finished, {Lease(r)}), {StopAt(r)}), if MarkerNames(mid, r) then {Marker} else {})
               == StopAll(db, done + {r}, clock)
  {
    var mid := StopAll(db, done, clock);
    var finished := FinishedIfRunning(mid, r, Stopped, ZERO, Some(GraceExpired), clock);
    var one := Drop(Drop(Drop(finished, {Lease(r)}), {StopAt(r)}), if MarkerNames(mid, r) then {Marker} else {});
    var all := StopAll(db, done + {r}, clock);
    assert one.runs == all.runs;
    assert one.settings == all.settings;
  }

  // --- one session --------------------------------------------------------------------

  class Session {
    var runs: map<RunId, Run>
    var settings: map<Key, Value>

    function State(): Db
      reads this
    {
      Db(runs, settings)
    }

    constructor (db: Db)
      ensures State() == db
    {
      runs, settings := db.runs, db.settings;
    }

    method Start(r: RunId, trigger: Trigger, startedAt: Time)
      requires r !in runs
      modifies this
      ensures State() == old(State()).(runs := old(runs)[r := NewRun(trigger, startedAt)])
      ensures r in runs && runs[r] == Run(trigger, Running, startedAt, None, ZERO, None)
    {
      runs := runs[r := Run(trigger, Running, startedAt, None, ZERO, None)];
    }

    method Finish(r: RunId, status: Status, counters: Counters, note: Option<Note>, clock: Time)
      requires r in runs
      modifies this
      ensures settings == old(settings)
      ensures runs == old(runs)[r := ApplyFinish(old(runs)[r], status, counters, note, clock)]
      ensures SameRunsBut(old(runs), runs, r)
      ensures r in runs && EndedAs(old(runs)[r], runs[r], status, counters, note, clock)
    {
      var run := runs[r].(status := status, counters := counters, finishedAt := Some(clock));
      if note.Some? {
        run := run.(note := note);
      }
      runs := runs[r := run];
    }

    method FinishIfRunning(r: RunId, status: Status, counters: Counters, note: Option<Note>, clock: Time)
      returns (finished: bool)
      modifies this
      ensures finished <==> IsRunning(old(State()), r)
      ensures State() == FinishedIfRunning(old(State()), r, status, counters, note, clock)
      ensures settings == old(settings) && SameRunsBut(old(runs), runs, r)
      ensures finished ==> r in runs && EndedAs(old(runs)[r], runs[r], status, counters, note, clock)
      ensures !finished ==> runs == old(runs)
    {
      if r !in runs || runs[r].status != Running {
        return false;
      }
      Finish(r, status, counters, note, clock);
      return true;
    }

    method DeleteSetting(k: Key)
      modifies this`settings
      ensures State() == Drop(old(State()), {k})
      ensures k !in settings && SameSettingsBut(old(settings), settings, {k})
    {
      if k in settings {
        settings := settings - {k};
      }
      assert k !in old(settings) ==> old(settings) - {k} == old(settings);
    }

    method RecordHeartbeat(r: RunId, now: Time)
      modifies this`settings
      ensures State() == Put(old(State()), Lease(r), Stamp(now))
      ensures Lease(r) in settings && settings[Lease(r)] == Stamp(now)
      ensures SameSettingsBut(old(settings), settings, {Lease(r)})
    {
      settings := settings[Lease(r) := Stamp(now)];
    }

    method FinalizeStaleRun(r: RunId, status: Status, note: Note, clock: Time)
      modifies this
      ensures State() == FinalizeStale(old(State()), r, status, note, clock)
      ensures IsRunning(old(State()), r) ==>
                r in runs && EndedAs(old(runs)[r], runs[r], status, ZERO, Some(note), clock)
      ensures !IsRunning(old(State()), r) ==> runs == old(runs)
      ensures Lease(r) !in settings && SameSettingsBut(old(settings), settings, {Lease(r)})
    {
      var _ := FinishIfRunning(r, status, ZERO, Some(note), clock);
      DeleteSetting(Lease(r));
    }

    // One row of the stale sweep; `done` are the rows it finalized before.
    method ReconcileRow(ghost db: Db, ghost done: set<RunId>, r: RunId, now: Time, staleAfter: int, clock: Time)
      returns (stale: bool)
      requires IsRunning(db, r) && r !in done
      requires State() == Interrupt(db, done, clock)
      modifies this
      ensures stale == IsStale(db, r, now, staleAfter)
      ensures State() == Interrupt(db, if stale then done + {r} else done, clock)
    {
      InterruptOne(db, done, r, now, staleAfter, clock);
      if IsLive(State(), r, now, staleAfter) {
        return false;
      }
      var lastSeen := LastSeen(State(), r);
      FinalizeStaleRun(r, Failed, Interrupted(lastSeen), clock);
      return true;
    }

    // The order in which the RUNNING rows come back is the database's choice.
    method ReconcileStaleRuns(now: Time, staleAfter: int, clock: Time) returns (finalized: seq<RunId>)
      modifies this
      ensures State() == Reconciled(old(State()), now, staleAfter, clock)
      ensures Enumerates(finalized, StaleRuns(old(State()), now, staleAfter))
    {
      ghost var db := State();
      ghost var done := {};
      finalized := [];
      var todo := set r | r in runs && runs[r].status == Running;
      InterruptNone(db, clock);
      while todo != {}
        invariant forall r :: r in todo ==> IsRunning(db, r) && r !in done
        invariant forall r :: r in done <==> r in db.runs && IsStale(db, r, now, staleAfter) && r !in todo
        invariant Enumerates(finalized, done)
        invariant State() == Interrupt(db, done, clock)
        decreases todo
      {
        var r :| r in todo;
        todo := todo - {r};
        var stale := ReconcileRow(db, done, r, now, staleAfter, clock);
        if stale {
          Enumerated(finalized, done, r);
          finalized := finalized + [r];
          done := done + {r};
        }
      }
      assert done == StaleRuns(db, now, staleAfter);
    }

    method SweepRow(ghost db: Db, ghost done: set<RunId>, r: RunId, now: Time, grace: int, clock: Time)
      returns (expired: bool)
      requires IsRunning(db, r) && r !in done
      requires State() == StopAll(db, done, clock)
      modifies this
      ensures expired == IsExpired(db, r, now, grace)
      ensures State() == StopAll(db, if expired then done + {r} else done, clock)
    {
      StopOne(db, done, r, clock);
      var requested := ParseTimestamp(State(), StopAt(r));
      if requested.None? || now - requested.value <= grace * SECOND {
        return false;
      }
      var finished := FinishIfRunning(r, Stopped, ZERO, Some(GraceExpired), clock);
      if !finished {
        return false;
      }
      DeleteSetting(Lease(r));
      DeleteSetting(StopAt(r));
      if Marker in settings && settings[Marker] == RunName(r) {
        DeleteSetting(Marker);
      }
      return true;
    }

    method FinalizeGraceExpiredStops(now: Time, grace: int, clock: Time) returns (finalized: seq<RunId>)
      modifies this
      ensures State() == GraceSwept(old(State()), now, grace, clock)
      ensures Enumerates(finalized, ExpiredRuns(old(State()), now, grace))
    {
      ghost var db := State();
      ghost var done := {};
      finalized := [];
      var todo := set r | r in runs && runs[r].status == Running;
      StopNone(db, clock);
      while todo != {}
        invariant forall r :: r in todo ==> IsRunning(db, r) && r !in done
        invariant forall r :: r in done <==> r in db.runs && IsExpired(db, r, now, grace) && r !in todo
        invariant Enumerates(finalized, done)
        invariant State() == StopAll(db, done, clock)
        decreases todo
      {
        var r :| r in todo;
        todo := todo - {r};
        var expired := SweepRow(db, done, r, now, grace, clock);
        if expired {
          Enumerated(finalized, done, r);
          finalized := finalized + [r];
          done := done + {r};
        }
      }
      assert done == ExpiredRuns(db, now, grace);
    }

    method RequestStop(r: RunId, now: Time)
      modifies this`settings
      ensures State() == StopRequested(old(State()), r, now)
      ensures Marker in settings && settings[Marker] == RunName(r)
      ensures StopAt(r) in settings && settings[StopAt(r)] == Stamp(now)
      ensures SameSettingsBut(old(settings), settings, {Marker, StopAt(r)})
    {
      settings := settings[Marker := RunName(r)];
      settings := settings[StopAt(r) := Stamp(now)];
    }

    method IsStopRequested(r: RunId) returns (requested: bool)
      ensures requested <==> MarkerNames(State(), r)
    {
      requested := Marker in settings && settings[Marker] == RunName(r);
    }

    method ClearStopRequest(r: Option<RunId>)
      modifies this`settings
      ensures State() == StopCleared(old(State()), r)
      ensures Marker !in settings && (r.Some? ==> StopAt(r.value) !in settings)
      ensures SameSettingsBut(old(settings), settings, if r.Some? then {Marker, StopAt(r.value)} else {Marker})
    {
      DeleteSetting(Marker);
      if r.Some? {
        DeleteSetting(StopAt(r.value));
      }
      assert r.Some? ==> old(settings) - {Marker} - {StopAt(r.value)} == old(settings) - {Marker, StopAt(r.value)};
    }

    method FindRunInProgress() returns (found: Option<RunId>)
      ensures found.Some? ==> IsRunning(State(), found.value)
      ensures found.None? ==> forall r :: r in runs ==> !IsRunning(State(), r)
    {
      var running := set r | r in runs && runs[r].status == Running;
      if running == {} {
        assert forall r :: r in runs && runs[r].status == Running ==> r in running;
        return None;
      }
      var r :| r in running;
      return Some(r);
    }

    method RecordSkippedRun(r: RunId, trigger: Trigger, blocking: RunId, startedAt: Time, clock: Time)
      requires r !in runs
      modifies this
      ensures State() == SkipRecorded(old(State()), r, trigger, blocking, startedAt, clock)
      ensures settings == old(settings) && SameRunsBut(old(runs), runs, r)
      ensures r in runs && runs[r] == Run(trigger, Skipped, startedAt, Some(clock), ZERO, Some(SkippedFor(blocking)))
    {
      Start(r, trigger, startedAt);
      Finish(r, Skipped, ZERO, Some(SkippedFor(blocking)), clock);
    }

    method StopRun(r: RunId, now: Time, staleAfter: int, clock: Time) returns (reply: StopReply)
      modifies this
      ensures (reply, State()) == StopCall(old(State()), r, now, staleAfter, clock)
      ensures reply == NotFound <==> r !in old(runs)
      ensures reply.AlreadyFinished? <==> IsTerminal(old(State()), r)
      ensures reply.AlreadyFinished? ==> reply.status == old(runs)[r].status
      ensures reply == Accepted <==> IsLive(old(State()), r, now, staleAfter)
      ensures reply == Accepted ==> runs == old(runs) && MarkerNames(State(), r)
                                    && ParseTimestamp(State(), StopAt(r)) == Some(now)
      ensures reply == StaleStopped ==>
                && r in runs && EndedAs(old(runs)[r], runs[r], Stopped, ZERO, Some(StaleStop), clock)
                && Marker !in settings && StopAt(r) !in settings && Lease(r) !in settings
      ensures reply != StaleStopped && reply != Accepted ==> State() == old(State())
    {
      if r !in runs {
        return NotFound;
      }
      if runs[r].status != Running {
        return AlreadyFinished(runs[r].status);
      }
      if !IsLive(State(), r, now, staleAfter) {
        FinalizeStaleRun(r, Stopped, StaleStop, clock);
        ClearStopRequest(Some(r));
        return StaleStopped;
      }
      RequestStop(r, now);
      return Accepted;
    }

    // POST /api/runs: both sweeps, then the overlap guard. `None` admits the run.
    method TriggerRun(now: Time, staleAfter: int, sweepNow: Time, grace: int, clock: Time)
      returns (refusedFor: Option<RunId>)
      modifies this
      ensures State() == GraceSwept(Reconciled(old(State()), now, staleAfter, clock), sweepNow, grace, clock)
      ensures refusedFor.Some? ==>
                && IsLive(State(), refusedFor.value, now, staleAfter)
                && !IsExpired(State(), refusedFor.value, sweepNow, grace)
      ensures refusedFor.None? <==> forall r :: r in old(runs) && IsRunning(old(State()), r) ==>
                  || IsStale(old(State()), r, now, staleAfter)
                  || IsExpired(old(State()), r, sweepNow, grace)
    {
      ghost var db := State();
      var _ := ReconcileStaleRuns(now, staleAfter, clock);
      var _ := FinalizeGraceExpiredStops(sweepNow, grace, clock);
      refusedFor := FindRunInProgress();
      GateOutcome(db, now, staleAfter, sweepNow, grace, clock);
    }

    // A scheduled fire: the same gate, and a refusal is recorded as a run of its
    // own. `id` is the identifier that run gets.
    method ScheduledFire(id: RunId, trigger: Trigger, now: Time, staleAfter: int, sweepNow: Time, grace: int,
                         startedAt: Time, clock: Time)
      returns (refusedFor: Option<RunId>)
      requires id !in runs
      modifies this
      ensures var swept := GraceSwept(Reconciled(old(State()), now, staleAfter, clock), sweepNow, grace, clock);
              State() == if refusedFor.Some? then SkipRecorded(swept, id, trigger, refusedFor.value, startedAt, clock)
                         else swept
      ensures refusedFor.Some? ==>
                && IsLive(old(State()), refusedFor.value, now, staleAfter)
                && !IsExpired(old(State()), refusedFor.value, sweepNow, grace)
      ensures refusedFor.None? ==> forall r :: r in runs ==> IsTerminal(State(), r)
    {
      ghost var db := State();
      refusedFor := TriggerRun(now, staleAfter, sweepNow, grace, clock);
      GateOutcome(db, now, staleAfter, sweepNow, grace, clock);
      if refusedFor.Some? {
        RecordSkippedRun(id, trigger, refusedFor.value, startedAt, clock);
      }
    }

    // --- the run's own thread ---

    // The row and its first lease are one commit.
    method StartRun(r: RunId, trigger: Trigger, startedAt: Time, beatAt: Time)
      requires r !in runs
      modifies this
      ensures State() == Started(old(State()), r, trigger, startedAt, beatAt)
      ensures r in runs && runs[r] == Run(trigger, Running, startedAt, None, ZERO, None)
      ensures Lease(r) in settings && settings[Lease(r)] == Stamp(beatAt)
      ensures SameRunsBut(old(runs), runs, r) && SameSettingsBut(old(settings), settings, {Lease(r)})
    {
      Start(r, trigger, startedAt);
      RecordHeartbeat(r, beatAt);
    }

    method ExitStopped(r: RunId, counters: Counters, clock: Time)
      modifies this
      ensures State() == StoppedExit(old(State()), r, counters, clock)
      ensures IsRunning(old(State()), r) ==>
                r in runs && EndedAs(old(runs)[r], runs[r], Stopped, counters, Some(StoppedByUser), clock)
      ensures !IsRunning(old(State()), r) ==> runs == old(runs)
      ensures Marker !in settings && StopAt(r) !in settings && Lease(r) !in settings
      ensures SameSettingsBut(old(settings), settings, {Marker, StopAt(r), Lease(r)})
    {
      var _ := FinishIfRunning(r, Stopped, counters, Some(StoppedByUser), clock);
      ClearStopRequest(Some(r));
      DeleteSetting(Lease(r));
    }

    method ExitFailed(r: RunId, counters: Counters, message: string, clock: Time)
      modifies this
      ensures State() == FailedExit(old(State()), r, counters, message, clock)
      ensures IsRunning(old(State()), r) ==>
                r in runs && EndedAs(old(runs)[r], runs[r], Failed, counters, Some(Aborted(message)), clock)
      ensures !IsRunning(old(State()), r) ==> runs == old(runs)
      ensures Lease(r) !in settings && SameSettingsBut(old(settings), settings, {Lease(r)})
    {
      var _ := FinishIfRunning(r, Failed, counters, Some(Aborted(message)), clock);
      DeleteSetting(Lease(r));
    }

    method ClearRunArtifacts(r: RunId)
      modifies this
      ensures State() == ArtifactsCleared(old(State()), r)
      ensures runs == old(runs) && Marker !in settings && StopAt(r) !in settings && Lease(r) !in settings
      ensures SameSettingsBut(old(settings), settings, {Marker, StopAt(r), Lease(r)})
    {
      DeleteSetting(Lease(r));
      ClearStopRequest(Some(r));
    }
  }

  // Exactly the rows that were live and not grace-expired are still RUNNING
  // after the two sweeps, and they still are live and not grace-expired.
  lemma GateOutcome(db: Db, now: Time, staleAfter: int, sweepNow: Time, grace: int, clock: Time)
    ensures var after := GraceSwept(Reconciled(db, now, staleAfter, clock), sweepNow, grace, clock);
            forall r :: r in db.runs ==>
              && (IsRunning(after, r) <==> IsLive(db, r, now, staleAfter) && !IsExpired(db, r, sweepNow, grace))
              && (IsRunning(after, r) ==> IsLive(after, r, now, staleAfter) && !IsExpired(after, r, sweepNow, grace))
    ensures GraceSwept(Reconciled(db, now, staleAfter, clock), sweepNow, grace, clock).runs.Keys == db.runs.Keys
  {
    var mid := Reconciled(db, now, staleAfter, clock);
    var after := GraceSwept(mid, sweepNow, grace, clock);
    forall r | r in db.runs
      ensures IsRunning(after, r) <==> IsLive(db, r, now, staleAfter) && !IsExpired(db, r, sweepNow, grace)
      ensures IsRunning(after, r) ==> IsLive(after, r, now, staleAfter) && !IsExpired(after, r, sweepNow, grace)
    {
      assert ParseTimestamp(mid, StopAt(r)) == ParseTimestamp(db, StopAt(r));
      if IsRunning(after, r) {
        assert ParseTimestamp(after, Lease(r)) == ParseTimestamp(db, Lease(r));
        assert ParseTimestamp(after, StopAt(r)) == ParseTimestamp(db, StopAt(r));
      }
    }
  }
}
