// Concrete schedules for the guarantees the run protocol does not give. Each
// starts from an empty database with no process alive.
module RunWitnesses {
  import opened Common
  import opened RunStore
  import opened RunProtocol
  import opened RunSafety

  const CFG := Config(120, 60, 5)

  const EMPTY := State(Db(map[], map[]), map[], map[])

  ghost predicate Leads(steps: seq<Step>, s: State) {
    Exec(CFG, EMPTY, steps) == Some(s)
  }

  lemma Do(steps: seq<Step>, s: State, step: Step, s': State)
    requires Leads(steps, s) && Enabled(CFG, s, step)
    requires s'.db == DbAfter(CFG, s, step)
    requires s'.threads == ThreadsAfter(s, step)
    requires s'.batches == BatchesAfter(s, step)
    ensures Leads(steps + [step], s')
  {
    ExecSnoc(CFG, EMPTY, steps, step);
  }

  lemma {:induction false} RequestSnoc(steps: seq<Step>, step: Step, r: RunId)
    ensures LastRequest(steps + [step], r) ==
            if step.RequestStop? && step.run == r then Some(step.now) else LastRequest(steps, r)
  {
    assert (steps + [step])[..|steps|] == steps;
  }

  // --- two runs at once ------------------------------------------------------------------------

  // Both guards pass before either run starts.
  const OVERLAP: seq<Step> :=
    [Guard(1)] + [Guard(2)] + [Start(1, Manual, 0, 0, 0)] + [Start(2, Scheduled, 0, 0, 0)]

  lemma TwoAdmittedRunsOverlap()
    ensures Exec(CFG, EMPTY, OVERLAP).Some?
    ensures var db := Exec(CFG, EMPTY, OVERLAP).value.db; IsRunning(db, 1) && IsRunning(db, 2)
  {
    assert [] + [Guard(1)] == [Guard(1)];
    Do([], EMPTY, Guard(1), EMPTY);
    Do([Guard(1)], EMPTY, Guard(2), EMPTY);
    var guards, first := [Guard(1)] + [Guard(2)], Start(1, Manual, 0, 0, 0);
    ExecSnoc(CFG, EMPTY, guards, first);
    ExecSnoc(CFG, EMPTY, guards + [first], Start(2, Scheduled, 0, 0, 0));
  }

  // --- a lease and a stop time that outlive their run ----------------------------------------------

  const ROW := Run(Manual, Running, 0, None, ZERO, None)
  const GOOD := Run(Manual, Success, 0, Some(5), ZERO, None)

  const S0 := [Start(1, Manual, 0, 0, 0)]
  const S1 := S0 + [EnterGraph(1)]
  const S2 := S1 + [FinalRowCheck(1)]
  const S3 := S2 + [FinalMarkerCheck(1)]
  const STRAIGHT := S3 + [Finalize(1, Success, ZERO, None, 5)]

  function OneRun(run: Run, settings: map<Key, Value>, main: Main, heartbeat: Heartbeat): State {
    State(Db(map[1 := run], settings), map[1 := Thread(main, heartbeat, map[], 0, false)], map[1 := 0])
  }

  const LEASED: map<Key, Value> := map[Lease(1) := Stamp(0)]

  lemma StartedRun()
    ensures Leads(S0, OneRun(ROW, LEASED, Starting, Off))
  {
    assert [] + [Start(1, Manual, 0, 0, 0)] == S0;
    Do([], EMPTY, Start(1, Manual, 0, 0, 0), OneRun(ROW, LEASED, Starting, Off));
  }

  // A run with no employer goes from its start to a committed SUCCESS.
  lemma CheckedRun()
    ensures Leads(S3, OneRun(ROW, LEASED, MarkerChecked, Waiting))
  {
    StartedRun();
    Do(S0, OneRun(ROW, LEASED, Starting, Off), EnterGraph(1), OneRun(ROW, LEASED, InGraph, Waiting));
    Do(S1, OneRun(ROW, LEASED, InGraph, Waiting), FinalRowCheck(1), OneRun(ROW, LEASED, RowChecked, Waiting));
    Do(S2, OneRun(ROW, LEASED, RowChecked, Waiting), FinalMarkerCheck(1), OneRun(ROW, LEASED, MarkerChecked, Waiting));
  }

  lemma StraightRun()
    ensures Leads(STRAIGHT, OneRun(GOOD, LEASED, Finalized, Waiting))
  {
    CheckedRun();
    Do(S3, OneRun(ROW, LEASED, MarkerChecked, Waiting), Finalize(1, Success, ZERO, None, 5),
       OneRun(GOOD, LEASED, Finalized, Waiting));
  }

  const LATE_BEAT := STRAIGHT + [BeatBegin(1)] + [Cleanup(1)] + [BeatCommit(1, 6)]

  // A heartbeat that was already writing when the run cleaned up puts the lease back.
  lemma LeaseCanOutliveTheRun()
    ensures Leads(LATE_BEAT, OneRun(GOOD, map[Lease(1) := Stamp(6)], Exited, Waiting))
  {
    StraightRun();
    Do(STRAIGHT, OneRun(GOOD, LEASED, Finalized, Waiting), BeatBegin(1), OneRun(GOOD, LEASED, Finalized, Beating));
    CleanedUp(STRAIGHT + [BeatBegin(1)]);
    LeaseIsBack(STRAIGHT + [BeatBegin(1)] + [Cleanup(1)]);
  }

  lemma LeaseIsBack(steps: seq<Step>)
    requires Leads(steps, OneRun(GOOD, map[], Exited, Beating))
    ensures Leads(steps + [BeatCommit(1, 6)], OneRun(GOOD, map[Lease(1) := Stamp(6)], Exited, Waiting))
  {
    Do(steps, OneRun(GOOD, map[], Exited, Beating), BeatCommit(1, 6),
       OneRun(GOOD, map[Lease(1) := Stamp(6)], Exited, Waiting));
  }

  lemma CleanedUp(steps: seq<Step>)
    requires Leads(steps, OneRun(GOOD, LEASED, Finalized, Beating))
    ensures Leads(steps + [Cleanup(1)], OneRun(GOOD, map[], Exited, Beating))
  {
    assert LEASED - {Lease(1)} == map[];
    Do(steps, OneRun(GOOD, LEASED, Finalized, Beating), Cleanup(1), OneRun(GOOD, map[], Exited, Beating));
  }

  const ASKED: map<Key, Value> := map[Lease(1) := Stamp(0), Marker := RunName(1), StopAt(1) := Stamp(1)]
  const CRASHED := S0 + [RequestStop(1, 1)] + [EnterGraph(1)] + [Abort(1)] + [FailExit(1, ZERO, "boom", 2)]

  // The FAILED exit clears the lease only.
  lemma StopTimeCanOutliveTheRun()
    ensures && Exec(CFG, EMPTY, CRASHED).Some?
            && IsTerminal(Exec(CFG, EMPTY, CRASHED).value.db, 1)
            && StopAt(1) in Exec(CFG, EMPTY, CRASHED).value.db.settings
  {
    AskedRun();
    FailedRun(S0 + [RequestStop(1, 1)] + [EnterGraph(1)] + [Abort(1)]);
  }

  lemma AskedRun()
    ensures Leads(S0 + [RequestStop(1, 1)] + [EnterGraph(1)] + [Abort(1)], OneRun(ROW, ASKED, Failing, Waiting))
  {
    StartedRun();
    Do(S0, OneRun(ROW, LEASED, Starting, Off), RequestStop(1, 1), OneRun(ROW, ASKED, Starting, Off));
    AbortedRun(S0 + [RequestStop(1, 1)]);
  }

  lemma AbortedRun(steps: seq<Step>)
    requires Leads(steps, OneRun(ROW, ASKED, Starting, Off))
    ensures Leads(steps + [EnterGraph(1)] + [Abort(1)], OneRun(ROW, ASKED, Failing, Waiting))
  {
    Do(steps, OneRun(ROW, ASKED, Starting, Off), EnterGraph(1), OneRun(ROW, ASKED, InGraph, Waiting));
    Do(steps + [EnterGraph(1)], OneRun(ROW, ASKED, InGraph, Waiting), Abort(1), OneRun(ROW, ASKED, Failing, Waiting));
  }

  const FAILED := Run(Manual, Failed, 0, Some(2), ZERO, Some(Aborted("boom")))
  const UNLEASED: map<Key, Value> := map[Marker := RunName(1), StopAt(1) := Stamp(1)]

  lemma FailedRun(steps: seq<Step>)
    requires Leads(steps, OneRun(ROW, ASKED, Failing, Waiting))
    ensures Leads(steps + [FailExit(1, ZERO, "boom", 2)], OneRun(FAILED, UNLEASED, Exited, Waiting))
  {
    assert ASKED - {Lease(1)} == UNLEASED;
    Do(steps, OneRun(ROW, ASKED, Failing, Waiting), FailExit(1, ZERO, "boom", 2),
       OneRun(FAILED, UNLEASED, Exited, Waiting));
  }

  // --- a stop request whose marker another run deletes ------------------------------------------------

  // Run 1 is over but has not cleaned up; run 2 starts and is asked to stop;
  // the clean-up of run 1 then deletes the marker that names run 2.
  const STOLEN :=
    STRAIGHT + [Start(2, Manual, 6, 6, 0)] + [RequestStop(2, 7)] + [Cleanup(1)]

  const IGNORED :=
    STOLEN + [EnterGraph(2)] + [FinalRowCheck(2)] + [FinalMarkerCheck(2)] + [Finalize(2, Success, ZERO, None, 8)]

  function TwoRuns(second: Run, settings: map<Key, Value>, main1: Main, main2: Main, beat2: Heartbeat): State {
    State(Db(map[1 := GOOD, 2 := second], settings),
          map[1 := Thread(main1, Waiting, map[], 0, false), 2 := Thread(main2, beat2, map[], 0, false)],
          map[1 := 0, 2 := 0])
  }

  const LATER := Run(Manual, Running, 6, None, ZERO, None)
  const LATER_GOOD := Run(Manual, Success, 6, Some(8), ZERO, None)
  const BOTH_LEASED: map<Key, Value> := map[Lease(1) := Stamp(0), Lease(2) := Stamp(6)]
  const TWO_ASKED: map<Key, Value> :=
    map[Lease(1) := Stamp(0), Lease(2) := Stamp(6), Marker := RunName(2), StopAt(2) := Stamp(7)]
  const UNMARKED: map<Key, Value> := map[Lease(2) := Stamp(6), StopAt(2) := Stamp(7)]

  lemma StolenMarker()
    ensures Leads(STOLEN, TwoRuns(LATER, UNMARKED, Exited, Starting, Off))
  {
    StraightRun();
    Do(STRAIGHT, OneRun(GOOD, LEASED, Finalized, Waiting), Start(2, Manual, 6, 6, 0),
       TwoRuns(LATER, BOTH_LEASED, Finalized, Starting, Off));
    SecondAsked(STRAIGHT + [Start(2, Manual, 6, 6, 0)]);
    MarkerStolen(STRAIGHT + [Start(2, Manual, 6, 6, 0)] + [RequestStop(2, 7)]);
  }

  lemma SecondAsked(steps: seq<Step>)
    requires Leads(steps, TwoRuns(LATER, BOTH_LEASED, Finalized, Starting, Off))
    ensures Leads(steps + [RequestStop(2, 7)], TwoRuns(LATER, TWO_ASKED, Finalized, Starting, Off))
  {
    Do(steps, TwoRuns(LATER, BOTH_LEASED, Finalized, Starting, Off), RequestStop(2, 7),
       TwoRuns(LATER, TWO_ASKED, Finalized, Starting, Off));
  }

  lemma MarkerStolen(steps: seq<Step>)
    requires Leads(steps, TwoRuns(LATER, TWO_ASKED, Finalized, Starting, Off))
    ensures Leads(steps + [Cleanup(1)], TwoRuns(LATER, UNMARKED, Exited, Starting, Off))
  {
    var s, s' := TwoRuns(LATER, TWO_ASKED, Finalized, Starting, Off), TwoRuns(LATER, UNMARKED, Exited, Starting, Off);
    assert ArtifactsCleared(s.db, 1).settings == UNMARKED;
    assert s'.threads == s.threads[1 := s.threads[1].(main := Exited)];
    Do(steps, s, Cleanup(1), s');
  }

  lemma StolenRequest()
    ensures LastRequest(IGNORED, 2) == Some(7)
  {
    var a := STRAIGHT + [Start(2, Manual, 6, 6, 0)];
    RequestSnoc(a, RequestStop(2, 7), 2);
    RequestSnoc(a + [RequestStop(2, 7)], Cleanup(1), 2);
    RequestSnoc(STOLEN, EnterGraph(2), 2);
    RequestSnoc(STOLEN + [EnterGraph(2)], FinalRowCheck(2), 2);
    RequestSnoc(STOLEN + [EnterGraph(2)] + [FinalRowCheck(2)], FinalMarkerCheck(2), 2);
    RequestSnoc(STOLEN + [EnterGraph(2)] + [FinalRowCheck(2)] + [FinalMarkerCheck(2)],
                Finalize(2, Success, ZERO, None, 8), 2);
  }

  // So a run whose stop was accepted before it had done anything ends SUCCESS,
  // although the two runs were never RUNNING at the same time.
  lemma AcceptedStopCanEndInSuccess()
    ensures LastRequest(IGNORED, 2) == Some(7)
    ensures Leads(IGNORED, TwoRuns(LATER_GOOD, UNMARKED, Exited, Finalized, Waiting))
  {
    StolenRequest();
    StolenMarker();
    IgnoredStop(STOLEN);
  }

  // The second run reaches its last gate and passes it.
  lemma UnmarkedGate(steps: seq<Step>)
    requires Leads(steps, TwoRuns(LATER, UNMARKED, Exited, Starting, Off))
    ensures Leads(steps + [EnterGraph(2)] + [FinalRowCheck(2)], TwoRuns(LATER, UNMARKED, Exited, RowChecked, Waiting))
  {
    Do(steps, TwoRuns(LATER, UNMARKED, Exited, Starting, Off), EnterGraph(2),
       TwoRuns(LATER, UNMARKED, Exited, InGraph, Waiting));
    Do(steps + [EnterGraph(2)], TwoRuns(LATER, UNMARKED, Exited, InGraph, Waiting), FinalRowCheck(2),
       TwoRuns(LATER, UNMARKED, Exited, RowChecked, Waiting));
  }

  lemma IgnoredStop(steps: seq<Step>)
    requires Leads(steps, TwoRuns(LATER, UNMARKED, Exited, Starting, Off))
    ensures Leads(steps + [EnterGraph(2)] + [FinalRowCheck(2)] + [FinalMarkerCheck(2)]
                  + [Finalize(2, Success, ZERO, None, 8)],
                  TwoRuns(LATER_GOOD, UNMARKED, Exited, Finalized, Waiting))
  {
    UnmarkedGate(steps);
    var a := steps + [EnterGraph(2)] + [FinalRowCheck(2)];
    Do(a, TwoRuns(LATER, UNMARKED, Exited, RowChecked, Waiting), FinalMarkerCheck(2),
       TwoRuns(LATER, UNMARKED, Exited, MarkerChecked, Waiting));
    GoodFinish(a + [FinalMarkerCheck(2)]);
  }

  lemma GoodFinish(steps: seq<Step>)
    requires Leads(steps, TwoRuns(LATER, UNMARKED, Exited, MarkerChecked, Waiting))
    ensures Leads(steps + [Finalize(2, Success, ZERO, None, 8)],
                  TwoRuns(LATER_GOOD, UNMARKED, Exited, Finalized, Waiting))
  {
    Do(steps, TwoRuns(LATER, UNMARKED, Exited, MarkerChecked, Waiting), Finalize(2, Success, ZERO, None, 8),
       TwoRuns(LATER_GOOD, UNMARKED, Exited, Finalized, Waiting));
  }
}
