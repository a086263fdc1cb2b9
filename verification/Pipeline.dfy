// One employer's branch from fetched listings to committed rows, and the
// funnel counters a run reports.
module Pipeline {
  import opened Common
  import opened Pricing
  import opened SpendLedger
  import opened Jobs

  // What the model answers when it is asked for the dimension scores.
  datatype ScoreCall = Answered(score: Score, used: Usage) | BadResponse | CallFailed

  // A listing together with everything outside the program that its scoring
  // meets: the filters' verdict, the two model calls, a pending stop.
  datatype Case = Case(
    raw: Raw, filtered: bool, triageKeeps: bool, triageUsage: Option<Usage>, call: ScoreCall, stopPending: bool)

  // --- duplicates within one fetch -------------------------------------------------------------

  ghost predicate HasKey(listings: seq<Case>, key: string) {
    exists i :: 0 <= i < |listings| && listings[i].raw.key == Some(key)
  }

  // The first listing of each key, in order.
  ghost function FirstOfEachKey(listings: seq<Case>): seq<Case> {
    if listings == [] then []
    else
      var init, last := listings[..|listings| - 1], listings[|listings| - 1];
      FirstOfEachKey(init)
      + if last.raw.key.Some? && !HasKey(init, last.raw.key.value) then [last] else []
  }

  function WithoutKey(listings: seq<Case>): nat {
    if listings == [] then 0
    else WithoutKey(listings[..|listings| - 1]) + if listings[|listings| - 1].raw.key.None? then 1 else 0
  }

  method DedupeWithinBatch(listings: seq<Case>) returns (deduped: seq<Case>, failed: nat)
    ensures deduped == FirstOfEachKey(listings)
    ensures failed == WithoutKey(listings)
    ensures |deduped| + failed <= |listings|
  {
    var seen: set<string> := {};
    deduped, failed := [], 0;
    var i := 0;
    while i < |listings|
      invariant Deduping(listings, i, seen, deduped, failed)
    {
      DedupingMore(listings, i, seen, deduped, failed);
      var key := listings[i].raw.key;
      if key.None? {
        failed := failed + 1;
      } else if key.value !in seen {
        seen := seen + {key.value};
        deduped := deduped + [listings[i]];
      }
      i := i + 1;
    }
    assert listings[..|listings|] == listings;
  }

  // The state of the loop after i listings.
  ghost predicate Deduping(listings: seq<Case>, i: nat, seen: set<string>, deduped: seq<Case>, failed: nat) {
    && i <= |listings|
    && (forall key :: key in seen <==> HasKey(listings[..i], key))
    && deduped == FirstOfEachKey(listings[..i]) && failed == WithoutKey(listings[..i])
    && |deduped| + failed <= i
  }

  lemma DedupingMore(listings: seq<Case>, i: nat, seen: set<string>, deduped: seq<Case>, failed: nat)
    requires Deduping(listings, i, seen, deduped, failed) && i < |listings|
    ensures var key := listings[i].raw.key;
            if key.None? then Deduping(listings, i + 1, seen, deduped, failed + 1)
            else if key.value in seen then Deduping(listings, i + 1, seen, deduped, failed)
            else Deduping(listings, i + 1, seen + {key.value}, deduped + [listings[i]], failed)
  {
    KeysSnoc(listings[..i], listings[i]);
    assert listings[..i + 1] == listings[..i] + [listings[i]];
  }

  lemma {:induction false} KeysSnoc(listings: seq<Case>, last: Case)
    ensures forall key :: HasKey(listings + [last], key) <==> HasKey(listings, key) || last.raw.key == Some(key)
    ensures FirstOfEachKey(listings + [last]) ==
            FirstOfEachKey(listings)
            + if last.raw.key.Some? && !HasKey(listings, last.raw.key.value) then [last] else []
    ensures WithoutKey(listings + [last]) == WithoutKey(listings) + if last.raw.key.None? then 1 else 0
  {
    var all := listings + [last];
    assert all[..|all| - 1] == listings;
    forall key
      ensures HasKey(all, key) <==> HasKey(listings, key) || last.raw.key == Some(key)
    {
      if HasKey(listings, key) {
        var i :| 0 <= i < |listings| && listings[i].raw.key == Some(key);
        assert all[i].raw.key == Some(key);
      }
      if last.raw.key == Some(key) {
        assert all[|listings|].raw.key == Some(key);
      }
    }
  }

  // What is kept has pairwise different keys, and every key that was fetched.
  lemma {:induction false} DedupedKeys(listings: seq<Case>)
    ensures var kept := FirstOfEachKey(listings);
            && (forall i :: 0 <= i < |kept| ==> kept[i].raw.key.Some? && kept[i] in listings)
            && (forall i, j :: 0 <= i < j < |kept| ==> kept[i].raw.key != kept[j].raw.key)
            && (forall key :: HasKey(kept, key) <==> HasKey(listings, key))
  {
    if listings != [] {
      var init, last := listings[..|listings| - 1], listings[|listings| - 1];
      assert listings == init + [last];
      DedupedKeys(init);
      KeysSnoc(init, last);
      var before, kept := FirstOfEachKey(init), FirstOfEachKey(listings);
      if kept != before {
        KeysSnoc(before, last);
        forall i | 0 <= i < |before|
          ensures before[i].raw.key != last.raw.key
        {
          assert HasKey(before, before[i].raw.key.value);
        }
      }
    }
  }

  // No earlier listing has its key.
  ghost predicate IsFirst(listings: seq<Case>, i: nat) {
    && i < |listings| && listings[i].raw.key.Some?
    && forall j :: 0 <= j < i ==> listings[j].raw.key != listings[i].raw.key
  }

  // The kept listings stand at these positions.
  ghost predicate StandAt(listings: seq<Case>, kept: seq<Case>, positions: seq<nat>) {
    && |positions| == |kept|
    && (forall k :: 0 <= k < |kept| ==> positions[k] < |listings| && kept[k] == listings[positions[k]])
    && (forall k, m :: 0 <= k < m < |positions| ==> positions[k] < positions[m])
  }

  // What is kept are the first listings of their keys, all of them, in order.
  lemma {:induction false} KeepsTheFirst(listings: seq<Case>) returns (positions: seq<nat>)
    ensures StandAt(listings, FirstOfEachKey(listings), positions)
    ensures forall i: nat :: i in positions <==> IsFirst(listings, i)
  {
    positions := [];
    if listings != [] {
      var n := |listings| - 1;
      var init, last := listings[..n], listings[n];
      assert listings == init + [last];
      positions := KeepsTheFirst(init);
      KeysSnoc(init, last);
      assert forall i: nat :: i < n ==> (IsFirst(init, i) <==> IsFirst(listings, i));
      assert forall k :: 0 <= k < |positions| ==> positions[k] in positions;
      if last.raw.key.Some? && !HasKey(init, last.raw.key.value) {
        positions := positions + [n];
      }
      LastIsFirst(listings);
    }
  }

  lemma LastIsFirst(listings: seq<Case>)
    requires listings != []
    ensures var n := |listings| - 1;
            IsFirst(listings, n) <==>
            listings[n].raw.key.Some? && !HasKey(listings[..n], listings[n].raw.key.value)
  {
    var n := |listings| - 1;
    if j :| 0 <= j < n && listings[j].raw.key == listings[n].raw.key {
      assert listings[..n][j] == listings[j];
    }
  }

  lemma {:induction false} WithoutKeyExactly(listings: seq<Case>)
    ensures WithoutKey(listings) == |set i | 0 <= i < |listings| && listings[i].raw.key.None?|
  {
    if listings != [] {
      var n := |listings| - 1;
      var init := listings[..n];
      WithoutKeyExactly(init);
      var before := set i | 0 <= i < |init| && init[i].raw.key.None?;
      var after := set i | 0 <= i < |listings| && listings[i].raw.key.None?;
      if listings[n].raw.key.None? {
        assert after == before + {n};
      } else {
        assert after == before;
      }
    }
  }

  // --- one listing ----------------------------------------------------------------------------------

  datatype Outcome = Listed(result: ScoredListing) | CapReached | Raised

  function Unscored(c: Case, tier: Tier, dropped: bool, error: bool, usage: seq<Usage>): ScoredListing {
    ScoredListing(c.raw, None, tier, dropped, error, usage)
  }

  function UsageSeq(u: Option<Usage>): seq<Usage> {
    if u.Some? then [u.value] else []
  }

  function Evaluate(cap: Option<nat>, ledger: Ledger, c: Case): (Outcome, Ledger) {
    if c.filtered then (Listed(Unscored(c, Deterministic, true, false, [])), ledger)
    else if Reached(cap, ledger) then (CapReached, ledger)
    else
      var triaged := RecordedIfAny(ledger, c.triageUsage);
      var usage := UsageSeq(c.triageUsage);
      if !c.triageKeeps then (Listed(Unscored(c, Triage, true, false, usage)), triaged)
      else if Reached(cap, triaged) then (CapReached, triaged)
      else
        match c.call
        case Answered(score, used) =>
          (Listed(ScoredListing(c.raw, Some(score), Full, false, false, usage + [used])), Recorded(triaged, used))
        case BadResponse => (Listed(Unscored(c, Triage, false, true, usage)), triaged)
        case CallFailed => (Raised, triaged)
  }

  method ScoreListing(c: Case, tracker: SpendTracker) returns (outcome: Outcome)
    modifies tracker
    ensures (outcome, tracker.Value()) == Evaluate(tracker.cap, old(tracker.Value()), c)
    ensures outcome.Listed? ==> TellsTheCase(c, outcome.result)
  {
    if c.filtered {
      return Listed(Unscored(c, Deterministic, true, false, []));
    }
    var refused := tracker.Check();
    if refused {
      return CapReached;
    }
    var usage := UsageSeq(c.triageUsage);
    tracker.Record(c.triageUsage);
    if !c.triageKeeps {
      return Listed(Unscored(c, Triage, true, false, usage));
    }
    refused := tracker.Check();
    if refused {
      return CapReached;
    }
    match c.call {
      case Answered(score, used) =>
        usage := usage + [used];
        tracker.Record(Some(used));
        return Listed(ScoredListing(c.raw, Some(score), Full, false, false, usage));
      case BadResponse =>
        return Listed(Unscored(c, Triage, false, true, usage));
      case CallFailed =>
        return Raised;
    }
  }

  function RecordedAll(ledger: Ledger, log: seq<Usage>): Ledger {
    if log == [] then ledger else Recorded(RecordedAll(ledger, log[..|log| - 1]), log[|log| - 1])
  }

  lemma {:induction false} RecordedSnoc(ledger: Ledger, log: seq<Usage>)
    ensures RecordedAll(ledger, []) == ledger
    ensures forall u :: RecordedAll(ledger, log + [u]) == Recorded(RecordedAll(ledger, log), u)
  {
    forall u
      ensures RecordedAll(ledger, log + [u]) == Recorded(RecordedAll(ledger, log), u)
    {
      assert (log + [u])[..|log|] == log;
    }
  }

  // A listing that yields a result yields exactly the usage that was recorded
  // for it; a refused one met a spend at the cap and at most its triage call
  // was paid for; at the cap nothing but the free filters happens.
  lemma {:induction false} UsageIsWhatWasRecorded(cap: Option<nat>, ledger: Ledger, c: Case)
    ensures var (outcome, after) := Evaluate(cap, ledger, c);
            && (outcome.Listed? ==> after == RecordedAll(ledger, outcome.result.usage))
            && (outcome.CapReached? ==> Reached(cap, after) && after in {ledger, RecordedIfAny(ledger, c.triageUsage)})
            && (Reached(cap, ledger) ==> after == ledger && (outcome.CapReached? <==> !c.filtered))
  {
    var usage := UsageSeq(c.triageUsage);
    RecordedSnoc(ledger, []);
    RecordedSnoc(ledger, usage);
  }

  // --- one employer's batch -------------------------------------------------------------------------

  datatype End = Complete | Capped | Stopped | Failed

  function FiltersOnly(c: Case): ScoredListing {
    Unscored(c, Deterministic, c.filtered, false, [])
  }

  // The listings that got a result, the ledger after them, and how the batch ended.
  function Scan(cap: Option<nat>, ledger: Ledger, cases: seq<Case>, noScore: bool): (seq<ScoredListing>, Ledger, End)
    decreases |cases|
  {
    if cases == [] then ([], ledger, Complete)
    else if cases[0].stopPending then ([], ledger, Stopped)
    else if noScore then
      var (rest, after, end) := Scan(cap, ledger, cases[1..], noScore);
      ([FiltersOnly(cases[0])] + rest, after, end)
    else
      var (outcome, mid) := Evaluate(cap, ledger, cases[0]);
      match outcome
      case CapReached => ([], mid, Capped)
      case Raised => ([], mid, Failed)
      case Listed(result) =>
        var (rest, after, end) := Scan(cap, mid, cases[1..], noScore);
        ([result] + rest, after, end)
  }

  function Count(results: seq<ScoredListing>, p: ScoredListing -> bool): nat {
    if results == [] then 0
    else Count(results[..|results| - 1], p) + if p(results[|results| - 1]) then 1 else 0
  }

  predicate PassedFilters(noScore: bool, s: ScoredListing) {
    if noScore then !s.dropped else s.tier != Deterministic
  }

  predicate PassedTriage(noScore: bool, s: ScoredListing) {
    !noScore && (s.tier == Full || (s.tier == Triage && s.error))
  }

  predicate WasScored(s: ScoredListing) {
    s.score.Some?
  }

  function SumUsage(usage: seq<Usage>): (nat, nat) {
    if usage == [] then (0, 0)
    else
      var (tin, tout) := SumUsage(usage[..|usage| - 1]);
      (tin + usage[|usage| - 1].tokensIn, tout + usage[|usage| - 1].tokensOut)
  }

  function SumUsages(results: seq<ScoredListing>): (nat, nat) {
    if results == [] then (0, 0)
    else
      var (tin, tout) := SumUsages(results[..|results| - 1]);
      var (lin, lout) := SumUsage(results[|results| - 1].usage);
      (tin + lin, tout + lout)
  }

  datatype BatchOut = BatchOut(
    listings: seq<ScoredListing>, tokensIn: nat, tokensOut: nat,
    afterDeterministic: nat, afterTriage: nat, scored: nat, failed: nat)

  // Every counter of a batch is a count over the listings it returns.
  ghost predicate Tallied(out: BatchOut, noScore: bool) {
    && out.afterDeterministic == Count(out.listings, s => PassedFilters(noScore, s))
    && out.afterTriage == Count(out.listings, s => PassedTriage(noScore, s))
    && out.scored == Count(out.listings, s => WasScored(s))
    && out.failed == Count(out.listings, (s: ScoredListing) => s.error)
    && (out.tokensIn, out.tokensOut) == SumUsages(out.listings)
  }

  method AddUsage(usage: seq<Usage>, tin: nat, tout: nat) returns (tin': nat, tout': nat)
    ensures (tin', tout') == (tin + SumUsage(usage).0, tout + SumUsage(usage).1)
  {
    tin', tout' := tin, tout;
    var i := 0;
    while i < |usage|
      invariant 0 <= i <= |usage|
      invariant tin' == tin + SumUsage(usage[..i]).0 && tout' == tout + SumUsage(usage[..i]).1
    {
      assert usage[..i + 1][..i] == usage[..i];
      tin', tout' := tin' + usage[i].tokensIn, tout' + usage[i].tokensOut;
      i := i + 1;
    }
    assert usage[..|usage|] == usage;
  }

  lemma Appended(out: BatchOut, s: ScoredListing, noScore: bool)
    requires Tallied(out, noScore)
    requires noScore ==> s.usage == [] && !s.error && s.score.None?
    ensures var (lin, lout) := SumUsage(s.usage);
            Tallied(BatchOut(out.listings + [s], out.tokensIn + lin, out.tokensOut + lout,
                             out.afterDeterministic + if PassedFilters(noScore, s) then 1 else 0,
                             out.afterTriage + if PassedTriage(noScore, s) then 1 else 0,
                             out.scored + if WasScored(s) then 1 else 0,
                             out.failed + if s.error then 1 else 0), noScore)
  {
    assert (out.listings + [s])[..|out.listings|] == out.listings;
  }

  // Counts one more result.
  method Keep(out: BatchOut, s: ScoredListing, noScore: bool) returns (out': BatchOut)
    requires Tallied(out, noScore)
    requires noScore ==> s.usage == [] && !s.error && s.score.None?
    ensures Tallied(out', noScore) && out'.listings == out.listings + [s]
  {
    Appended(out, s, noScore);
    out' := out.(listings := out.listings + [s]);
    if noScore {
      if !s.dropped {
        out' := out'.(afterDeterministic := out.afterDeterministic + 1);
      }
      return;
    }
    var tin, tout := AddUsage(s.usage, out.tokensIn, out.tokensOut);
    out' := out'.(tokensIn := tin, tokensOut := tout);
    if s.tier != Deterministic {
      out' := out'.(afterDeterministic := out.afterDeterministic + 1);
    }
    if s.tier == Full || (s.tier == Triage && s.error) {
      out' := out'.(afterTriage := out.afterTriage + 1);
    }
    if s.score.Some? {
      out' := out'.(scored := out.scored + 1);
    }
    if s.error {
      out' := out'.(failed := out.failed + 1);
    }
  }

  // `whole` is what the batch still to come adds to `done`.
  ghost predicate Resumes(whole: (seq<ScoredListing>, Ledger, End), done: seq<ScoredListing>,
                          rest: (seq<ScoredListing>, Ledger, End)) {
    whole == (done + rest.0, rest.1, rest.2)
  }

  lemma ResumesAfter(whole: (seq<ScoredListing>, Ledger, End), done: seq<ScoredListing>, s: ScoredListing,
                     rest: (seq<ScoredListing>, Ledger, End))
    requires Resumes(whole, done, ([s] + rest.0, rest.1, rest.2))
    ensures Resumes(whole, done + [s], rest)
  {
    assert done + ([s] + rest.0) == done + [s] + rest.0;
  }

  method ScoreBatch(cases: seq<Case>, noScore: bool, tracker: SpendTracker) returns (out: BatchOut, end: End)
    modifies tracker
    ensures (out.listings, tracker.Value(), end) == Scan(tracker.cap, old(tracker.Value()), cases, noScore)
    ensures Tallied(out, noScore)
    ensures TellsTheBatch(tracker.cap, cases, noScore, (out.listings, tracker.Value(), end))
    ensures CountsTheCases(out, cases, noScore)
  {
    ScanTellsTheBatch(tracker.cap, tracker.Value(), cases, noScore);
    ghost var cap, ledger := tracker.cap, tracker.Value();
    out, end := ScoreAll(cases, noScore, tracker);
    CountersTellTheCases(cap, ledger, cases, noScore, out);
  }

  method ScoreAll(cases: seq<Case>, noScore: bool, tracker: SpendTracker) returns (out: BatchOut, end: End)
    modifies tracker
    ensures (out.listings, tracker.Value(), end) == Scan(tracker.cap, old(tracker.Value()), cases, noScore)
    ensures Tallied(out, noScore)
  {
    out := BatchOut([], 0, 0, 0, 0, 0, 0);
    var i := 0;
    ghost var whole := Scan(tracker.cap, tracker.Value(), cases, noScore);
    assert [] + whole.0 == whole.0;
    assert cases[0..] == cases;
    while i < |cases|
      invariant 0 <= i <= |cases|
      invariant Resumes(whole, out.listings, Scan(tracker.cap, tracker.Value(), cases[i..], noScore))
      invariant Tallied(out, noScore)
    {
      ghost var rest := cases[i..];
      assert rest[0] == cases[i] && rest[1..] == cases[i + 1..];
      assert out.listings + [] == out.listings;
      if cases[i].stopPending {
        return out, Stopped;
      }
      var s;
      if noScore {
        s := FiltersOnly(cases[i]);
      } else {
        var outcome := ScoreListing(cases[i], tracker);
        if outcome.CapReached? {
          return out, Capped;
        }
        if outcome.Raised? {
          return out, Failed;
        }
        s := outcome.result;
      }
      ResumesAfter(whole, out.listings, s, Scan(tracker.cap, tracker.Value(), cases[i + 1..], noScore));
      out := Keep(out, s, noScore);
      i := i + 1;
    }
    assert out.listings + [] == out.listings;
    return out, Complete;
  }

  // --- the funnel of a batch ---------------------------------------------------------------------------

  // What the tiers of a result mean.
  ghost predicate WellTiered(s: ScoredListing) {
    && (s.score.Some? <==> s.tier == Full)
    && (s.tier == Deterministic ==> s.usage == [])
    && (s.error ==> s.tier == Triage)
  }

  lemma {:induction false} ScanIsWellTiered(cap: Option<nat>, ledger: Ledger, cases: seq<Case>, noScore: bool)
    ensures var listings := Scan(cap, ledger, cases, noScore).0;
            |listings| <= |cases| && forall s :: s in listings ==> WellTiered(s)
    decreases |cases|
  {
    if cases != [] && !cases[0].stopPending {
      if noScore {
        ScanIsWellTiered(cap, ledger, cases[1..], noScore);
      } else {
        var (outcome, mid) := Evaluate(cap, ledger, cases[0]);
        if outcome.Listed? {
          ScanIsWellTiered(cap, mid, cases[1..], noScore);
        }
      }
    }
  }

  lemma {:induction false} CountMono(results: seq<ScoredListing>, p: ScoredListing -> bool, q: ScoredListing -> bool)
    requires forall s :: s in results && p(s) ==> q(s)
    ensures Count(results, p) <= Count(results, q) <= |results|
  {
    if results != [] {
      var init := results[..|results| - 1];
      assert forall s :: s in init ==> s in results;
      assert results[|results| - 1] in results;
      CountMono(init, p, q);
    }
  }

  lemma BatchFunnel(out: BatchOut, noScore: bool)
    requires Tallied(out, noScore) && forall s :: s in out.listings ==> WellTiered(s)
    requires noScore ==> forall s :: s in out.listings ==> s.score.None?
    ensures |out.listings| >= out.afterDeterministic >= out.afterTriage >= out.scored
  {
    CountMono(out.listings, s => WasScored(s), s => PassedTriage(noScore, s));
    CountMono(out.listings, s => PassedTriage(noScore, s), s => PassedFilters(noScore, s));
    CountMono(out.listings, s => PassedFilters(noScore, s), s => PassedFilters(noScore, s));
  }

  lemma {:induction false} NoScoreScan(cap: Option<nat>, ledger: Ledger, cases: seq<Case>)
    ensures var (listings, after, _) := Scan(cap, ledger, cases, true);
            after == ledger && forall s :: s in listings ==> s.score.None? && s.usage == []
  {
    if cases != [] && !cases[0].stopPending {
      NoScoreScan(cap, ledger, cases[1..]);
    }
  }

  // --- what the results say of the cases -------------------------------------------------------------------

  predicate Survives(c: Case) {
    !c.filtered && c.triageKeeps
  }

  // The result of one listing, field by field.
  predicate TellsTheCase(c: Case, s: ScoredListing) {
    && s.listing == c.raw
    && (s.tier == Deterministic <==> c.filtered)
    && (s.tier == Full <==> Survives(c) && c.call.Answered?)
    && (s.dropped <==> c.filtered || !c.triageKeeps)
    && (s.error <==> Survives(c) && c.call.BadResponse?)
    && s.score == (if Survives(c) && c.call.Answered? then Some(c.call.score) else None)
    && (c.filtered ==> s.usage == [])
    && (!c.filtered ==>
          s.usage == (if c.triageUsage.Some? then [c.triageUsage.value] else [])
                     + if c.triageKeeps && c.call.Answered? then [c.call.used] else [])
  }

  // Without scoring only the filters are asked.
  predicate TellsTheFilters(c: Case, s: ScoredListing) {
    && s.listing == c.raw && s.tier == Deterministic && (s.dropped <==> c.filtered)
    && !s.error && s.score.None? && s.usage == []
  }

  // A listing gets a result unless the cap refuses one of its calls or its second
  // call fails; the result tells which of the ways it went.
  lemma ListedTellsTheCase(cap: Option<nat>, ledger: Ledger, c: Case)
    ensures var outcome, triaged := Evaluate(cap, ledger, c).0, RecordedIfAny(ledger, c.triageUsage);
            && (outcome.Listed? ==> TellsTheCase(c, outcome.result))
            && (outcome.CapReached? <==>
                  !c.filtered && (Reached(cap, ledger) || (c.triageKeeps && Reached(cap, triaged))))
            && (outcome.Raised? <==>
                  Survives(c) && !Reached(cap, ledger) && !Reached(cap, triaged) && c.call.CallFailed?)
  {
  }

  // The results of a batch belong to its first listings, in order; what ended
  // the batch is the state of the next one.
  ghost predicate TellsTheBatch(cap: Option<nat>, cases: seq<Case>, noScore: bool,
                                scanned: (seq<ScoredListing>, Ledger, End)) {
    var n, end := |scanned.0|, scanned.2;
    && n <= |cases|
    && (forall k :: 0 <= k < n ==> !cases[k].stopPending
                                   && if noScore then TellsTheFilters(cases[k], scanned.0[k])
                                      else TellsTheCase(cases[k], scanned.0[k]))
    && (end == Complete <==> n == |cases|)
    && (end == Stopped <==> n < |cases| && cases[n].stopPending)
    && (end == Capped ==> !noScore && !cases[n].filtered && Reached(cap, scanned.1))
    && (end == Failed ==> !noScore && Survives(cases[n]) && cases[n].call.CallFailed?)
  }

  lemma {:induction false} ScanTellsTheBatch(cap: Option<nat>, ledger: Ledger, cases: seq<Case>, noScore: bool)
    ensures TellsTheBatch(cap, cases, noScore, Scan(cap, ledger, cases, noScore))
    decreases |cases|
  {
    if cases != [] && !cases[0].stopPending {
      var c, rest := cases[0], cases[1..];
      if noScore {
        ScanTellsTheBatch(cap, ledger, rest, noScore);
        OneMoreTold(cap, c, rest, noScore, FiltersOnly(c), Scan(cap, ledger, rest, noScore));
      } else {
        ListedTellsTheCase(cap, ledger, c);
        var (outcome, mid) := Evaluate(cap, ledger, c);
        if outcome.Listed? {
          ScanTellsTheBatch(cap, mid, rest, noScore);
          OneMoreTold(cap, c, rest, noScore, outcome.result, Scan(cap, mid, rest, noScore));
        } else {
          UsageIsWhatWasRecorded(cap, ledger, c);
        }
      }
      assert cases == [c] + rest;
    }
  }

  lemma OneMoreTold(cap: Option<nat>, c: Case, rest: seq<Case>, noScore: bool, s: ScoredListing,
                    scanned: (seq<ScoredListing>, Ledger, End))
    requires TellsTheBatch(cap, rest, noScore, scanned) && !c.stopPending
    requires if noScore then TellsTheFilters(c, s) else TellsTheCase(c, s)
    ensures TellsTheBatch(cap, [c] + rest, noScore, ([s] + scanned.0, scanned.1, scanned.2))
  {
    var cases, listings := [c] + rest, [s] + scanned.0;
    assert forall k :: 0 < k < |listings| ==> listings[k] == scanned.0[k - 1] && cases[k] == rest[k - 1];
    assert |scanned.0| < |rest| ==> cases[|listings|] == rest[|scanned.0|];
  }

  lemma {:induction false} CountIsCardinality(results: seq<ScoredListing>, p: ScoredListing -> bool)
    ensures Count(results, p) == |set i | 0 <= i < |results| && p(results[i])|
  {
    if results != [] {
      var n := |results| - 1;
      var init := results[..n];
      CountIsCardinality(init, p);
      var before, after := (set i | 0 <= i < |init| && p(init[i])), (set i | 0 <= i < |results| && p(results[i]));
      if p(results[n]) {
        assert after == before + {n};
      } else {
        assert after == before;
      }
    }
  }

  // Which of the first n cases have a property.
  ghost function CasesThat(cases: seq<Case>, n: nat, q: Case -> bool): set<nat>
    requires n <= |cases|
  {
    set i: nat | i < n && q(cases[i])
  }

  predicate Unfiltered(c: Case) {
    !c.filtered
  }

  predicate WasAnswered(c: Case) {
    Survives(c) && c.call.Answered?
  }

  predicate WasRejected(c: Case) {
    Survives(c) && c.call.BadResponse?
  }

  // The counters of a batch, over the cases that got a result.
  ghost predicate CountsTheCases(out: BatchOut, cases: seq<Case>, noScore: bool) {
    var n := |out.listings|;
    && n <= |cases|
    && out.afterDeterministic == |CasesThat(cases, n, Unfiltered)|
    && out.afterTriage == (if noScore then 0 else |CasesThat(cases, n, Survives)|)
    && out.scored == (if noScore then 0 else |CasesThat(cases, n, WasAnswered)|)
    && out.failed == (if noScore then 0 else |CasesThat(cases, n, WasRejected)|)
  }

  lemma {:induction false} CountWhen(listings: seq<ScoredListing>, cases: seq<Case>, p: ScoredListing -> bool,
                                     q: Case -> bool)
    requires |listings| <= |cases| && forall i :: 0 <= i < |listings| ==> (p(listings[i]) <==> q(cases[i]))
    ensures Count(listings, p) == |CasesThat(cases, |listings|, q)|
  {
    CountIsCardinality(listings, p);
    assert (set i | 0 <= i < |listings| && p(listings[i])) == CasesThat(cases, |listings|, q);
  }

  lemma {:induction false} CountNone(listings: seq<ScoredListing>, p: ScoredListing -> bool)
    requires forall s :: s in listings ==> !p(s)
    ensures Count(listings, p) == 0
  {
    CountIsCardinality(listings, p);
    assert (set i | 0 <= i < |listings| && p(listings[i])) == {};
  }

  lemma ToldCounters(cap: Option<nat>, cases: seq<Case>, noScore: bool,
                       scanned: (seq<ScoredListing>, Ledger, End), out: BatchOut)
    requires !noScore && TellsTheBatch(cap, cases, noScore, scanned) && out.listings == scanned.0
             && Tallied(out, noScore)
    requires forall i :: 0 <= i < |scanned.0| && Survives(cases[i]) ==> !cases[i].call.CallFailed?
    ensures CountsTheCases(out, cases, noScore)
  {
    CountWhen(out.listings, cases, s => PassedFilters(noScore, s), Unfiltered);
    CountWhen(out.listings, cases, s => PassedTriage(noScore, s), Survives);
    CountWhen(out.listings, cases, s => WasScored(s), WasAnswered);
    CountWhen(out.listings, cases, (s: ScoredListing) => s.error, WasRejected);
  }

  lemma FilteredCounters(cap: Option<nat>, cases: seq<Case>, noScore: bool,
                       scanned: (seq<ScoredListing>, Ledger, End), out: BatchOut)
    requires noScore && TellsTheBatch(cap, cases, noScore, scanned) && out.listings == scanned.0
             && Tallied(out, noScore)
    ensures CountsTheCases(out, cases, noScore)
  {
    CountWhen(out.listings, cases, s => PassedFilters(noScore, s), Unfiltered);
    CountNone(out.listings, s => PassedTriage(noScore, s));
    CountNone(out.listings, s => WasScored(s));
    CountNone(out.listings, (s: ScoredListing) => s.error);
  }

  // A listing whose second call failed has no result.
  lemma {:induction false} NoResultForFailures(cap: Option<nat>, ledger: Ledger, cases: seq<Case>)
    ensures var listings := Scan(cap, ledger, cases, false).0;
            |listings| <= |cases|
            && forall i :: 0 <= i < |listings| && Survives(cases[i]) ==> !cases[i].call.CallFailed?
    decreases |cases|
  {
    if cases != [] && !cases[0].stopPending {
      ListedTellsTheCase(cap, ledger, cases[0]);
      var (outcome, mid) := Evaluate(cap, ledger, cases[0]);
      if outcome.Listed? {
        NoResultForFailures(cap, mid, cases[1..]);
        var more := Scan(cap, mid, cases[1..], false).0;
        assert forall i :: 0 < i <= |more| ==> cases[i] == cases[1..][i - 1];
      }
    }
  }

  // What a batch reports is a count of its cases.
  lemma {:induction false} CountersTellTheCases(cap: Option<nat>, ledger: Ledger, cases: seq<Case>, noScore: bool,
                                                out: BatchOut)
    requires out.listings == Scan(cap, ledger, cases, noScore).0 && Tallied(out, noScore)
    ensures CountsTheCases(out, cases, noScore)
  {
    ScanTellsTheBatch(cap, ledger, cases, noScore);
    if noScore {
      FilteredCounters(cap, cases, noScore, Scan(cap, ledger, cases, noScore), out);
    } else {
      NoResultForFailures(cap, ledger, cases);
      ToldCounters(cap, cases, noScore, Scan(cap, ledger, cases, noScore), out);
    }
  }

  // --- one employer ---------------------------------------------------------------------------------------

  // What a branch meets on its way: whether each full gate lets it pass (or
  // raises RunStoppedByUser), whether the employer and active criteria are
  // there, what the fetch returns, and whether the final commit fails.
  datatype Employer = Employer(
    passesFirst: bool, found: bool, fetch: Option<seq<Case>>, passesFetched: bool, criteria: bool,
    passesDeduped: bool, passesScored: bool, commitFails: bool)

  datatype EmployerResult = EmployerResult(
    error: bool, capped: bool, fetched: nat, afterDedup: nat, afterDeterministic: nat, afterTriage: nat,
    scored: nat, tokensIn: nat, tokensOut: nat, written: nat, updated: nat, failed: nat)

  const NOTHING := EmployerResult(false, false, 0, 0, 0, 0, 0, 0, 0, 0, 0, 0)

  ghost predicate Funnel(r: EmployerResult) {
    && r.fetched >= r.afterDedup >= r.afterDeterministic >= r.afterTriage >= r.scored
    && r.written <= r.afterDedup
  }

  datatype BranchEnd = StoppedByUser | Errored | Done

  predicate ReachesScoring(e: Employer) {
    && e.passesFirst && e.found && e.fetch.Some? && e.passesFetched && e.criteria && e.passesDeduped
  }

  // What scoring the deduplicated listings leads to.
  ghost function Scanned(e: Employer, noScore: bool, cap: Option<nat>, ledger: Ledger)
    : (seq<ScoredListing>, Ledger, End)
    requires e.fetch.Some?
  {
    Scan(cap, ledger, FirstOfEachKey(e.fetch.value), noScore)
  }

  // The first obstacle decides how the branch ends.
  ghost function EndOf(e: Employer, noScore: bool, cap: Option<nat>, ledger: Ledger): BranchEnd {
    if !e.passesFirst then StoppedByUser
    else if !e.found || e.fetch.None? then Errored
    else if !e.passesFetched then StoppedByUser
    else if !e.criteria then Errored
    else if !e.passesDeduped || Scanned(e, noScore, cap, ledger).2 == Stopped then StoppedByUser
    else if Scanned(e, noScore, cap, ledger).2 == Failed then Errored
    else if !e.passesScored then StoppedByUser
    else if e.commitFails then Errored
    else Done
  }

  // The counters of a branch that was not cut short.
  ghost predicate Reports(r: EmployerResult, cases: seq<Case>, scanned: (seq<ScoredListing>, Ledger, End),
                          noScore: bool) {
    var kept, errors := FirstOfEachKey(cases), Count(scanned.0, (s: ScoredListing) => s.error);
    && r.fetched == |cases| && r.afterDedup == |kept|
    && Tallied(BatchOut(scanned.0, r.tokensIn, r.tokensOut, r.afterDeterministic, r.afterTriage,
                        r.scored, errors), noScore)
    && CountsTheCases(BatchOut(scanned.0, r.tokensIn, r.tokensOut, r.afterDeterministic, r.afterTriage, r.scored,
                               errors), kept, noScore)
    && (r.capped <==> scanned.2 == Capped)
    && r.failed == WithoutKey(cases) + errors + Unkeyed(scanned.0)
    && r.written + r.updated == |scanned.0| - Unkeyed(scanned.0)
  }

  // Scores a batch and states what its counters are worth.
  method ScoreStage(kept: seq<Case>, noScore: bool, tracker: SpendTracker) returns (out: BatchOut, end: End)
    modifies tracker
    ensures (out.listings, tracker.Value(), end) == Scan(tracker.cap, old(tracker.Value()), kept, noScore)
    ensures Tallied(out, noScore)
    ensures |kept| >= out.afterDeterministic >= out.afterTriage >= out.scored && |kept| >= |out.listings|
    ensures old(tracker.spent) <= tracker.spent
    ensures CountsTheCases(out, kept, noScore)
  {
    ghost var ledger := tracker.Value();
    out, end := ScoreBatch(kept, noScore, tracker);
    ScanSpends(tracker.cap, ledger, kept, noScore);
    ScanIsWellTiered(tracker.cap, ledger, kept, noScore);
    if noScore {
      NoScoreScan(tracker.cap, ledger, kept);
    }
    BatchFunnel(out, noScore);
  }

  // The final commit fails after the write inserted rows: the result still
  // counts them as written.
  ghost predicate ClaimsLostRows(e: Employer, noScore: bool, cap: Option<nat>, ledger: Ledger, rows: seq<Job>, run: nat,
                                 now: Time) {
    && ReachesScoring(e) && Scanned(e, noScore, cap, ledger).2 in {Complete, Capped}
    && e.passesScored && e.commitFails
    && |BatchWritten(rows, Scanned(e, noScore, cap, ledger).0, run, now)| > |rows|
  }

  // One new listing, no scoring, a commit that fails: one row is reported as
  // written and none is there.
  lemma LostRowsAreClaimed(call: ScoreCall, facts: Facts, ledger: Ledger, now: Time)
    ensures var c := Case(Raw(Some("greenhouse:acme:1"), facts), false, true, None, call, false);
            ClaimsLostRows(Employer(true, true, Some([c]), true, true, true, true, true),
                           true, None, ledger, [], 1, now)
  {
    var c := Case(Raw(Some("greenhouse:acme:1"), facts), false, true, None, call, false);
    var e := Employer(true, true, Some([c]), true, true, true, true, true);
    assert [c][..0] == [] && [c][1..] == [];
    assert FirstOfEachKey([c]) == [c];
    var batch := [FiltersOnly(c)];
    assert Scan(None, ledger, [], true) == ([], ledger, Complete);
    assert Scan(None, ledger, [c], true) == ([FiltersOnly(c)] + [], ledger, Complete);
    assert [FiltersOnly(c)] + [] == batch;
    assert batch[..0] == [];
  }

  // The branch of one employer. `None` is RunStoppedByUser. Everything the
  // branch writes is one transaction: an error or a stop leaves the table as it
  // was, while what was spent stays spent.
  method ProcessEmployer(e: Employer, noScore: bool, tracker: SpendTracker, table: JobTable, run: nat, now: Time)
    returns (result: Option<EmployerResult>)
    modifies tracker, table
    ensures var end := EndOf(e, noScore, tracker.cap, old(tracker.Value()));
            && (result.None? <==> end == StoppedByUser)
            && (result.Some? ==> (result.value.error <==> end == Errored))
            && (end != Done ==> table.Value() == old(table.Value()))
            && (end == Done ==>
                  var scanned := Scanned(e, noScore, tracker.cap, old(tracker.Value()));
                  && Reports(result.value, e.fetch.value, scanned, noScore)
                  && table.rows == BatchWritten(old(table.rows), scanned.0, run, now)
                  && table.events == old(table.events)
                  && result.value.written == |table.rows| - |old(table.rows)|)
    ensures tracker.Value() == if ReachesScoring(e) then Scanned(e, noScore, tracker.cap, old(tracker.Value())).1
                               else old(tracker.Value())
    ensures old(tracker.spent) <= tracker.spent
    ensures result.Some? ==> Funnel(result.value)
    ensures result.Some? ==>
              (result.value.written != |table.rows| - |old(table.rows)| <==>
               ClaimsLostRows(e, noScore, tracker.cap, old(tracker.Value()), old(table.rows), run, now))
  {
    if !e.passesFirst {
      return None;
    }
    if !e.found || e.fetch.None? {
      return Some(NOTHING.(error := true));
    }
    var cases := e.fetch.value;
    if !e.passesFetched {
      return None;
    }
    var r := NOTHING.(fetched := |cases|);
    var kept, unkeyed := DedupeWithinBatch(cases);
    r := r.(afterDedup := |kept|, failed := unkeyed);
    if !e.criteria {
      return Some(r.(error := true));
    }
    if !e.passesDeduped {
      return None;
    }
    var out, end := ScoreStage(kept, noScore, tracker);
    if end == Stopped {
      return None;
    }
    if end == Failed {
      return Some(r.(error := true));
    }
    r := r.(afterDeterministic := out.afterDeterministic, afterTriage := out.afterTriage, scored := out.scored,
            tokensIn := out.tokensIn, tokensOut := out.tokensOut, failed := r.failed + out.failed,
            capped := end == Capped);
    if !e.passesScored {
      return None;
    }
    var before := table.rows;
    var outcome := table.WriteBatch(out.listings, run, now);
    r := r.(written := outcome.inserted, updated := outcome.updated, failed := r.failed + outcome.failed);
    if e.commitFails {
      table.rows := before;
      return Some(r.(error := true));
    }
    return Some(r);
  }

  lemma {:induction false} ScanSpends(cap: Option<nat>, ledger: Ledger, cases: seq<Case>, noScore: bool)
    ensures Scan(cap, ledger, cases, noScore).1.spent >= ledger.spent
    decreases |cases|
  {
    if cases != [] && !cases[0].stopPending {
      if noScore {
        ScanSpends(cap, ledger, cases[1..], noScore);
      } else {
        var (outcome, mid) := Evaluate(cap, ledger, cases[0]);
        if outcome.Listed? {
          ScanSpends(cap, mid, cases[1..], noScore);
        }
      }
    }
  }

  // --- the whole run --------------------------------------------------------------------------------------

  datatype Totals = Totals(
    companies: nat, fetched: nat, afterDedup: nat, afterDeterministic: nat, afterTriage: nat, scored: nat, written: nat)

  method SumResults(results: seq<EmployerResult>) returns (t: Totals)
    ensures t == TotalsOf(results)
  {
    t := Totals(0, 0, 0, 0, 0, 0, 0);
    for i := 0 to |results|
      invariant t == TotalsOf(results[..i])
    {
      var r := results[i];
      assert results[..i + 1][..i] == results[..i];
      t := Totals(t.companies + 1, t.fetched + r.fetched, t.afterDedup + r.afterDedup,
                  t.afterDeterministic + r.afterDeterministic, t.afterTriage + r.afterTriage,
                  t.scored + r.scored, t.written + r.written);
    }
    assert results[..|results|] == results;
  }

  function TotalsOf(results: seq<EmployerResult>): Totals {
    if results == [] then Totals(0, 0, 0, 0, 0, 0, 0)
    else
      var t, r := TotalsOf(results[..|results| - 1]), results[|results| - 1];
      Totals(t.companies + 1, t.fetched + r.fetched, t.afterDedup + r.afterDedup,
             t.afterDeterministic + r.afterDeterministic, t.afterTriage + r.afterTriage,
             t.scored + r.scored, t.written + r.written)
  }

  function Plus(a: Totals, b: Totals): Totals {
    Totals(a.companies + b.companies, a.fetched + b.fetched, a.afterDedup + b.afterDedup,
           a.afterDeterministic + b.afterDeterministic, a.afterTriage + b.afterTriage,
           a.scored + b.scored, a.written + b.written)
  }

  function OfOne(r: EmployerResult): Totals {
    Totals(1, r.fetched, r.afterDedup, r.afterDeterministic, r.afterTriage, r.scored, r.written)
  }

  lemma PlusAssociates(a: Totals, b: Totals, c: Totals)
    ensures Plus(Plus(a, b), c) == Plus(a, Plus(b, c))
  {
  }

  lemma {:induction false} TotalsSnoc(results: seq<EmployerResult>, r: EmployerResult)
    ensures TotalsOf(results + [r]) == Plus(TotalsOf(results), OfOne(r))
    ensures TotalsOf([r]) == OfOne(r)
  {
    assert (results + [r])[..|results|] == results;
    assert [r][..0] == [] && TotalsOf([]) == Totals(0, 0, 0, 0, 0, 0, 0);
  }

  lemma {:induction false} OneMoreAddsUp(a: seq<EmployerResult>, init: seq<EmployerResult>, last: EmployerResult)
    requires TotalsOf(a + init) == Plus(TotalsOf(a), TotalsOf(init))
    ensures TotalsOf(a + (init + [last])) == Plus(TotalsOf(a), TotalsOf(init + [last]))
  {
    TotalsSnoc(init, last);
    TotalsSnoc(a + init, last);
    assert a + (init + [last]) == a + init + [last];
    PlusAssociates(TotalsOf(a), TotalsOf(init), OfOne(last));
  }

  // The totals are the sums of the results' columns, however they are grouped.
  lemma {:induction false} TotalsAddUp(a: seq<EmployerResult>, b: seq<EmployerResult>)
    ensures TotalsOf(a + b) == Plus(TotalsOf(a), TotalsOf(b))
    decreases |b|
  {
    if b == [] {
      assert a + b == a;
    } else {
      var init, last := b[..|b| - 1], b[|b| - 1];
      TotalsAddUp(a, init);
      OneMoreAddsUp(a, init, last);
      assert b == init + [last];
    }
  }

  // For any mix of errors, caps, no-score mode and duplicates.
  lemma {:induction false} RunFunnel(results: seq<EmployerResult>)
    requires forall r :: r in results ==> Funnel(r)
    ensures var t := TotalsOf(results);
            && t.companies == |results|
            && t.fetched >= t.afterDedup >= t.afterDeterministic >= t.afterTriage >= t.scored
            && t.written <= t.afterDedup
  {
    if results != [] {
      var init := results[..|results| - 1];
      assert forall r :: r in init ==> r in results;
      assert results[|results| - 1] in results;
      RunFunnel(init);
    }
  }

  datatype RunStatus = RunSuccess | RunPartial | RunFailed | RunCapped

  function StatusOf(results: seq<EmployerResult>): (status: RunStatus)
    ensures status == RunFailed <==> results != [] && forall r :: r in results ==> r.error
    ensures status == RunSuccess <==> forall r :: r in results ==> !r.error && !r.capped
    ensures status == RunCapped <==> (forall r :: r in results ==> !r.error) && exists r :: r in results && r.capped
  {
    if results != [] && forall r :: r in results ==> r.error then
      assert results[0] in results;
      RunFailed
    else if exists r :: r in results && r.error then RunPartial
    else if exists r :: r in results && r.capped then RunCapped
    else RunSuccess
  }
}
