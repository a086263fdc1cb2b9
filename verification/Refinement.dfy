// The scoring code of one employer, as the pipeline runs it, is a schedule of
// the spend race: the two models of a branch agree.
module Refinement {
  import opened Common
  import opened Pricing
  import opened SpendLedger
  import opened Pipeline
  import Jobs
  import Race = SpendRace

  // The tracker and model-call steps one branch takes for one listing.
  function CaseSteps(cap: Option<nat>, ledger: Ledger, c: Case, b: nat): seq<Race.Step> {
    if c.filtered then []
    else if Reached(cap, ledger) then [Race.CapTrip(b)]
    else
      var triage := [Race.BeginTriage(b)] + [Race.TriageReturn(b, c.triageUsage, c.triageKeeps)];
      if !c.triageKeeps then triage
      else if Reached(cap, RecordedIfAny(ledger, c.triageUsage)) then triage + [Race.CapTrip(b)]
      else
        triage + [Race.BeginScore(b)] + [LastStep(c, b)]
  }

  // How the second call ends.
  function LastStep(c: Case, b: nat): Race.Step {
    match c.call
    case Answered(_, used) => Race.ScoreReturn(b, used)
    case BadResponse => Race.ScoreRejected(b)
    case CallFailed => Race.Explode(b)
  }

  // No call of the listing costs more than the bound of the race.
  predicate Affordable(cfg: Race.Config, c: Case) {
    && (c.triageUsage.Some? ==> Cost(c.triageUsage.value) <= cfg.maxCost)
    && (c.call.Answered? ==> Cost(c.call.used) <= cfg.maxCost)
  }

  // Branch b is between two listings, its finished ones having used `kept`.
  predicate Between(s: Race.State, b: nat, kept: Race.Tokens) {
    b < |s.branches| && s.branches[b] == Race.Branch(Race.Idle, kept, Race.NONE)
  }

  function TokensIn(usage: seq<Usage>): Race.Tokens {
    Race.Tokens(SumUsage(usage).0, SumUsage(usage).1)
  }

  function TokensInAll(results: seq<Jobs.ScoredListing>): Race.Tokens {
    Race.Tokens(SumUsages(results).0, SumUsages(results).1)
  }

  // Only branch b moved, and no employer was booked.
  predicate OnlyBranch(s: Race.State, after: Race.State, b: nat) {
    && |after.branches| == |s.branches| && after.reported == s.reported
    && forall k :: 0 <= k < |s.branches| && k != b ==> after.branches[k] == s.branches[k]
  }

  lemma {:induction false} ExecStep(cfg: Race.Config, s: Race.State, steps: seq<Race.Step>, mid: Race.State,
                                    step: Race.Step)
    requires Race.Exec(cfg, s, steps) == Some(mid) && Race.Enabled(cfg, mid, step)
    ensures Race.Exec(cfg, s, steps + [step]) == Some(Race.Apply(mid, step))
  {
    Race.ExecSnoc(cfg, s, steps, step);
  }

  lemma {:induction false} ExecTwo(cfg: Race.Config, s: Race.State, a: Race.Step, b: Race.Step)
    requires Race.Enabled(cfg, s, a) && Race.Enabled(cfg, Race.Apply(s, a), b)
    ensures Race.Exec(cfg, s, [a] + [b]) == Some(Race.Apply(Race.Apply(s, a), b))
  {
    assert Race.Exec(cfg, s, []) == Some(s) && [] + [a] == [a];
    ExecStep(cfg, s, [], s, a);
    ExecStep(cfg, s, [a], Race.Apply(s, a), b);
  }

  lemma {:induction false} ExecConcat(cfg: Race.Config, s: Race.State, a: seq<Race.Step>, mid: Race.State,
                                      b: seq<Race.Step>)
    requires Race.Exec(cfg, s, a) == Some(mid)
    ensures Race.Exec(cfg, s, a + b) == Race.Exec(cfg, mid, b)
    decreases |b|
  {
    if b == [] {
      assert a + b == a;
    } else {
      var init, last := b[..|b| - 1], b[|b| - 1];
      ExecConcat(cfg, s, a, mid, init);
      assert (a + b)[..|a + b| - 1] == a + init && (a + b)[|a + b| - 1] == last;
    }
  }

  lemma UpdateTwice(branches: seq<Race.Branch>, b: nat, w: Race.Branch, v: Race.Branch)
    requires b < |branches|
    ensures branches[b := w][b := v] == branches[b := v]
  {
  }

  lemma TriageEffect(s: Race.State, c: Case, b: nat, kept: Race.Tokens)
    requires Between(s, b, kept)
    ensures var used := Race.TokensOf(c.triageUsage);
            Race.Apply(Race.Apply(s, Race.BeginTriage(b)), Race.TriageReturn(b, c.triageUsage, c.triageKeeps)) ==
            s.(ledger := RecordedIfAny(s.ledger, c.triageUsage),
               branches := s.branches[b := if c.triageKeeps then Race.Branch(Race.Triaged, kept, used)
                                           else Race.Branch(Race.Idle, Race.Add(kept, used), Race.NONE)])
  {
    var mid := Race.Apply(s, Race.BeginTriage(b));
    var used := Race.TokensOf(c.triageUsage);
    UpdateTwice(s.branches, b, mid.branches[b], Race.Branch(Race.Triaged, kept, used));
    UpdateTwice(s.branches, b, mid.branches[b], Race.Branch(Race.Idle, Race.Add(kept, used), Race.NONE));
  }

  lemma {:induction false} TriageSteps(cfg: Race.Config, s: Race.State, c: Case, b: nat, kept: Race.Tokens)
    requires Between(s, b, kept) && Affordable(cfg, c) && !Reached(cfg.cap, s.ledger)
    ensures var steps := [Race.BeginTriage(b)] + [Race.TriageReturn(b, c.triageUsage, c.triageKeeps)];
            var used := Race.TokensOf(c.triageUsage);
            Race.Exec(cfg, s, steps) ==
            Some(s.(ledger := RecordedIfAny(s.ledger, c.triageUsage),
                    branches := s.branches[b := if c.triageKeeps then Race.Branch(Race.Triaged, kept, used)
                                                else Race.Branch(Race.Idle, Race.Add(kept, used), Race.NONE)]))
  {
    var begin, done := Race.BeginTriage(b), Race.TriageReturn(b, c.triageUsage, c.triageKeeps);
    ExecTwo(cfg, s, begin, done);
    TriageEffect(s, c, b, kept);
  }

  lemma {:induction false} ScoreSteps(cfg: Race.Config, s: Race.State, c: Case, b: nat, kept: Race.Tokens,
                                      used: Race.Tokens)
    requires b < |s.branches| && s.branches[b] == Race.Branch(Race.Triaged, kept, used)
    requires Affordable(cfg, c) && !Reached(cfg.cap, s.ledger)
    ensures var after := Race.Exec(cfg, s, [Race.BeginScore(b)] + [LastStep(c, b)]);
            && after.Some? && OnlyBranch(s, after.value, b)
            && after.value.ledger == (if c.call.Answered? then Recorded(s.ledger, c.call.used) else s.ledger)
            && after.value.lost == (if c.call.CallFailed? then Race.Add(s.lost, Race.Add(kept, used)) else s.lost)
            && after.value.branches[b] ==
               (match c.call
                case Answered(_, u) =>
                  Race.Branch(Race.Idle, Race.Add(kept, Race.Add(used, Race.TokensOf(Some(u)))), Race.NONE)
                case BadResponse => Race.Branch(Race.Idle, Race.Add(kept, used), Race.NONE)
                case CallFailed => Race.FRESH)
  {
    ExecTwo(cfg, s, Race.BeginScore(b), LastStep(c, b));
  }

  // What the listing leaves of the branch and of the lost usage.
  predicate Outcomes(s: Race.State, after: Race.State, b: nat, kept: Race.Tokens, outcome: Outcome,
                     c: Case, refusedLate: bool) {
    && b < |after.branches|
    && (outcome.Listed? ==>
          Between(after, b, Race.Add(kept, TokensIn(outcome.result.usage))) && after.lost == s.lost)
    && (outcome.CapReached? ==>
          && after.branches[b] == Race.Branch(Race.Capped, kept, Race.NONE)
          && after.lost == if refusedLate then Race.Add(s.lost, Race.TokensOf(c.triageUsage)) else s.lost)
    && (outcome.Raised? ==>
          && after.branches[b] == Race.FRESH
          && after.lost == Race.Add(s.lost, Race.Add(kept, Race.TokensOf(c.triageUsage))))
  }

  lemma UsageTokens(c: Case)
    ensures TokensIn([]) == Race.NONE
    ensures TokensIn(UsageSeq(c.triageUsage)) == Race.TokensOf(c.triageUsage)
    ensures forall u :: TokensIn(UsageSeq(c.triageUsage) + [u])
                        == Race.Add(Race.TokensOf(c.triageUsage), Race.TokensOf(Some(u)))
  {
    var usage := UsageSeq(c.triageUsage);
    assert usage != [] ==> usage[..|usage| - 1] == [];
    assert TokensIn(usage) == Race.TokensOf(c.triageUsage);
    forall u: Usage
      ensures TokensIn(usage + [u]) == Race.Add(Race.TokensOf(c.triageUsage), Race.TokensOf(Some(u)))
    {
      var both := usage + [u];
      assert both[..|both| - 1] == usage && both[|both| - 1] == u;
      assert SumUsage(both) == (SumUsage(usage).0 + u.tokensIn, SumUsage(usage).1 + u.tokensOut);
    }
  }

  // Scoring one listing is a schedule of the race: it ends with the ledger that
  // the scoring leaves, and the branch holds exactly the usage of the result.
  lemma {:induction false} CaseIsASchedule(cfg: Race.Config, s: Race.State, c: Case, b: nat, kept: Race.Tokens)
    requires Between(s, b, kept) && Affordable(cfg, c)
    ensures var after := Race.Exec(cfg, s, CaseSteps(cfg.cap, s.ledger, c, b));
            var (outcome, ledger) := Evaluate(cfg.cap, s.ledger, c);
            && after.Some? && after.value.ledger == ledger && OnlyBranch(s, after.value, b)
            && Outcomes(s, after.value, b, kept, outcome, c, !Reached(cfg.cap, s.ledger))
  {
    UsageTokens(c);
    assert Race.Add(kept, Race.NONE) == kept && Race.Add(s.lost, Race.NONE) == s.lost;
    var trip := Race.CapTrip(b);
    assert [] + [trip] == [trip] && Race.Exec(cfg, s, []) == Some(s);
    if !c.filtered {
      if Reached(cfg.cap, s.ledger) {
        ExecStep(cfg, s, [], s, trip);
      } else {
        TriageSteps(cfg, s, c, b, kept);
        AfterTriage(cfg, s, c, b, kept);
      }
    }
  }

  lemma {:induction false} AfterTriage(cfg: Race.Config, s: Race.State, c: Case, b: nat, kept: Race.Tokens)
    requires Between(s, b, kept) && Affordable(cfg, c) && !c.filtered && !Reached(cfg.cap, s.ledger)
    ensures var after := Race.Exec(cfg, s, CaseSteps(cfg.cap, s.ledger, c, b));
            var (outcome, ledger) := Evaluate(cfg.cap, s.ledger, c);
            && after.Some? && after.value.ledger == ledger && OnlyBranch(s, after.value, b)
            && Outcomes(s, after.value, b, kept, outcome, c, true)
  {
    UsageTokens(c);
    TriageSteps(cfg, s, c, b, kept);
    var triage := [Race.BeginTriage(b)] + [Race.TriageReturn(b, c.triageUsage, c.triageKeeps)];
    var mid := Race.Exec(cfg, s, triage).value;
    if c.triageKeeps {
      if Reached(cfg.cap, mid.ledger) {
        ExecStep(cfg, s, triage, mid, Race.CapTrip(b));
      } else {
        ScoreSteps(cfg, mid, c, b, kept, Race.TokensOf(c.triageUsage));
        Resume(cfg, s, c, b, triage, mid);
      }
    }
  }

  // The steps of the second call follow those of the first.
  lemma {:induction false} Resume(cfg: Race.Config, s: Race.State, c: Case, b: nat, triage: seq<Race.Step>,
                                  mid: Race.State)
    requires Race.Exec(cfg, s, triage) == Some(mid)
    requires triage == [Race.BeginTriage(b)] + [Race.TriageReturn(b, c.triageUsage, c.triageKeeps)]
    requires !c.filtered && !Reached(cfg.cap, s.ledger) && c.triageKeeps
    requires !Reached(cfg.cap, RecordedIfAny(s.ledger, c.triageUsage))
    ensures Race.Exec(cfg, s, CaseSteps(cfg.cap, s.ledger, c, b))
            == Race.Exec(cfg, mid, [Race.BeginScore(b)] + [LastStep(c, b)])
  {
    ExecConcat(cfg, s, triage, mid, [Race.BeginScore(b)] + [LastStep(c, b)]);
    assert triage + ([Race.BeginScore(b)] + [LastStep(c, b)]) == triage + [Race.BeginScore(b)] + [LastStep(c, b)];
  }

  // --- a whole batch -------------------------------------------------------------------------------

  function BatchSteps(cap: Option<nat>, ledger: Ledger, cases: seq<Case>, b: nat): seq<Race.Step>
    decreases |cases|
  {
    if cases == [] || cases[0].stopPending then []
    else
      var (outcome, mid) := Evaluate(cap, ledger, cases[0]);
      CaseSteps(cap, ledger, cases[0], b)
      + if outcome.Listed? then BatchSteps(cap, mid, cases[1..], b) else []
  }

  lemma AddAssociates(a: Race.Tokens, b: Race.Tokens, c: Race.Tokens)
    ensures Race.Add(Race.Add(a, b), c) == Race.Add(a, Race.Add(b, c))
    ensures Race.Add(a, Race.NONE) == a
  {
  }

  lemma TokensSnoc(results: seq<Jobs.ScoredListing>, last: Jobs.ScoredListing)
    ensures TokensInAll(results + [last]) == Race.Add(TokensInAll(results), TokensIn(last.usage))
  {
    assert (results + [last])[..|results|] == results;
  }

  lemma {:induction false} TokensOfConcat(s: Jobs.ScoredListing, results: seq<Jobs.ScoredListing>)
    ensures TokensInAll([s] + results) == Race.Add(TokensIn(s.usage), TokensInAll(results))
    decreases |results|
  {
    var all := [s] + results;
    if results == [] {
      assert all == [s] && all[..0] == [];
    } else {
      var init, last := results[..|results| - 1], results[|results| - 1];
      TokensOfConcat(s, init);
      TokensSnoc(init, last);
      TokensSnoc([s] + init, last);
      assert init + [last] == results && ([s] + init) + [last] == all;
      AddAssociates(TokensIn(s.usage), TokensInAll(init), TokensIn(last.usage));
    }
  }

  // Scoring a batch is a schedule of one branch, so everything proved of all
  // schedules of the race holds of branches that run this code in parallel.
  lemma {:induction false} BatchIsASchedule(cfg: Race.Config, s: Race.State, cases: seq<Case>, b: nat,
                                            kept: Race.Tokens)
    requires Between(s, b, kept) && forall c :: c in cases ==> Affordable(cfg, c)
    ensures var after := Race.Exec(cfg, s, BatchSteps(cfg.cap, s.ledger, cases, b));
            var (listings, ledger, end) := Scan(cfg.cap, s.ledger, cases, false);
            && after.Some? && after.value.ledger == ledger && OnlyBranch(s, after.value, b)
            && (end == Complete || end == Stopped ==> Between(after.value, b, Race.Add(kept, TokensInAll(listings))))
            && (end == Capped ==>
                  after.value.branches[b] == Race.Branch(Race.Capped, Race.Add(kept, TokensInAll(listings)), Race.NONE))
            && (end == Failed ==> after.value.branches[b] == Race.FRESH)
    decreases |cases|
  {
    AddAssociates(kept, Race.NONE, Race.NONE);
    if cases != [] && !cases[0].stopPending {
      var c, rest := cases[0], cases[1..];
      var (outcome, ledger) := Evaluate(cfg.cap, s.ledger, c);
      var steps := CaseSteps(cfg.cap, s.ledger, c, b);
      CaseIsASchedule(cfg, s, c, b, kept);
      var mid := Race.Exec(cfg, s, steps).value;
      if outcome.Listed? {
        var more := Race.Add(kept, TokensIn(outcome.result.usage));
        BatchIsASchedule(cfg, mid, rest, b, more);
        ExecConcat(cfg, s, steps, mid, BatchSteps(cfg.cap, ledger, rest, b));
        var listings := Scan(cfg.cap, ledger, rest, false).0;
        TokensOfConcat(outcome.result, listings);
        AddAssociates(kept, TokensIn(outcome.result.usage), TokensInAll(listings));
      } else {
        assert steps + [] == steps;
      }
    }
  }
}
