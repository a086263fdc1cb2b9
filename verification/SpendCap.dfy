// Prices of model calls, and the run-level ledger that accumulates them.
module Pricing {
  import opened Common

  datatype Usage = Usage(model: string, tokensIn: nat, tokensOut: nat)

  // US cents per million input and output tokens, by normalised model name.
  function Rates(model: string): Option<(nat, nat)> {
    if model == "gpt-4o" then Some((250, 1000))
    else if model == "gpt-4o-mini" then Some((15, 60))
    else if model == "gpt-4.1" then Some((200, 800))
    else if model == "gpt-4.1-mini" then Some((40, 160))
    else if model == "gpt-4.1-nano" then Some((10, 40))
    else if model == "o4-mini" then Some((110, 440))
    else None
  }

  predicate IsPriced(model: string) {
    Rates(model).Some?
  }

  // The exact cost of a call, in hundredths of a micro-dollar.
  function ExactCost(u: Usage): nat {
    var rates := Rates(u.model);
    if rates.None? then 0 else rates.value.0 * u.tokensIn + rates.value.1 * u.tokensOut
  }

  // The recorded cost of a call, in micro-dollars: the nearest one, ties to even.
  function Cost(u: Usage): (cost: nat)
    ensures -50 <= 100 * cost - ExactCost(u) <= 50
    ensures ExactCost(u) % 100 == 50 ==> cost % 2 == 0
  {
    RoundHalfEven(ExactCost(u), 100)
  }

  // What a million input or output tokens cost, in micro-dollars.
  lemma MillionTokenPrices()
    ensures Cost(Usage("gpt-4o", 1_000_000, 0)) == 2_500_000
    ensures Cost(Usage("gpt-4o", 0, 1_000_000)) == 10_000_000
    ensures Cost(Usage("gpt-4o-mini", 1_000_000, 0)) == 150_000
    ensures Cost(Usage("gpt-4o-mini", 0, 1_000_000)) == 600_000
    ensures Cost(Usage("gpt-4.1", 1_000_000, 0)) == 2_000_000
    ensures Cost(Usage("gpt-4.1", 0, 1_000_000)) == 8_000_000
    ensures Cost(Usage("gpt-4.1-mini", 1_000_000, 0)) == 400_000
    ensures Cost(Usage("gpt-4.1-mini", 0, 1_000_000)) == 1_600_000
    ensures Cost(Usage("gpt-4.1-nano", 1_000_000, 0)) == 100_000
    ensures Cost(Usage("gpt-4.1-nano", 0, 1_000_000)) == 400_000
    ensures Cost(Usage("o4-mini", 1_000_000, 0)) == 1_100_000
    ensures Cost(Usage("o4-mini", 0, 1_000_000)) == 4_400_000
  {
  }

  lemma UnpricedIsFree(u: Usage)
    requires !IsPriced(u.model)
    ensures Cost(u) == 0
  {
  }
}

module SpendLedger {
  import opened Common
  import opened Pricing

  datatype Ledger = Ledger(spent: nat, tokensIn: nat, tokensOut: nat, unpriced: set<string>)

  const EMPTY := Ledger(0, 0, 0, {})

  predicate Reached(cap: Option<nat>, ledger: Ledger) {
    cap.Some? && ledger.spent >= cap.value
  }

  function Recorded(ledger: Ledger, u: Usage): Ledger {
    Ledger(ledger.spent + Cost(u), ledger.tokensIn + u.tokensIn, ledger.tokensOut + u.tokensOut,
           if u.model != "" && !IsPriced(u.model) then ledger.unpriced + {u.model} else ledger.unpriced)
  }

  function RecordedIfAny(ledger: Ledger, u: Option<Usage>): Ledger {
    if u.Some? then Recorded(ledger, u.value) else ledger
  }

  // The tracker shared by the employer branches of one run. Each method runs
  // under the tracker's lock.
  class SpendTracker {
    const cap: Option<nat>
    var spent: nat
    var tokensIn: nat
    var tokensOut: nat
    var unpriced: set<string>

    function Value(): Ledger
      reads this
    {
      Ledger(spent, tokensIn, tokensOut, unpriced)
    }

    constructor (cap: Option<nat>)
      ensures this.cap == cap && Value() == EMPTY
    {
      this.cap := cap;
      spent, tokensIn, tokensOut, unpriced := 0, 0, 0, {};
    }

    // True when the cap refuses the next call.
    method Check() returns (refused: bool)
      ensures refused <==> Reached(cap, Value())
    {
      if cap.None? {
        return false;
      }
      return spent >= cap.value;
    }

    method Record(u: Option<Usage>)
      modifies this
      ensures Value() == RecordedIfAny(old(Value()), u)
      ensures u.None? ==> Value() == old(Value())
      ensures u.Some? ==>
                && spent == old(spent) + Cost(u.value)
                && tokensIn == old(tokensIn) + u.value.tokensIn && tokensOut == old(tokensOut) + u.value.tokensOut
    {
      if u.None? {
        return;
      }
      tokensIn := tokensIn + u.value.tokensIn;
      tokensOut := tokensOut + u.value.tokensOut;
      spent := spent + Cost(u.value);
      if u.value.model != "" && !IsPriced(u.value.model) {
        unpriced := unpriced + {u.value.model};
      }
    }
  }

  // --- the ledger is a sum --------------------------------------------------------------

  function Total(log: seq<Usage>): Ledger {
    if log == [] then EMPTY else Recorded(Total(log[..|log| - 1]), log[|log| - 1])
  }

  lemma RecordingCommutes(ledger: Ledger, u: Usage, v: Usage)
    ensures Recorded(Recorded(ledger, u), v) == Recorded(Recorded(ledger, v), u)
  {
  }

  lemma {:induction false} TotalSnoc(log: seq<Usage>, u: Usage)
    ensures Total(log + [u]) == Recorded(Total(log), u)
  {
    assert (log + [u])[..|log|] == log;
  }

  lemma {:induction false} TotalWithout(log: seq<Usage>, i: nat)
    requires i < |log|
    ensures Total(log) == Recorded(Total(log[..i] + log[i + 1..]), log[i])
  {
    var last := |log| - 1;
    if i == last {
      assert log[..i] + log[i + 1..] == log[..last];
    } else {
      var rest := log[..i] + log[i + 1..];
      var init := log[..last];
      var less := init[..i] + init[i + 1..];
      assert rest == less + [log[last]] && log == init + [log[last]];
      TotalWithout(init, i);
      TotalSnoc(less, log[last]);
      TotalSnoc(init, log[last]);
      RecordingCommutes(Total(less), log[i], log[last]);
    }
  }

  // The models of the recorded calls that the price table does not know.
  lemma {:induction false} UnpricedExactly(log: seq<Usage>)
    ensures forall m :: m in Total(log).unpriced <==>
              m != "" && !IsPriced(m) && exists i :: 0 <= i < |log| && log[i].model == m
  {
    if log != [] {
      var init, last := log[..|log| - 1], log[|log| - 1];
      UnpricedExactly(init);
      assert forall i :: 0 <= i < |init| ==> init[i] == log[i];
      assert log[|log| - 1].model == last.model;
    }
  }

  // Whatever order the branches record their calls in, the totals are the same.
  lemma {:induction false} OrderDoesNotMatter(a: seq<Usage>, b: seq<Usage>)
    requires multiset(a) == multiset(b)
    ensures Total(a) == Total(b)
  {
    if a == [] {
      assert |multiset(b)| == 0;
      assert b == [];
    } else {
      var last := |a| - 1;
      var u := a[last];
      assert a == a[..last] + [u];
      assert u in multiset(b);
      var i :| 0 <= i < |b| && b[i] == u;
      assert b == b[..i] + [u] + b[i + 1..];
      assert multiset(a) == multiset(a[..last]) + multiset{u};
      assert multiset(b) == multiset(b[..i] + b[i + 1..]) + multiset{u};
      assert multiset(a[..last]) == multiset(a) - multiset{u};
      OrderDoesNotMatter(a[..last], b[..i] + b[i + 1..]);
      TotalWithout(b, i);
    }
  }

  function ExactTotal(log: seq<Usage>): nat {
    if log == [] then 0 else ExactTotal(log[..|log| - 1]) + ExactCost(log[|log| - 1])
  }

  function PricedCalls(log: seq<Usage>): nat {
    if log == [] then 0 else PricedCalls(log[..|log| - 1]) + if IsPriced(log[|log| - 1].model) then 1 else 0
  }

  // Recorded spend is within half a micro-dollar per priced call of the exact cost.
  lemma {:induction false} RoundingIsBounded(log: seq<Usage>)
    ensures -50 * PricedCalls(log) <= 100 * Total(log).spent - ExactTotal(log) <= 50 * PricedCalls(log)
  {
    if log != [] {
      RoundingIsBounded(log[..|log| - 1]);
      if !IsPriced(log[|log| - 1].model) {
        UnpricedIsFree(log[|log| - 1]);
      }
    }
  }
}

// Employer branches spending from one ledger at the same time. A step is one
// locked section of the tracker together with the code of that branch around it.
module SpendRace {
  import opened Common
  import opened Pricing
  import opened SpendLedger

  // Every call of the run costs at most `maxCost`.
  datatype Config = Config(cap: Option<nat>, branches: nat, maxCost: nat)

  datatype Tokens = Tokens(tin: nat, tout: nat)

  const NONE := Tokens(0, 0)

  // Where a branch is inside the scoring of its current listing.
  datatype Phase = Idle | Triaging | Triaged | Scoring | Capped

  // `kept` are the tokens of the finished listings of the current employer,
  // `current` those of the listing being scored.
  datatype Branch = Branch(phase: Phase, kept: Tokens, current: Tokens)

  // `reported` are the tokens of finished employers' results, `lost` those that
  // reached the ledger but no result.
  datatype State = State(ledger: Ledger, branches: seq<Branch>, reported: Tokens, lost: Tokens)

  datatype Step =
    | BeginTriage(b: nat)
    | TriageReturn(b: nat, usage: Option<Usage>, keep: bool)
    | BeginScore(b: nat)
    | ScoreReturn(b: nat, used: Usage)
    | ScoreRejected(b: nat)    // LlmResponseError: the listing is kept unscored
    | CapTrip(b: nat)          // SpendCapReached: the listing is dropped, the batch ends
    | Explode(b: nat)          // any other exception while scoring, or a stop: no token counts
    | EmployerDone(b: nat)     // the batch, capped or not, has its token counts in a result

  const FRESH := Branch(Idle, NONE, NONE)

  function Add(a: Tokens, b: Tokens): Tokens {
    Tokens(a.tin + b.tin, a.tout + b.tout)
  }

  function TokensOf(u: Option<Usage>): Tokens {
    if u.Some? then Tokens(u.value.tokensIn, u.value.tokensOut) else NONE
  }

  function Init(cfg: Config): State {
    State(EMPTY, seq(cfg.branches, _ => FRESH), NONE, NONE)
  }

  predicate Enabled(cfg: Config, s: State, step: Step) {
    && step.b < |s.branches|
    && var phase := s.branches[step.b].phase;
       match step
       case BeginTriage(_) => phase == Idle && !Reached(cfg.cap, s.ledger)
       case TriageReturn(_, usage, _) => phase == Triaging && (usage.Some? ==> Cost(usage.value) <= cfg.maxCost)
       case BeginScore(_) => phase == Triaged && !Reached(cfg.cap, s.ledger)
       case ScoreReturn(_, used) => phase == Scoring && Cost(used) <= cfg.maxCost
       case ScoreRejected(_) => phase == Scoring
       case CapTrip(_) => (phase == Idle || phase == Triaged) && Reached(cfg.cap, s.ledger)
       case Explode(_) => true
       case EmployerDone(_) => phase == Idle || phase == Capped
  }

  function Apply(s: State, step: Step): State
    requires step.b < |s.branches|
  {
    var w := s.branches[step.b];
    match step
    case BeginTriage(b) => s.(branches := s.branches[b := w.(phase := Triaging)])
    case TriageReturn(b, usage, keep) =>
      var used := TokensOf(usage);
      s.(ledger := RecordedIfAny(s.ledger, usage),
         branches := s.branches[b := if keep then w.(phase := Triaged, current := Add(w.current, used))
                                     else Branch(Idle, Add(w.kept, Add(w.current, used)), NONE)])
    case BeginScore(b) => s.(branches := s.branches[b := w.(phase := Scoring)])
    case ScoreReturn(b, used) =>
      s.(ledger := Recorded(s.ledger, used),
         branches := s.branches[b := Branch(Idle, Add(w.kept, Add(w.current, TokensOf(Some(used)))), NONE)])
    case ScoreRejected(b) => s.(branches := s.branches[b := Branch(Idle, Add(w.kept, w.current), NONE)])
    case CapTrip(b) =>
      s.(branches := s.branches[b := Branch(Capped, w.kept, NONE)], lost := Add(s.lost, w.current))
    case Explode(b) => s.(branches := s.branches[b := FRESH], lost := Add(s.lost, Add(w.kept, w.current)))
    case EmployerDone(b) =>
      s.(branches := s.branches[b := w.(phase := Idle, kept := NONE)], reported := Add(s.reported, w.kept))
  }

  function Exec(cfg: Config, s: State, steps: seq<Step>): Option<State> {
    if steps == [] then Some(s)
    else
      var before := Exec(cfg, s, steps[..|steps| - 1]);
      if before.None? || !Enabled(cfg, before.value, steps[|steps| - 1]) then None
      else Some(Apply(before.value, steps[|steps| - 1]))
  }

  lemma {:induction false} ExecSnoc(cfg: Config, s: State, steps: seq<Step>, step: Step)
    requires Exec(cfg, s, steps).Some? && Enabled(cfg, Exec(cfg, s, steps).value, step)
    ensures Exec(cfg, s, steps + [step]) == Some(Apply(Exec(cfg, s, steps).value, step))
  {
    assert (steps + [step])[..|steps|] == steps;
  }

  // --- sums over the branches -----------------------------------------------------------

  function Sum(ws: seq<Branch>, f: Branch -> int): int {
    if ws == [] then 0 else f(ws[0]) + Sum(ws[1..], f)
  }

  lemma {:induction false} SumUpdate(ws: seq<Branch>, f: Branch -> int, i: nat, w: Branch)
    requires i < |ws|
    ensures Sum(ws[i := w], f) == Sum(ws, f) - f(ws[i]) + f(w)
  {
    if i > 0 {
      assert ws[i := w][1..] == ws[1..][i - 1 := w];
      SumUpdate(ws[1..], f, i - 1, w);
    } else {
      assert ws[i := w][1..] == ws[1..];
    }
  }

  lemma {:induction false} SumBound(ws: seq<Branch>, f: Branch -> int, lo: int, hi: int)
    requires forall w :: lo <= f(w) <= hi
    ensures lo * |ws| <= Sum(ws, f) <= hi * |ws|
  {
    if ws != [] {
      SumBound(ws[1..], f, lo, hi);
    }
  }

  function InCall(w: Branch): int {
    if w.phase == Triaging || w.phase == Scoring then 1 else 0
  }

  function HeldIn(w: Branch): int {
    w.kept.tin + w.current.tin
  }

  function HeldOut(w: Branch): int {
    w.kept.tout + w.current.tout
  }

  // Model calls that have been issued and have not returned.
  function InFlight(s: State): int {
    Sum(s.branches, InCall)
  }

  lemma InFlightBound(s: State)
    ensures 0 <= InFlight(s) <= |s.branches|
  {
    SumBound(s.branches, InCall, 0, 1);
  }

  lemma StepSums(cfg: Config, s: State, step: Step)
    requires Enabled(cfg, s, step)
    ensures var s' := Apply(s, step);
            && |s'.branches| == |s.branches|
            && InFlight(s') == InFlight(s) - InCall(s.branches[step.b]) + InCall(s'.branches[step.b])
            && Sum(s'.branches, HeldIn)
               == Sum(s.branches, HeldIn) - HeldIn(s.branches[step.b]) + HeldIn(s'.branches[step.b])
            && Sum(s'.branches, HeldOut)
               == Sum(s.branches, HeldOut) - HeldOut(s.branches[step.b]) + HeldOut(s'.branches[step.b])
  {
    var w := Apply(s, step).branches[step.b];
    assert Apply(s, step).branches == s.branches[step.b := w];
    SumUpdate(s.branches, InCall, step.b, w);
    SumUpdate(s.branches, HeldIn, step.b, w);
    SumUpdate(s.branches, HeldOut, step.b, w);
  }

  // --- the cap ------------------------------------------------------------------------------

  ghost predicate WithinCap(cfg: Config, s: State)
    requires cfg.cap.Some?
  {
    && |s.branches| == cfg.branches
    && s.ledger.spent + InFlight(s) * cfg.maxCost < cfg.cap.value + cfg.branches * cfg.maxCost
  }

  // What one step does to the spend and to the calls in flight.
  lemma StepCost(cfg: Config, s: State, step: Step)
    requires Enabled(cfg, s, step)
    ensures var s' := Apply(s, step);
            && (step.BeginTriage? || step.BeginScore? ==>
                  s'.ledger == s.ledger && !Reached(cfg.cap, s.ledger) && InFlight(s') == InFlight(s) + 1)
            && (step.TriageReturn? || step.ScoreReturn? ==>
                  s'.ledger.spent <= s.ledger.spent + cfg.maxCost && InFlight(s') == InFlight(s) - 1)
            && (!step.BeginTriage? && !step.BeginScore? && !step.TriageReturn? && !step.ScoreReturn? ==>
                  s'.ledger == s.ledger && InFlight(s') <= InFlight(s))
  {
    StepSums(cfg, s, step);
  }

  lemma WithinCapStep(cfg: Config, s: State, step: Step)
    requires cfg.cap.Some? && WithinCap(cfg, s) && Enabled(cfg, s, step)
    ensures WithinCap(cfg, Apply(s, step))
  {
    StepCost(cfg, s, step);
    var s' := Apply(s, step);
    InFlightBound(s');
    var k, k', c := InFlight(s), InFlight(s'), cfg.maxCost;
    if step.BeginTriage? || step.BeginScore? {
      MulMono(k', cfg.branches, c);
    } else if step.TriageReturn? || step.ScoreReturn? {
      OneLess(k, c);
    } else {
      MulMono(k', k, c);
    }
  }

  lemma OneLess(k: int, c: nat)
    ensures (k - 1) * c == k * c - c
  {
  }

  lemma {:induction false} SpendInvariant(cfg: Config, steps: seq<Step>)
    requires cfg.cap.Some? && cfg.cap.value + cfg.branches * cfg.maxCost > 0 && Exec(cfg, Init(cfg), steps).Some?
    ensures WithinCap(cfg, Exec(cfg, Init(cfg), steps).value)
  {
    if steps == [] {
      SumOfFresh(cfg.branches, InCall);
      MulMono(0, cfg.branches, cfg.maxCost);
    } else {
      var init := steps[..|steps| - 1];
      SpendInvariant(cfg, init);
      WithinCapStep(cfg, Exec(cfg, Init(cfg), init).value, steps[|steps| - 1]);
    }
  }

  lemma MulMono(a: int, b: int, c: nat)
    requires a <= b
    ensures a * c <= b * c
  {
  }

  lemma {:induction false} SumOfFresh(n: nat, f: Branch -> int)
    requires f(FRESH) == 0
    ensures Sum(seq(n, _ => FRESH), f) == 0
  {
    if n > 0 {
      assert seq(n, _ => FRESH)[1..] == seq(n - 1, _ => FRESH);
      SumOfFresh(n - 1, f);
    }
  }

  // In every interleaving of N branches the recorded spend stays below the cap
  // plus N calls.
  lemma {:induction false} SpendStaysBelowCapPlusCalls(cfg: Config, steps: seq<Step>)
    requires cfg.cap.Some? && cfg.cap.value + cfg.branches * cfg.maxCost > 0 && Exec(cfg, Init(cfg), steps).Some?
    ensures Exec(cfg, Init(cfg), steps).value.ledger.spent < cfg.cap.value + cfg.branches * cfg.maxCost
  {
    SpendInvariant(cfg, steps);
    var s := Exec(cfg, Init(cfg), steps).value;
    InFlightBound(s);
    MulMono(0, InFlight(s), cfg.maxCost);
  }

  function CallsBegun(steps: seq<Step>): nat {
    if steps == [] then 0
    else CallsBegun(steps[..|steps| - 1])
         + if steps[|steps| - 1].BeginTriage? || steps[|steps| - 1].BeginScore? then 1 else 0
  }

  function CallsReturned(steps: seq<Step>): nat {
    if steps == [] then 0
    else CallsReturned(steps[..|steps| - 1])
         + if steps[|steps| - 1].TriageReturn? || steps[|steps| - 1].ScoreReturn? then 1 else 0
  }

  // Once the cap is reached no call is issued any more, by any branch, and only
  // the calls already under way can still add to the spend.
  lemma {:induction false} NoCallAfterTheCap(cfg: Config, s: State, steps: seq<Step>)
    requires Reached(cfg.cap, s.ledger) && Exec(cfg, s, steps).Some?
    ensures Reached(cfg.cap, Exec(cfg, s, steps).value.ledger)
    ensures CallsBegun(steps) == 0
    ensures CallsReturned(steps) + InFlight(Exec(cfg, s, steps).value) <= InFlight(s) <= |s.branches|
    ensures |Exec(cfg, s, steps).value.branches| == |s.branches|
  {
    InFlightBound(s);
    if steps != [] {
      var init, step := steps[..|steps| - 1], steps[|steps| - 1];
      NoCallAfterTheCap(cfg, s, init);
      StepSums(cfg, Exec(cfg, s, init).value, step);
    }
  }

  // --- "at most one in-flight call" ------------------------------------------------------------

  ghost predicate OvershootBelowOneCall(cfg: Config)
    requires cfg.cap.Some?
  {
    forall steps :: Exec(cfg, Init(cfg), steps).Some? ==>
      Exec(cfg, Init(cfg), steps).value.ledger.spent < cfg.cap.value + cfg.maxCost
  }

  // A call that costs exactly c micro-dollars.
  function CallCosting(c: nat): (u: Usage)
    ensures Cost(u) == c
  {
    Usage("gpt-4.1-nano", 10 * c, 0)
  }

  // The state `steps` leads to, as far as the overshoot is concerned.
  ghost predicate Spent(cfg: Config, steps: seq<Step>, amount: nat, calling: set<nat>) {
    && Exec(cfg, Init(cfg), steps).Some?
    && var s := Exec(cfg, Init(cfg), steps).value;
       && s.ledger.spent == amount
       && |s.branches| == cfg.branches
       && forall i :: 0 <= i < |s.branches| ==>
            s.branches[i].phase == if i in calling then Triaging else Idle
  }

  lemma Issue(cfg: Config, steps: seq<Step>, amount: nat, calling: set<nat>, b: nat)
    requires cfg.cap.Some? && amount < cfg.cap.value && b < cfg.branches && b !in calling
    requires Spent(cfg, steps, amount, calling)
    ensures Spent(cfg, steps + [BeginTriage(b)], amount, calling + {b})
  {
    ExecSnoc(cfg, Init(cfg), steps, BeginTriage(b));
  }

  lemma Return(cfg: Config, steps: seq<Step>, amount: nat, calling: set<nat>, b: nat, cost: nat)
    requires b < cfg.branches && b in calling && cost <= cfg.maxCost
    requires Spent(cfg, steps, amount, calling)
    ensures Spent(cfg, steps + [TriageReturn(b, Some(CallCosting(cost)), false)], amount + cost, calling - {b})
  {
    ExecSnoc(cfg, Init(cfg), steps, TriageReturn(b, Some(CallCosting(cost)), false));
  }

  // One branch alone can bring the spend to any amount up to the cap.
  lemma {:induction false} SpendReaches(cfg: Config, k: nat) returns (steps: seq<Step>)
    requires cfg.cap.Some? && k <= cfg.cap.value && cfg.branches >= 1 && cfg.maxCost >= 1
    ensures Spent(cfg, steps, k, {})
  {
    steps := [];
    if k > 0 {
      steps := SpendReaches(cfg, k - 1);
      Issue(cfg, steps, k - 1, {}, 0);
      steps := steps + [BeginTriage(0)];
      Return(cfg, steps, k - 1, {} + {0}, 0, 1);
      steps := steps + [TriageReturn(0, Some(CallCosting(1)), false)];
      assert {} + {0} - {0} == {};
    }
  }

  // Two calls issued just below the cap end at least one call above it.
  lemma TwoBranchesOvershoot(cfg: Config) returns (steps: seq<Step>)
    requires cfg.cap.Some? && cfg.cap.value > 0 && cfg.branches >= 2 && cfg.maxCost >= 1
    ensures Exec(cfg, Init(cfg), steps).Some?
    ensures Exec(cfg, Init(cfg), steps).value.ledger.spent >= cfg.cap.value + cfg.maxCost
  {
    var below, cost := cfg.cap.value - 1, cfg.maxCost;
    steps := SpendReaches(cfg, below);
    Issue(cfg, steps, below, {}, 0);
    steps := steps + [BeginTriage(0)];
    Issue(cfg, steps, below, {} + {0}, 1);
    steps := steps + [BeginTriage(1)];
    Return(cfg, steps, below, {} + {0} + {1}, 0, cost);
    steps := steps + [TriageReturn(0, Some(CallCosting(cost)), false)];
    Return(cfg, steps, below + cost, {} + {0} + {1} - {0}, 1, cost);
    steps := steps + [TriageReturn(1, Some(CallCosting(cost)), false)];
  }

  lemma {:induction false} NothingReturned(cfg: Config, steps: seq<Step>)
    requires Exec(cfg, Init(cfg), steps).Some? && CallsReturned(steps) == 0
    ensures Exec(cfg, Init(cfg), steps).value.ledger == EMPTY
  {
    if steps != [] {
      NothingReturned(cfg, steps[..|steps| - 1]);
    }
  }

  lemma {:induction false} ZeroCapSpendsNothing(cfg: Config, steps: seq<Step>)
    requires cfg.cap == Some(0) && Exec(cfg, Init(cfg), steps).Some?
    ensures Exec(cfg, Init(cfg), steps).value.ledger == EMPTY
  {
    NoCallAfterTheCap(cfg, Init(cfg), steps);
    SumOfFresh(cfg.branches, InCall);
    InFlightBound(Exec(cfg, Init(cfg), steps).value);
    NothingReturned(cfg, steps);
  }

  // The overshoot stays below one call exactly when branches do not run in
  // parallel, or nothing is ever spent anyway.
  lemma OvershootBelowOneCallIffSequential(cfg: Config)
    requires cfg.cap.Some? && cfg.cap.value + cfg.maxCost > 0
    ensures OvershootBelowOneCall(cfg) <==> cfg.branches <= 1 || cfg.cap.value == 0 || cfg.maxCost == 0
  {
    if cfg.branches <= 1 || cfg.cap.value == 0 || cfg.maxCost == 0 {
      forall steps | Exec(cfg, Init(cfg), steps).Some?
        ensures Exec(cfg, Init(cfg), steps).value.ledger.spent < cfg.cap.value + cfg.maxCost
      {
        OvershootBounded(cfg, steps);
      }
    } else {
      var steps := TwoBranchesOvershoot(cfg);
    }
  }

  lemma {:induction false} OvershootBounded(cfg: Config, steps: seq<Step>)
    requires cfg.cap.Some? && cfg.cap.value + cfg.maxCost > 0 && Exec(cfg, Init(cfg), steps).Some?
    requires cfg.branches <= 1 || cfg.cap.value == 0 || cfg.maxCost == 0
    ensures Exec(cfg, Init(cfg), steps).value.ledger.spent < cfg.cap.value + cfg.maxCost
  {
    if cfg.cap.value == 0 {
      ZeroCapSpendsNothing(cfg, steps);
    } else {
      if cfg.branches <= 1 {
        MulMono(cfg.branches, 1, cfg.maxCost);
      }
      SpendStaysBelowCapPlusCalls(cfg, steps);
    }
  }

  // --- every token is accounted for ---------------------------------------------------------------

  lemma {:induction false} TokensAreConserved(cfg: Config, steps: seq<Step>)
    requires Exec(cfg, Init(cfg), steps).Some?
    ensures var s := Exec(cfg, Init(cfg), steps).value;
            && s.ledger.tokensIn == s.reported.tin + s.lost.tin + Sum(s.branches, HeldIn)
            && s.ledger.tokensOut == s.reported.tout + s.lost.tout + Sum(s.branches, HeldOut)
  {
    if steps == [] {
      SumOfFresh(cfg.branches, HeldIn);
      SumOfFresh(cfg.branches, HeldOut);
    } else {
      var init, step := steps[..|steps| - 1], steps[|steps| - 1];
      TokensAreConserved(cfg, init);
      StepSums(cfg, Exec(cfg, Init(cfg), init).value, step);
    }
  }

  // The sums over the employers' results never exceed the ledger, and once no
  // employer is being processed they differ by exactly the lost usage.
  lemma {:induction false} ResultsNeverExceedTheLedger(cfg: Config, steps: seq<Step>)
    requires Exec(cfg, Init(cfg), steps).Some?
    ensures var s := Exec(cfg, Init(cfg), steps).value;
            && s.reported.tin <= s.ledger.tokensIn
            && s.reported.tout <= s.ledger.tokensOut
            && ((forall i :: 0 <= i < |s.branches| ==> s.branches[i] == FRESH) ==>
                  s.ledger.tokensIn - s.reported.tin == s.lost.tin
                  && s.ledger.tokensOut - s.reported.tout == s.lost.tout)
  {
    TokensAreConserved(cfg, steps);
    var s := Exec(cfg, Init(cfg), steps).value;
    HeldIsNonNegative(s.branches);
    if forall i :: 0 <= i < |s.branches| ==> s.branches[i] == FRESH {
      assert s.branches == seq(|s.branches|, _ => FRESH);
      SumOfFresh(|s.branches|, HeldIn);
      SumOfFresh(|s.branches|, HeldOut);
    }
  }

  lemma {:induction false} HeldIsNonNegative(ws: seq<Branch>)
    ensures Sum(ws, HeldIn) >= 0 && Sum(ws, HeldOut) >= 0
  {
    if ws != [] {
      HeldIsNonNegative(ws[1..]);
    }
  }

  // The ledger itself is the total of the usages recorded so far.
  function Log(steps: seq<Step>): seq<Usage> {
    if steps == [] then []
    else Log(steps[..|steps| - 1]) + LogOf(steps[|steps| - 1])
  }

  function LogOf(step: Step): seq<Usage> {
    if step.TriageReturn? && step.usage.Some? then [step.usage.value]
    else if step.ScoreReturn? then [step.used] else []
  }

  lemma {:induction false} LedgerStep(s: State, step: Step, log: seq<Usage>)
    requires step.b < |s.branches| && s.ledger == Total(log)
    ensures Apply(s, step).ledger == Total(log + LogOf(step))
  {
    var after := log + LogOf(step);
    if LogOf(step) == [] {
      assert after == log;
    } else {
      assert after[..|after| - 1] == log;
    }
  }

  lemma {:induction false} LedgerIsTheTotal(cfg: Config, steps: seq<Step>)
    requires Exec(cfg, Init(cfg), steps).Some?
    ensures Exec(cfg, Init(cfg), steps).value.ledger == Total(Log(steps))
  {
    if steps != [] {
      var init := steps[..|steps| - 1];
      LedgerIsTheTotal(cfg, init);
      LedgerStep(Exec(cfg, Init(cfg), init).value, steps[|steps| - 1], Log(init));
    }
  }
}
