// The overall score: a weighted mean of the assessed dimensions, rounded half
// up to two places, and what rescoring makes of stored dimensions.
module Scoring {
  import opened Common

  // A dimension score as JSON holds it: a number, null, or something else.
  datatype Value = Num(x: real) | Null | Junk

  // The scorer stores {"score": n, "reason": s}; a bare value is tolerated too.
  datatype Stored = Flat(value: Value) | Nested(score: Value)

  datatype Entry = Entry(name: string, stored: Stored)

  // `score_dimensions`, in the order the mapping iterates.
  type Dims = seq<Entry>

  type Weights = map<string, real>

  datatype Assessed = Assessed(name: string, value: Value)

  datatype Overall = Scored(hundredths: int) | Unscoreable | MissingWeight | NotNumeric

  const ROLE_FIT := "role_fit"
  const SENIORITY_FIT := "seniority_fit"
  const EMPLOYER_FIT := "employer_fit"
  const TRAJECTORY := "trajectory"
  const DIMENSIONS := [ROLE_FIT, SENIORITY_FIT, EMPLOYER_FIT, TRAJECTORY]

  lemma DimensionNamesDiffer()
    ensures ROLE_FIT != SENIORITY_FIT && ROLE_FIT != EMPLOYER_FIT && ROLE_FIT != TRAJECTORY
    ensures SENIORITY_FIT != EMPLOYER_FIT && SENIORITY_FIT != TRAJECTORY && EMPLOYER_FIT != TRAJECTORY
  {
    assert ROLE_FIT[0] == 'r' && SENIORITY_FIT[0] == 's' && EMPLOYER_FIT[0] == 'e' && TRAJECTORY[0] == 't';
  }

  function Extract(stored: Stored): Value {
    match stored
    case Flat(value) => value
    case Nested(score) => score
  }

  function StoredScores(dims: Dims): seq<Assessed> {
    seq(|dims|, i requires 0 <= i < |dims| => Assessed(dims[i].name, Extract(dims[i].stored)))
  }

  // --- arithmetic ----------------------------------------------------------------------------------

  // Nearest whole number, halves away from zero.
  function HalfUp(x: real): (n: int)
    ensures x >= 0.0 ==> n as real - 0.5 <= x < n as real + 0.5
    ensures x < 0.0 ==> n as real - 0.5 < x <= n as real + 0.5
  {
    if x >= 0.0 then (x + 0.5).Floor else -((-x + 0.5).Floor)
  }

  lemma HalfUpMono(x: real, y: real)
    requires x <= y
    ensures HalfUp(x) <= HalfUp(y)
  {
  }

  function WeightOf(weights: Weights, name: string): real {
    if name in weights then weights[name] else 0.0
  }

  // What an entry brings to the divisor and to the dividend of the mean.
  datatype Part = Part(share: real, term: real)

  function PartOf(weights: Weights, a: Assessed): Part {
    match a.value
    case Null => Part(0.0, 0.0)
    case Num(x) => Part(WeightOf(weights, a.name), WeightOf(weights, a.name) * x)
    case Junk => Part(WeightOf(weights, a.name), 0.0)
  }

  function Parts(weights: Weights, scores: seq<Assessed>): (ps: seq<Part>)
    ensures |ps| == |scores|
    ensures forall i :: 0 <= i < |ps| ==> ps[i] == PartOf(weights, scores[i])
  {
    seq(|scores|, i requires 0 <= i < |scores| => PartOf(weights, scores[i]))
  }

  function Shares(ps: seq<Part>): real {
    if ps == [] then 0.0 else Shares(ps[..|ps| - 1]) + ps[|ps| - 1].share
  }

  function Terms(ps: seq<Part>): real {
    if ps == [] then 0.0 else Terms(ps[..|ps| - 1]) + ps[|ps| - 1].term
  }

  function TotalWeight(weights: Weights, scores: seq<Assessed>): real {
    Shares(Parts(weights, scores))
  }

  function Weighted(weights: Weights, scores: seq<Assessed>): real {
    Terms(Parts(weights, scores))
  }

  // The stored score of a quotient.
  function Rounded(w: real, t: real): int
    requires t != 0.0
  {
    HalfUp(100.0 * (w / t))
  }

  function ComputeOverall(scores: seq<Assessed>, weights: Weights): Overall {
    if exists i :: 0 <= i < |scores| && scores[i].name !in weights then MissingWeight
    else if TotalWeight(weights, scores) == 0.0 then Unscoreable
    else if exists i :: 0 <= i < |scores| && scores[i].value == Junk then NotNumeric
    else Scored(Rounded(Weighted(weights, scores), TotalWeight(weights, scores)))
  }

  // --- stored dimensions -----------------------------------------------------------------------------

  // The value stored under a rubric dimension; a missing one is null.
  function Lookup(dims: Dims, name: string): Value {
    if dims == [] then Null
    else if dims[0].name == name then Extract(dims[0].stored)
    else Lookup(dims[1..], name)
  }

  lemma {:induction false} LookupOther(entry: Entry, name: string)
    requires entry.name != name
    ensures Lookup([entry], name) == Null
  {
    assert [entry][1..] == [];
  }

  function RescorerScores(dims: Dims): seq<Assessed> {
    [Assessed(ROLE_FIT, Lookup(dims, ROLE_FIT)), Assessed(SENIORITY_FIT, Lookup(dims, SENIORITY_FIT)),
     Assessed(EMPLOYER_FIT, Lookup(dims, EMPLOYER_FIT)), Assessed(TRAJECTORY, Lookup(dims, TRAJECTORY))]
  }

  // The overall score the rescorer leaves: a new one, or the old one when the
  // stored dimensions give none.
  function NewOverall(dims: Dims, weights: Weights, was: Option<int>): Option<int> {
    var overall := ComputeOverall(RescorerScores(dims), weights);
    if overall.Scored? then Some(overall.hundredths) else was
  }

  // A stored value that is not a number aborts the rescoring.
  predicate BreaksRescoring(dims: Dims, weights: Weights) {
    ComputeOverall(RescorerScores(dims), weights).NotNumeric?
  }

  ghost predicate NonNegative(weights: Weights) {
    forall name :: name in weights ==> weights[name] >= 0.0
  }

  lemma SumOfFour(a: Part, b: Part, c: Part, d: Part)
    ensures Shares([a, b, c, d]) == a.share + b.share + c.share + d.share
    ensures Terms([a, b, c, d]) == a.term + b.term + c.term + d.term
  {
    assert [a, b, c, d][..3] == [a, b, c] && [a, b, c][..2] == [a, b] && [a, b][..1] == [a] && [a][..0] == [];
    assert Shares([a]) == a.share && Terms([a]) == a.term;
    assert Shares([a, b]) == a.share + b.share && Terms([a, b]) == a.term + b.term;
    assert Shares([a, b, c]) == a.share + b.share + c.share && Terms([a, b, c]) == a.term + b.term + c.term;
  }

  lemma {:induction false} SharesAreNonNegative(ps: seq<Part>)
    requires forall i :: 0 <= i < |ps| ==> ps[i].share >= 0.0
    ensures Shares(ps) >= 0.0
  {
    if ps != [] {
      SharesAreNonNegative(ps[..|ps| - 1]);
    }
  }

  lemma TotalIsNonNegative(weights: Weights, scores: seq<Assessed>)
    requires NonNegative(weights)
    ensures TotalWeight(weights, scores) >= 0.0
  {
    SharesAreNonNegative(Parts(weights, scores));
  }

  lemma MulMono(k: real, x: real, y: real)
    requires k >= 0.0 && x <= y
    ensures k * x <= k * y
  {
  }

  lemma Distribute(k: real, x: real, y: real)
    ensures k * (x + y) == k * x + k * y
  {
  }

  lemma DivMono(x: real, y: real, t: real)
    requires t > 0.0 && x <= y
    ensures x / t <= y / t
  {
  }

  lemma QuotientBounds(w: real, t: real, lo: real, hi: real)
    requires t > 0.0 && lo * t <= w <= hi * t
    ensures lo <= w / t <= hi
  {
    assert lo * t / t == lo && hi * t / t == hi;
    DivMono(lo * t, w, t);
    DivMono(w, hi * t, t);
  }

  lemma RoundedMono(w: real, t: real, w': real, t': real)
    requires t != 0.0 && t' != 0.0 && w / t <= w' / t'
    ensures Rounded(w, t) <= Rounded(w', t')
  {
    HalfUpMono(100.0 * (w / t), 100.0 * (w' / t'));
  }

  predicate AtLeast(p: Part, k: real) {
    k * p.share <= p.term
  }

  predicate AtMost(p: Part, k: real) {
    p.term <= k * p.share
  }

  lemma {:induction false} PartsAtLeast(ps: seq<Part>, k: real)
    requires forall i :: 0 <= i < |ps| ==> AtLeast(ps[i], k)
    ensures k * Shares(ps) <= Terms(ps)
  {
    if ps != [] {
      var init, last := ps[..|ps| - 1], ps[|ps| - 1];
      PartsAtLeast(init, k);
      assert AtLeast(last, k);
      Distribute(k, Shares(init), last.share);
    }
  }

  lemma {:induction false} PartsAtMost(ps: seq<Part>, k: real)
    requires forall i :: 0 <= i < |ps| ==> AtMost(ps[i], k)
    ensures Terms(ps) <= k * Shares(ps)
  {
    if ps != [] {
      var init, last := ps[..|ps| - 1], ps[|ps| - 1];
      PartsAtMost(init, k);
      assert AtMost(last, k);
      Distribute(k, Shares(init), last.share);
    }
  }

  lemma PartAtLeast(weights: Weights, a: Assessed, lo: real)
    requires NonNegative(weights) && a.value != Junk && (a.value.Num? ==> lo <= a.value.x)
    ensures AtLeast(PartOf(weights, a), lo)
  {
    if a.value.Num? {
      MulMono(WeightOf(weights, a.name), lo, a.value.x);
    }
  }

  lemma PartAtMost(weights: Weights, a: Assessed, hi: real)
    requires NonNegative(weights) && a.value != Junk && (a.value.Num? ==> a.value.x <= hi)
    ensures AtMost(PartOf(weights, a), hi)
  {
    if a.value.Num? {
      MulMono(WeightOf(weights, a.name), a.value.x, hi);
    }
  }

  lemma WeightedAtLeast(scores: seq<Assessed>, weights: Weights, lo: real)
    requires NonNegative(weights)
    requires forall i :: 0 <= i < |scores| ==>
               scores[i].value != Junk && (scores[i].value.Num? ==> lo <= scores[i].value.x)
    ensures lo * TotalWeight(weights, scores) <= Weighted(weights, scores)
  {
    forall i | 0 <= i < |scores|
      ensures AtLeast(PartOf(weights, scores[i]), lo)
    {
      PartAtLeast(weights, scores[i], lo);
    }
    PartsAtLeast(Parts(weights, scores), lo);
  }

  lemma WeightedAtMost(scores: seq<Assessed>, weights: Weights, hi: real)
    requires NonNegative(weights)
    requires forall i :: 0 <= i < |scores| ==>
               scores[i].value != Junk && (scores[i].value.Num? ==> scores[i].value.x <= hi)
    ensures Weighted(weights, scores) <= hi * TotalWeight(weights, scores)
  {
    forall i | 0 <= i < |scores|
      ensures AtMost(PartOf(weights, scores[i]), hi)
    {
      PartAtMost(weights, scores[i], hi);
    }
    PartsAtMost(Parts(weights, scores), hi);
  }

  // --- the score as a mean ------------------------------------------------------------------------------

  lemma RoundedBounds(w: real, t: real, lo: real, hi: real)
    requires t > 0.0 && lo * t <= w <= hi * t
    ensures HalfUp(100.0 * lo) <= Rounded(w, t) <= HalfUp(100.0 * hi)
  {
    QuotientBounds(w, t, lo, hi);
    HalfUpMono(100.0 * lo, 100.0 * (w / t));
    HalfUpMono(100.0 * (w / t), 100.0 * hi);
  }

  // The overall score lies between the lowest and the highest assessed score.
  lemma OverallIsBetween(scores: seq<Assessed>, weights: Weights, lo: real, hi: real)
    requires NonNegative(weights) && ComputeOverall(scores, weights).Scored?
    requires forall i :: 0 <= i < |scores| && scores[i].value.Num? ==> lo <= scores[i].value.x <= hi
    ensures HalfUp(100.0 * lo) <= ComputeOverall(scores, weights).hundredths <= HalfUp(100.0 * hi)
    ensures 100.0 * lo - 0.5 <= ComputeOverall(scores, weights).hundredths as real <= 100.0 * hi + 0.5
  {
    TotalIsNonNegative(weights, scores);
    WeightedAtLeast(scores, weights, lo);
    WeightedAtMost(scores, weights, hi);
    RoundedBounds(Weighted(weights, scores), TotalWeight(weights, scores), lo, hi);
  }

  // n is the nearest whole number to q, the farther from zero of two nearest.
  predicate IsNearest(n: int, q: real) {
    && (q >= 0.0 ==> n as real - 0.5 <= q < n as real + 0.5)
    && (q < 0.0 ==> n as real - 0.5 < q <= n as real + 0.5)
  }

  // A score is the weighted mean, in hundredths, to the nearest whole one.
  lemma OverallIsNearest(scores: seq<Assessed>, weights: Weights)
    requires ComputeOverall(scores, weights).Scored?
    ensures TotalWeight(weights, scores) != 0.0
    ensures IsNearest(ComputeOverall(scores, weights).hundredths,
                      100.0 * (Weighted(weights, scores) / TotalWeight(weights, scores)))
  {
  }

  // The mean of the four rubric dimensions, written out.
  predicate AllWeighted(weights: Weights) {
    ROLE_FIT in weights && SENIORITY_FIT in weights && EMPLOYER_FIT in weights && TRAJECTORY in weights
  }

  function SumOfWeights(weights: Weights): real
    requires AllWeighted(weights)
  {
    weights[ROLE_FIT] + weights[SENIORITY_FIT] + weights[EMPLOYER_FIT] + weights[TRAJECTORY]
  }

  function WeightedSum(weights: Weights, role: real, seniority: real, employer: real, trajectory: real): real
    requires AllWeighted(weights)
  {
    weights[ROLE_FIT] * role + weights[SENIORITY_FIT] * seniority
    + weights[EMPLOYER_FIT] * employer + weights[TRAJECTORY] * trajectory
  }

  lemma OverallOfFour(weights: Weights, role: real, seniority: real, employer: real, trajectory: real)
    requires AllWeighted(weights)
    ensures var scores := [Assessed(ROLE_FIT, Num(role)), Assessed(SENIORITY_FIT, Num(seniority)),
                           Assessed(EMPLOYER_FIT, Num(employer)), Assessed(TRAJECTORY, Num(trajectory))];
            var overall, t := ComputeOverall(scores, weights), SumOfWeights(weights);
            if t == 0.0 then overall == Unscoreable
            else
              && overall.Scored?
              && IsNearest(overall.hundredths,
                           100.0 * (WeightedSum(weights, role, seniority, employer, trajectory) / t))
  {
    var scores := [Assessed(ROLE_FIT, Num(role)), Assessed(SENIORITY_FIT, Num(seniority)),
                   Assessed(EMPLOYER_FIT, Num(employer)), Assessed(TRAJECTORY, Num(trajectory))];
    NumPart(weights, ROLE_FIT, role);
    NumPart(weights, SENIORITY_FIT, seniority);
    NumPart(weights, EMPLOYER_FIT, employer);
    NumPart(weights, TRAJECTORY, trajectory);
    var ps := Parts(weights, scores);
    assert ps == [ps[0], ps[1], ps[2], ps[3]];
    SumOfFour(ps[0], ps[1], ps[2], ps[3]);
    var w, t := WeightedSum(weights, role, seniority, employer, trajectory), SumOfWeights(weights);
    assert TotalWeight(weights, scores) == t && Weighted(weights, scores) == w;
    if t != 0.0 {
      RoundedIsNearest(Weighted(weights, scores), TotalWeight(weights, scores), w, t);
      assert ComputeOverall(scores, weights)
             == Scored(Rounded(Weighted(weights, scores), TotalWeight(weights, scores)));
    }
  }

  lemma NumPart(weights: Weights, name: string, x: real)
    requires name in weights
    ensures PartOf(weights, Assessed(name, Num(x))) == Part(weights[name], weights[name] * x)
  {
    assert WeightOf(weights, name) == weights[name];
  }

  lemma RoundedIsNearest(w: real, t: real, w': real, t': real)
    requires w == w' && t == t' && t != 0.0
    ensures IsNearest(Rounded(w, t), 100.0 * (w' / t'))
  {
  }

  ghost predicate SomeMissing(scores: seq<Assessed>, weights: Weights) {
    exists i :: 0 <= i < |scores| && scores[i].name !in weights
  }

  ghost predicate SomeJunk(scores: seq<Assessed>) {
    exists i :: 0 <= i < |scores| && scores[i].value == Junk
  }

  lemma {:induction false} SharesAreZeroExactly(ps: seq<Part>)
    requires forall i :: 0 <= i < |ps| ==> ps[i].share >= 0.0
    ensures Shares(ps) == 0.0 <==> forall i :: 0 <= i < |ps| ==> ps[i].share == 0.0
  {
    if ps != [] {
      SharesAreNonNegative(ps[..|ps| - 1]);
      SharesAreZeroExactly(ps[..|ps| - 1]);
    }
  }

  // A dimension without a weight is an error, assessed or not; there is no score
  // exactly when no dimension was assessed under a weight of its own.
  lemma NoScoreExactly(scores: seq<Assessed>, weights: Weights)
    requires NonNegative(weights)
    ensures ComputeOverall(scores, weights) == MissingWeight <==> SomeMissing(scores, weights)
    ensures !SomeMissing(scores, weights) ==>
              (ComputeOverall(scores, weights) == Unscoreable <==>
               forall a :: a in scores ==> a.value == Null || weights[a.name] == 0.0)
  {
    var ps := Parts(weights, scores);
    SharesAreZeroExactly(ps);
    assert forall i :: 0 <= i < |scores| ==> scores[i] in scores;
  }

  lemma OverallBySums(a: seq<Assessed>, b: seq<Assessed>, weights: Weights)
    requires TotalWeight(weights, a) == TotalWeight(weights, b) && Weighted(weights, a) == Weighted(weights, b)
    requires (SomeMissing(a, weights) <==> SomeMissing(b, weights)) && (SomeJunk(a) <==> SomeJunk(b))
    ensures ComputeOverall(a, weights) == ComputeOverall(b, weights)
  {
  }

  lemma TroublesConcat(a: seq<Assessed>, b: seq<Assessed>, weights: Weights)
    ensures SomeMissing(a + b, weights) <==> SomeMissing(a, weights) || SomeMissing(b, weights)
    ensures SomeJunk(a + b) <==> SomeJunk(a) || SomeJunk(b)
  {
    var all := a + b;
    assert forall k :: 0 <= k < |a| ==> all[k] == a[k];
    assert forall k :: 0 <= k < |b| ==> all[|a| + k] == b[k];
    assert forall k :: |a| <= k < |all| ==> all[k] == b[k - |a|];
  }

  lemma TroublesWithout(scores: seq<Assessed>, weights: Weights, i: nat)
    requires i < |scores| && scores[i].value == Null && scores[i].name in weights
    ensures var rest := scores[..i] + scores[i + 1..];
            (SomeMissing(rest, weights) <==> SomeMissing(scores, weights)) && (SomeJunk(rest) <==> SomeJunk(scores))
  {
    var before, after := scores[..i], scores[i + 1..];
    assert scores == before + [scores[i]] + after;
    TroublesConcat(before, after, weights);
    TroublesConcat(before, [scores[i]], weights);
    TroublesConcat(before + [scores[i]], after, weights);
  }

  // An unassessed dimension is left out of the mean, not counted as some value.
  lemma NullIsLeftOut(scores: seq<Assessed>, weights: Weights, i: nat)
    requires i < |scores| && scores[i].value == Null && scores[i].name in weights
    ensures ComputeOverall(scores[..i] + scores[i + 1..], weights) == ComputeOverall(scores, weights)
  {
    var rest := scores[..i] + scores[i + 1..];
    SumsWithout(scores, weights, i);
    TroublesWithout(scores, weights, i);
    OverallBySums(rest, scores, weights);
  }

  // A mean of 3.666... is stored as 3.67.
  lemma TwoThirdsRoundUp()
    ensures var weights: Weights := map[ROLE_FIT := 1.0, SENIORITY_FIT := 1.0, EMPLOYER_FIT := 1.0, TRAJECTORY := 0.0];
            var scores := [Assessed(ROLE_FIT, Num(4.0)), Assessed(SENIORITY_FIT, Num(4.0)),
                           Assessed(EMPLOYER_FIT, Num(3.0)), Assessed(TRAJECTORY, Num(1.0))];
            ComputeOverall(scores, weights) == Scored(367)
  {
    DimensionNamesDiffer();
    var weights: Weights := map[ROLE_FIT := 1.0, SENIORITY_FIT := 1.0, EMPLOYER_FIT := 1.0, TRAJECTORY := 0.0];
    OverallOfFour(weights, 4.0, 4.0, 3.0, 1.0);
    assert 100.0 * (11.0 / 3.0) > 366.5;
    assert 100.0 * (11.0 / 3.0) < 367.5;
  }

  function Scale(weights: Weights, k: real): Weights {
    map name | name in weights :: k * weights[name]
  }

  function ScalePart(p: Part, k: real): Part {
    Part(k * p.share, k * p.term)
  }

  function ScaleParts(ps: seq<Part>, k: real): seq<Part> {
    seq(|ps|, i requires 0 <= i < |ps| => ScalePart(ps[i], k))
  }

  lemma {:induction false} PartsScaled(ps: seq<Part>, k: real)
    ensures Shares(ScaleParts(ps, k)) == k * Shares(ps)
    ensures Terms(ScaleParts(ps, k)) == k * Terms(ps)
  {
    if ps != [] {
      var init, last := ps[..|ps| - 1], ps[|ps| - 1];
      PartsScaled(init, k);
      var scaled := ScaleParts(ps, k);
      assert scaled[..|ps| - 1] == ScaleParts(init, k) && scaled[|ps| - 1] == ScalePart(last, k);
      assert Shares(scaled) == Shares(ScaleParts(init, k)) + k * last.share;
      assert Terms(scaled) == Terms(ScaleParts(init, k)) + k * last.term;
      Distribute(k, Shares(init), last.share);
      Distribute(k, Terms(init), last.term);
    }
  }

  lemma ScaledPart(weights: Weights, a: Assessed, k: real)
    ensures PartOf(Scale(weights, k), a) == ScalePart(PartOf(weights, a), k)
  {
    if a.value.Num? && a.name in weights {
      assert k * weights[a.name] * a.value.x == k * (weights[a.name] * a.value.x);
    }
  }

  lemma ScaledQuotient(w: real, t: real, k: real, w': real, t': real)
    requires k > 0.0 && w' == k * w && t' == k * t
    ensures t' == 0.0 <==> t == 0.0
    ensures t != 0.0 ==> Rounded(w', t') == Rounded(w, t)
  {
    if t == 0.0 {
      assert k * t == 0.0;
    } else {
      var q := w / t;
      assert q * t == w;
      assert k * t != 0.0;
      CancelQuotient(w', t', q);
    }
  }

  lemma CancelQuotient(w: real, t: real, q: real)
    requires t != 0.0 && w == q * t
    ensures w / t == q
  {
  }

  lemma ScaledParts(scores: seq<Assessed>, weights: Weights, k: real)
    ensures Parts(Scale(weights, k), scores) == ScaleParts(Parts(weights, scores), k)
  {
    forall i | 0 <= i < |scores|
      ensures PartOf(Scale(weights, k), scores[i]) == ScalePart(PartOf(weights, scores[i]), k)
    {
      ScaledPart(weights, scores[i], k);
    }
  }

  lemma {:induction false} RatioOfScaled(ps: seq<Part>, k: real)
    requires k > 0.0
    ensures var qs := ScaleParts(ps, k);
            && (Shares(qs) == 0.0 <==> Shares(ps) == 0.0)
            && (Shares(ps) != 0.0 ==> Rounded(Terms(qs), Shares(qs)) == Rounded(Terms(ps), Shares(ps)))
  {
    PartsScaled(ps, k);
    ScaledQuotient(Terms(ps), Shares(ps), k, Terms(ScaleParts(ps, k)), Shares(ScaleParts(ps, k)));
  }

  lemma ScaledRatio(scores: seq<Assessed>, weights: Weights, k: real)
    requires k > 0.0
    ensures var w, t := Weighted(weights, scores), TotalWeight(weights, scores);
            var w', t' := Weighted(Scale(weights, k), scores), TotalWeight(Scale(weights, k), scores);
            && (t' == 0.0 <==> t == 0.0)
            && (t != 0.0 ==> Rounded(w', t') == Rounded(w, t))
  {
    ScaledParts(scores, weights, k);
    RatioOfScaled(Parts(weights, scores), k);
  }

  // Only the proportions of the weights matter.
  lemma ScalingIsInvisible(scores: seq<Assessed>, weights: Weights, k: real)
    requires k > 0.0
    ensures ComputeOverall(scores, Scale(weights, k)) == ComputeOverall(scores, weights)
  {
    ScaledRatio(scores, weights, k);
  }

  // `better` assesses the same dimensions, none of them lower.
  ghost predicate NoLower(scores: seq<Assessed>, better: seq<Assessed>) {
    && |better| == |scores|
    && forall i :: 0 <= i < |scores| ==>
         && better[i].name == scores[i].name
         && (better[i].value == scores[i].value
             || (better[i].value.Num? && scores[i].value.Num? && scores[i].value.x <= better[i].value.x))
  }

  lemma {:induction false} PartsBetter(ps: seq<Part>, qs: seq<Part>)
    requires |qs| == |ps|
    requires forall i :: 0 <= i < |ps| ==> qs[i].share == ps[i].share && ps[i].term <= qs[i].term
    ensures Shares(qs) == Shares(ps) && Terms(ps) <= Terms(qs)
  {
    if ps != [] {
      PartsBetter(ps[..|ps| - 1], qs[..|ps| - 1]);
    }
  }

  lemma BetterSums(scores: seq<Assessed>, better: seq<Assessed>, weights: Weights)
    requires NonNegative(weights) && NoLower(scores, better)
    ensures TotalWeight(weights, better) == TotalWeight(weights, scores)
    ensures Weighted(weights, scores) <= Weighted(weights, better)
  {
    var ps, qs := Parts(weights, scores), Parts(weights, better);
    forall i | 0 <= i < |scores|
      ensures qs[i].share == ps[i].share && ps[i].term <= qs[i].term
    {
      if scores[i].value.Num? && better[i].value.Num? {
        MulMono(WeightOf(weights, scores[i].name), scores[i].value.x, better[i].value.x);
      }
    }
    PartsBetter(ps, qs);
  }

  lemma OverallIsMonotone(scores: seq<Assessed>, better: seq<Assessed>, weights: Weights)
    requires NonNegative(weights) && NoLower(scores, better) && ComputeOverall(scores, weights).Scored?
    ensures ComputeOverall(better, weights).Scored?
    ensures ComputeOverall(scores, weights).hundredths <= ComputeOverall(better, weights).hundredths
  {
    BetterSums(scores, better, weights);
    TotalIsNonNegative(weights, scores);
    var t := TotalWeight(weights, scores);
    DivMono(Weighted(weights, scores), Weighted(weights, better), t);
    RoundedMono(Weighted(weights, scores), t, Weighted(weights, better), t);
    assert forall i :: 0 <= i < |better| ==> better[i].name == scores[i].name;
  }

  // --- raising the weight of the lowest dimension ----------------------------------------------------------

  ghost predicate DistinctNames(scores: seq<Assessed>) {
    forall i, j :: 0 <= i < j < |scores| ==> scores[i].name != scores[j].name
  }

  // Entry d is assessed, and nothing assessed is lower.
  ghost predicate IsLowest(scores: seq<Assessed>, d: nat) {
    && d < |scores| && scores[d].value.Num?
    && forall a :: a in scores && a.value.Num? ==> scores[d].value.x <= a.value.x
  }

  function Raise(weights: Weights, name: string, delta: real): Weights {
    weights[name := WeightOf(weights, name) + delta]
  }

  lemma {:induction false} PartsRaised(ps: seq<Part>, d: nat, share: real, term: real)
    requires d < |ps|
    ensures var qs := ps[d := Part(ps[d].share + share, ps[d].term + term)];
            Shares(qs) == Shares(ps) + share && Terms(qs) == Terms(ps) + term
  {
    var n := |ps| - 1;
    var qs := ps[d := Part(ps[d].share + share, ps[d].term + term)];
    if d == n {
      assert qs[..n] == ps[..n];
    } else {
      assert qs[..n] == ps[..n][d := qs[d]];
      PartsRaised(ps[..n], d, share, term);
    }
  }

  lemma RaisedPart(weights: Weights, a: Assessed, delta: real)
    requires a.value.Num?
    ensures var p := PartOf(weights, a);
            PartOf(Raise(weights, a.name, delta), a) == Part(p.share + delta, p.term + delta * a.value.x)
  {
    Distribute(a.value.x, WeightOf(weights, a.name), delta);
  }

  lemma KeptPart(weights: Weights, a: Assessed, name: string, delta: real)
    requires a.name != name
    ensures PartOf(Raise(weights, name, delta), a) == PartOf(weights, a)
  {
  }

  lemma RaisedParts(scores: seq<Assessed>, weights: Weights, d: nat, delta: real)
    requires d < |scores| && DistinctNames(scores) && scores[d].value.Num?
    ensures var ps := Parts(weights, scores);
            Parts(Raise(weights, scores[d].name, delta), scores)
            == ps[d := Part(ps[d].share + delta, ps[d].term + delta * scores[d].value.x)]
  {
    RaisedPart(weights, scores[d], delta);
    forall i | 0 <= i < |scores| && i != d
      ensures PartOf(Raise(weights, scores[d].name, delta), scores[i]) == PartOf(weights, scores[i])
    {
      KeptPart(weights, scores[i], scores[d].name, delta);
    }
    var ps, qs := Parts(weights, scores), Parts(Raise(weights, scores[d].name, delta), scores);
    var rs := ps[d := Part(ps[d].share + delta, ps[d].term + delta * scores[d].value.x)];
    assert |qs| == |rs| && forall i :: 0 <= i < |qs| ==> qs[i] == rs[i];
  }

  lemma RaisedSums(scores: seq<Assessed>, weights: Weights, d: nat, delta: real)
    requires d < |scores| && DistinctNames(scores) && scores[d].value.Num?
    ensures var raised := Raise(weights, scores[d].name, delta);
            && TotalWeight(raised, scores) == TotalWeight(weights, scores) + delta
            && Weighted(raised, scores) == Weighted(weights, scores) + delta * scores[d].value.x
  {
    RaisedParts(scores, weights, d, delta);
    PartsRaised(Parts(weights, scores), d, delta, delta * scores[d].value.x);
  }

  lemma DilutedMean(w: real, t: real, x: real, delta: real)
    requires t > 0.0 && delta > 0.0 && x * t <= w
    ensures (w + delta * x) / (t + delta) <= w / t
  {
    var q := w / t;
    assert q * t == w;
    assert x <= q by {
      assert x * t / t == x;
      DivMono(x * t, w, t);
    }
    MulMono(delta, x, q);
    Distribute(q, t, delta);
    DivMono(w + delta * x, q * (t + delta), t + delta);
    CancelQuotient(q * (t + delta), t + delta, q);
  }

  lemma LoweredScore(w: real, t: real, x: real, delta: real, w': real, t': real)
    requires t > 0.0 && delta > 0.0 && x * t <= w
    requires w' == w + delta * x && t' == t + delta
    ensures Rounded(w', t') <= Rounded(w, t)
  {
    DilutedMean(w, t, x, delta);
    RoundedMono(w', t', w, t);
  }

  lemma RaisedRatio(scores: seq<Assessed>, weights: Weights, d: nat, delta: real)
    requires NonNegative(weights) && DistinctNames(scores) && IsLowest(scores, d) && delta > 0.0
    requires TotalWeight(weights, scores) != 0.0 && forall i :: 0 <= i < |scores| ==> scores[i].value != Junk
    ensures var raised := Raise(weights, scores[d].name, delta);
            && TotalWeight(raised, scores) != 0.0
            && Rounded(Weighted(raised, scores), TotalWeight(raised, scores))
               <= Rounded(Weighted(weights, scores), TotalWeight(weights, scores))
  {
    var raised := Raise(weights, scores[d].name, delta);
    RaisedSums(scores, weights, d, delta);
    TotalIsNonNegative(weights, scores);
    forall i | 0 <= i < |scores| && scores[i].value.Num?
      ensures scores[d].value.x <= scores[i].value.x
    {
      assert scores[i] in scores;
    }
    WeightedAtLeast(scores, weights, scores[d].value.x);
    LoweredScore(Weighted(weights, scores), TotalWeight(weights, scores), scores[d].value.x, delta,
                 Weighted(raised, scores), TotalWeight(raised, scores));
  }

  // Raising the weight of a job's lowest dimension never raises its score.
  lemma RaisingTheLowestNeverHelps(scores: seq<Assessed>, weights: Weights, d: nat, delta: real)
    requires NonNegative(weights) && DistinctNames(scores) && IsLowest(scores, d) && delta > 0.0
    requires ComputeOverall(scores, weights).Scored?
    ensures var raised := Raise(weights, scores[d].name, delta);
            && ComputeOverall(scores, raised).Scored?
            && ComputeOverall(scores, raised).hundredths <= ComputeOverall(scores, weights).hundredths
  {
    RaisedRatio(scores, weights, d, delta);
  }

  function Mean(w: real, t: real): real
    requires t != 0.0
  {
    w / t
  }

  lemma StrictQuotient(w: real, t: real, q: real)
    requires t > 0.0 && q * t < w
    ensures q < w / t
  {
    assert w / t * t == w;
    CancelFactor(t, q, w / t);
  }

  lemma CancelFactor(t: real, x: real, y: real)
    requires t > 0.0 && x * t < y * t
    ensures x < y
  {
  }

  lemma DilutedMeanExactly(w: real, t: real, x: real, delta: real)
    requires t > 0.0 && delta > 0.0
    ensures Mean(w + delta * x, t + delta) <= Mean(w, t) <==> x <= Mean(w, t)
  {
    var q := w / t;
    assert q * t == w;
    if x <= q {
      MulMono(t, x, q);
      DilutedMean(w, t, x, delta);
    } else {
      assert delta * (x - q) > 0.0;
      Distribute(q, t, delta);
      assert delta * (x - q) == delta * x - delta * q;
      StrictQuotient(w + delta * x, t + delta, q);
    }
  }

  lemma MeanOfEqual(w: real, t: real, w': real, t': real)
    requires t != 0.0 && w == w' && t == t'
    ensures Mean(w, t) == Mean(w', t')
  {
  }

  // Raising any one weight raises the unrounded mean exactly when the score of
  // that dimension is above it.
  lemma RaisingHelpsExactly(scores: seq<Assessed>, weights: Weights, d: nat, delta: real)
    requires NonNegative(weights) && DistinctNames(scores) && delta > 0.0
    requires d < |scores| && scores[d].value.Num? && TotalWeight(weights, scores) != 0.0
    ensures var raised := Raise(weights, scores[d].name, delta);
            && TotalWeight(raised, scores) != 0.0
            && (Mean(Weighted(raised, scores), TotalWeight(raised, scores))
                  > Mean(Weighted(weights, scores), TotalWeight(weights, scores)) <==>
                scores[d].value.x > Mean(Weighted(weights, scores), TotalWeight(weights, scores)))
  {
    TotalIsNonNegative(weights, scores);
    RaisedSums(scores, weights, d, delta);
    var w, t, x := Weighted(weights, scores), TotalWeight(weights, scores), scores[d].value.x;
    DilutedMeanExactly(w, t, x, delta);
    var raised := Raise(weights, scores[d].name, delta);
    MeanOfEqual(Weighted(raised, scores), TotalWeight(raised, scores), w + delta * x, t + delta);
  }

  // --- the order of the mapping does not matter ---------------------------------------------------------------

  lemma {:induction false} PartsWithout(ps: seq<Part>, i: nat)
    requires i < |ps|
    ensures Shares(ps) == Shares(ps[..i] + ps[i + 1..]) + ps[i].share
    ensures Terms(ps) == Terms(ps[..i] + ps[i + 1..]) + ps[i].term
  {
    var n := |ps| - 1;
    var rest := ps[..i] + ps[i + 1..];
    if i == n {
      assert rest == ps[..n];
    } else {
      assert rest[..|rest| - 1] == ps[..n][..i] + ps[..n][i + 1..];
      assert rest[|rest| - 1] == ps[n];
      PartsWithout(ps[..n], i);
    }
  }

  // The same assessments, in whatever order the two mappings iterate.
  ghost predicate SameEntries(a: seq<Assessed>, b: seq<Assessed>) {
    && |a| == |b| && DistinctNames(a) && DistinctNames(b)
    && (forall x :: x in a <==> x in b)
  }

  lemma SameEntriesWithout(a: seq<Assessed>, b: seq<Assessed>, i: nat)
    requires SameEntries(a, b) && a != [] && i < |b| && b[i] == a[|a| - 1]
    ensures SameEntries(a[..|a| - 1], b[..i] + b[i + 1..])
  {
    var n := |a| - 1;
    var rest := b[..i] + b[i + 1..];
    forall x | x in a[..n]
      ensures x in rest
    {
      var j :| 0 <= j < n && a[j] == x;
      assert a[j].name != a[n].name && x in b;
      var k :| 0 <= k < |b| && b[k] == x;
      assert x == rest[if k < i then k else k - 1];
    }
    forall x | x in rest
      ensures x in a[..n]
    {
      var j :| 0 <= j < |rest| && rest[j] == x;
      var k := if j < i then j else j + 1;
      assert b[k] == x && b[k].name != b[i].name && x in a;
      var m :| 0 <= m < |a| && a[m] == x;
      assert x == a[..n][m];
    }
  }

  lemma SumsWithout(scores: seq<Assessed>, weights: Weights, i: nat)
    requires i < |scores|
    ensures var rest := scores[..i] + scores[i + 1..];
            && TotalWeight(weights, scores) == TotalWeight(weights, rest) + PartOf(weights, scores[i]).share
            && Weighted(weights, scores) == Weighted(weights, rest) + PartOf(weights, scores[i]).term
  {
    var ps := Parts(weights, scores);
    assert Parts(weights, scores[..i] + scores[i + 1..]) == ps[..i] + ps[i + 1..];
    PartsWithout(ps, i);
  }

  lemma {:induction false} SumsOfSameEntries(a: seq<Assessed>, b: seq<Assessed>, weights: Weights)
    requires SameEntries(a, b)
    ensures TotalWeight(weights, a) == TotalWeight(weights, b)
    ensures Weighted(weights, a) == Weighted(weights, b)
    decreases |a|
  {
    if |a| > 0 {
      var n := |a| - 1;
      assert a[n] in b;
      var i :| 0 <= i < |b| && b[i] == a[n];
      SameEntriesWithout(a, b, i);
      SumsOfSameEntries(a[..n], b[..i] + b[i + 1..], weights);
      SumsWithout(b, weights, i);
      SumsWithout(a, weights, n);
      assert a[..n] + a[n + 1..] == a[..n];
    }
  }

  lemma SameTroubles(a: seq<Assessed>, b: seq<Assessed>, weights: Weights)
    requires SameEntries(a, b)
    ensures (exists i :: 0 <= i < |a| && a[i].name !in weights) ==> exists i :: 0 <= i < |b| && b[i].name !in weights
    ensures (exists i :: 0 <= i < |a| && a[i].value == Junk) ==> exists i :: 0 <= i < |b| && b[i].value == Junk
  {
    if i :| 0 <= i < |a| && a[i].name !in weights {
      assert a[i] in b;
    }
    if i :| 0 <= i < |a| && a[i].value == Junk {
      assert a[i] in b;
    }
  }

  lemma OverallIgnoresOrder(a: seq<Assessed>, b: seq<Assessed>, weights: Weights)
    requires SameEntries(a, b)
    ensures ComputeOverall(a, weights) == ComputeOverall(b, weights)
  {
    SumsOfSameEntries(a, b, weights);
    SameTroubles(a, b, weights);
    SameTroubles(b, a, weights);
  }
}
