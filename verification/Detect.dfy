// Candidate edits detected from the fast-rejected and the progressed listings.
module Detect {
  import opened Common
  import opened Scoring
  import opened Criteria
  import opened Sorting

  datatype Flag =
    StretchRole | StepDown | LanguageRequirement | LocationAmbiguity | CompBelowFloor | PostingStale

  // One classified listing. Compensation amounts are in hundredths.
  datatype Record = Record(
    job: nat, title: string, company: string, dims: Dims, raised: set<Flag>,
    compMin: Option<int>, compCurrency: Option<string>, compPeriod: Option<Period>)

  datatype History = History(fast: seq<Record>, progressed: seq<Record>)

  // `observations` are the listings behind the edit, `quotes` the number of
  // feedback quotes that corroborate it.
  datatype Candidate = Candidate(
    field: Field, direction: Direction, current: EditValue, proposed: EditValue,
    observations: seq<Record>, quotes: nat)

  datatype DetectError = UnknownDimension

  const POSTING_AGE_FLOOR_DAYS := 7
  const TRACK_A_WEIGHT_STEP := 1.0

  function ChangesOf(c: Candidate): Changes {
    Changes(c.field, c.direction, c.current, c.proposed)
  }

  // --- the lowest dimension ---------------------------------------------------------------------------

  function DimensionIndex(name: string): nat {
    if name == ROLE_FIT then 0
    else if name == SENIORITY_FIT then 1
    else if name == EMPLOYER_FIT then 2
    else if name == TRAJECTORY then 3
    else 4
  }

  // Ties are broken in the order of the rubric; any other name comes last.
  lemma DimensionsStandInOrder(name: string)
    ensures forall k :: 0 <= k < |DIMENSIONS| ==> DimensionIndex(DIMENSIONS[k]) == k
    ensures name !in DIMENSIONS <==> DimensionIndex(name) >= |DIMENSIONS|
  {
    DimensionNamesDiffer();
  }

  // Only bare numbers are read; a stored {"score": n} object is not one.
  predicate IsNumeric(e: Entry) {
    e.stored.Flat? && e.stored.value.Num?
  }

  predicate Lower(a: Entry, b: Entry)
    requires IsNumeric(a) && IsNumeric(b)
  {
    a.stored.value.x < b.stored.value.x
    || (a.stored.value.x == b.stored.value.x && DimensionIndex(a.name) < DimensionIndex(b.name))
  }

  // The first entry that no numeric entry is lower than.
  function LowestEntry(dims: Dims): (i: Option<nat>)
    ensures i.Some? ==> i.value < |dims| && IsNumeric(dims[i.value])
  {
    if dims == [] then None
    else
      var n := |dims| - 1;
      var best := LowestEntry(dims[..n]);
      if !IsNumeric(dims[n]) then best
      else if best.None? || Lower(dims[n], dims[best.value]) then Some(n)
      else best
  }

  function AttributeDimension(dims: Dims): Option<string> {
    var lowest := LowestEntry(dims);
    if lowest.None? then None else Some(dims[lowest.value].name)
  }

  lemma {:induction false} AttributedIsLowest(dims: Dims)
    ensures var i := LowestEntry(dims);
            && (i.None? <==> forall k :: 0 <= k < |dims| ==> !IsNumeric(dims[k]))
            && (i.Some? ==> forall k :: 0 <= k < |dims| && IsNumeric(dims[k]) ==> !Lower(dims[k], dims[i.value]))
            && (i.Some? ==> forall k :: 0 <= k < i.value && IsNumeric(dims[k]) ==> Lower(dims[i.value], dims[k]))
    ensures var i := LowestEntry(dims);
            i.Some? ==> forall k :: 0 <= k < |dims| && IsNumeric(dims[k]) ==>
              var low, x := dims[i.value].stored.value.x, dims[k].stored.value.x;
              low < x || (low == x && DimensionIndex(dims[i.value].name) <= DimensionIndex(dims[k].name))
  {
    if dims != [] {
      AttributedIsLowest(dims[..|dims| - 1]);
    }
  }

  // --- Track A ----------------------------------------------------------------------------------------

  function Attributions(fast: seq<Record>): seq<string> {
    if fast == [] then []
    else
      var d := AttributeDimension(fast[|fast| - 1].dims);
      Attributions(fast[..|fast| - 1]) + if d.Some? && d.value != "" then [d.value] else []
  }

  function CountName(names: seq<string>, name: string): nat {
    if names == [] then 0
    else CountName(names[..|names| - 1], name) + if names[|names| - 1] == name then 1 else 0
  }

  // Among `names`, the one counted most often in `all`; ties by dimension order.
  function Modal(names: seq<string>, all: seq<string>): string
    requires names != []
  {
    var last := names[|names| - 1];
    if |names| == 1 then last
    else
      var best := Modal(names[..|names| - 1], all);
      var better := || CountName(all, last) > CountName(all, best)
                    || (CountName(all, last) == CountName(all, best) && DimensionIndex(last) < DimensionIndex(best));
      if better then last else best
  }

  function AttributedTo(fast: seq<Record>, name: string): seq<Record> {
    if fast == [] then []
    else
      AttributedTo(fast[..|fast| - 1], name)
      + if AttributeDimension(fast[|fast| - 1].dims) == Some(name) then [fast[|fast| - 1]] else []
  }

  function TrackA(fast: seq<Record>, p: Payload): (result: Result<Option<Candidate>, DetectError>)
    ensures result.Ok? && result.value.Some? ==>
              && result.value.value.field == DimensionWeights && result.value.value.direction == Increase
              && result.value.value.proposed.WeightsValue?
  {
    var names := Attributions(fast);
    if names == [] then Ok(None)
    else
      var modal := Modal(names, names);
      if 2 * CountName(names, modal) < |names| then Ok(None)
      else if modal !in p.weights then Err(UnknownDimension)
      else
        var proposed := Raise(p.weights, modal, TRACK_A_WEIGHT_STEP);
        if !ValidWeights(proposed) then Ok(None)
        else Ok(Some(Candidate(DimensionWeights, Increase, WeightsValue(p.weights), WeightsValue(proposed),
                               AttributedTo(fast, modal), 0)))
  }

  // No other dimension is attributed more often; ties go to the earlier one.
  lemma {:induction false} ModalIsMostAttributed(names: seq<string>, all: seq<string>)
    requires names != []
    ensures var modal := Modal(names, all);
            && modal in names
            && forall n :: n in names ==>
                 || CountName(all, n) < CountName(all, modal)
                 || (CountName(all, n) == CountName(all, modal) && DimensionIndex(modal) <= DimensionIndex(n))
  {
    var init, last := names[..|names| - 1], names[|names| - 1];
    assert names == init + [last];
    if init != [] {
      ModalIsMostAttributed(init, all);
    }
  }

  lemma {:induction false} AttributionsAreNamed(fast: seq<Record>)
    ensures "" !in Attributions(fast)
  {
    if fast != [] {
      AttributionsAreNamed(fast[..|fast| - 1]);
    }
  }

  // Track A raises one weight by the step: that of a dimension behind at least
  // half of the attributable rejections and behind no fewer than any other.
  lemma {:induction false} TrackARaisesTheMajorityDimension(fast: seq<Record>, p: Payload)
    requires TrackA(fast, p).Ok? && TrackA(fast, p).value.Some?
    ensures var names, c := Attributions(fast), TrackA(fast, p).value.value;
            exists d :: d in names
              && 2 * CountName(names, d) >= |names|
              && (forall n :: n in names ==> CountName(names, n) <= CountName(names, d))
              && c.proposed == WeightsValue(Raise(p.weights, d, 1.0))
              && |c.observations| == CountName(names, d)
  {
    var names := Attributions(fast);
    var d := Modal(names, names);
    ModalIsMostAttributed(names, names);
    AttributionsAreNamed(fast);
    EvidenceIsAttributed(fast, d);
    assert d in names;
  }

  lemma {:induction false} EvidenceIsAttributed(fast: seq<Record>, name: string)
    requires name != ""
    ensures forall r :: r in AttributedTo(fast, name) <==> r in fast && AttributeDimension(r.dims) == Some(name)
    ensures |AttributedTo(fast, name)| == CountName(Attributions(fast), name)
  {
    if fast != [] {
      var init, last := fast[..|fast| - 1], fast[|fast| - 1];
      EvidenceIsAttributed(init, name);
      assert forall r :: r in fast <==> r in init || r == last;
      if AttributeDimension(last.dims).Some? && AttributeDimension(last.dims) != Some("") {
        assert Attributions(fast)[..|Attributions(fast)| - 1] == Attributions(init);
      } else {
        assert Attributions(fast) == Attributions(init) && AttributedTo(fast, name) == AttributedTo(init, name);
      }
    }
  }

  ghost predicate DistinctEntries(dims: Dims) {
    forall i, j :: 0 <= i < j < |dims| ==> dims[i].name != dims[j].name
  }

  // No nested score, which attribution does not read, is below the attributed one;
  // in particular when all scores are bare numbers.
  ghost predicate NothingNestedIsLower(dims: Dims) {
    var d := LowestEntry(dims);
    forall i :: 0 <= i < |dims| && d.Some? && dims[i].stored.Nested? && dims[i].stored.score.Num? ==>
      dims[d.value].stored.value.x <= dims[i].stored.score.x
  }

  // Every listing behind a Track A proposal scores no higher under it, unless a
  // score that attribution could not read is lower than the attributed one.
  lemma TrackAEvidenceNeverGains(codes: Codes, fast: seq<Record>, p: Payload, r: Record)
    requires Valid(codes, p) && TrackA(fast, p).Ok? && TrackA(fast, p).value.Some?
    requires r in TrackA(fast, p).value.value.observations
    requires DistinctEntries(r.dims) && NothingNestedIsLower(r.dims)
    requires ComputeOverall(StoredScores(r.dims), p.weights).Scored?
    ensures var proposed := TrackA(fast, p).value.value.proposed.weights;
            && ComputeOverall(StoredScores(r.dims), proposed).Scored?
            && ComputeOverall(StoredScores(r.dims), proposed).hundredths
               <= ComputeOverall(StoredScores(r.dims), p.weights).hundredths
  {
    var names := Attributions(fast);
    var modal := Modal(names, names);
    ModalIsMostAttributed(names, names);
    AttributionsAreNamed(fast);
    EvidenceIsAttributed(fast, modal);
    AttributedIsLowest(r.dims);
    var d := LowestEntry(r.dims).value;
    var scores := StoredScores(r.dims);
    forall a | a in scores && a.value.Num?
      ensures scores[d].value.x <= a.value.x
    {
      var k :| 0 <= k < |scores| && scores[k] == a;
      assert IsNumeric(r.dims[k]) ==> !Lower(r.dims[k], r.dims[d]);
    }
    RaisingTheLowestNeverHelps(scores, p.weights, d, TRACK_A_WEIGHT_STEP);
  }

  // One listing with a bare role fit of 4 and a nested seniority fit of 1.
  function MixedRecord(job: nat): Record {
    Record(job, "", "", [Entry(ROLE_FIT, Flat(Num(4.0))), Entry(SENIORITY_FIT, Nested(Num(1.0)))], {}, None, None, None)
  }

  lemma MixedAttribution(job: nat)
    ensures Attributions([MixedRecord(job)]) == [ROLE_FIT] && Modal([ROLE_FIT], [ROLE_FIT]) == ROLE_FIT
    ensures CountName([ROLE_FIT], ROLE_FIT) == 1
  {
    var r := MixedRecord(job);
    assert r.dims[..1] == [r.dims[0]] && r.dims[..1][..0] == [] && [r][..0] == [];
    assert LowestEntry(r.dims[..1]) == Some(0) && LowestEntry(r.dims) == Some(0);
    assert [ROLE_FIT][..0] == [];
  }

  lemma MixedOverall(job: nat, weights: Weights, w: real)
    requires (w == 1.0 || w == 2.0) && ROLE_FIT in weights && SENIORITY_FIT in weights
    requires weights[ROLE_FIT] == w && weights[SENIORITY_FIT] == 1.0
    ensures ComputeOverall(StoredScores(MixedRecord(job).dims), weights) == Scored(if w == 1.0 then 250 else 300)
  {
    var scores := StoredScores(MixedRecord(job).dims);
    var a, b := Part(w, w * 4.0), Part(1.0, 1.0);
    assert Parts(weights, scores) == [a, b] && [a, b][..1] == [a] && [a][..0] == [];
    assert Shares([a]) == w && Terms([a]) == w * 4.0;
    assert Shares([a, b]) == w + 1.0 && Terms([a, b]) == w * 4.0 + 1.0;
    assert 5.0 / 2.0 == 2.5 && 9.0 / 3.0 == 3.0;
  }

  // Where a lower nested score stands beside the attributed one, the listing
  // behind the proposal can gain: here from 2.50 to 3.00.
  lemma TrackAEvidenceCanGain(codes: Codes, p: Payload, job: nat)
    requires Valid(codes, p) && p.weights[ROLE_FIT] == 1.0 && p.weights[SENIORITY_FIT] == 1.0
    ensures var r := MixedRecord(job);
            && TrackA([r], p).Ok? && TrackA([r], p).value.Some? && r in TrackA([r], p).value.value.observations
            && ComputeOverall(StoredScores(r.dims), p.weights) == Scored(250)
            && ComputeOverall(StoredScores(r.dims), TrackA([r], p).value.value.proposed.weights) == Scored(300)
  {
    DimensionNamesDiffer();
    MixedAttribution(job);
    EvidenceIsAttributed([MixedRecord(job)], ROLE_FIT);
    assert MixedRecord(job) in [MixedRecord(job)] && AttributeDimension(MixedRecord(job).dims) == Some(ROLE_FIT);
    var raised := Raise(p.weights, ROLE_FIT, TRACK_A_WEIGHT_STEP);
    assert raised.Keys == p.weights.Keys;
    MixedOverall(job, p.weights, 1.0);
    MixedOverall(job, raised, 2.0);
  }

  // Scores in the shape the scorer writes are never attributed, so over such a
  // history Track A proposes nothing.
  lemma {:induction false} ScorerShapeIsNeverAttributed(fast: seq<Record>)
    requires forall r :: r in fast ==> forall i :: 0 <= i < |r.dims| ==> r.dims[i].stored.Nested?
    ensures Attributions(fast) == []
  {
    if fast != [] {
      assert fast[|fast| - 1] in fast;
      assert forall r :: r in fast[..|fast| - 1] ==> r in fast;
      ScorerShapeIsNeverAttributed(fast[..|fast| - 1]);
      AttributedIsLowest(fast[|fast| - 1].dims);
    }
  }

  lemma TrackAIgnoresTheScorersShape(fast: seq<Record>, p: Payload)
    requires forall r :: r in fast ==> forall i :: 0 <= i < |r.dims| ==> r.dims[i].stored.Nested?
    ensures TrackA(fast, p) == Ok(None)
  {
    ScorerShapeIsNeverAttributed(fast);
  }

  // --- Track B ----------------------------------------------------------------------------------------

  function Flagged(fast: seq<Record>, flag: Flag): seq<Record> {
    if fast == [] then []
    else Flagged(fast[..|fast| - 1], flag) + if flag in fast[|fast| - 1].raised then [fast[|fast| - 1]] else []
  }

  function TightenMax(fast: seq<Record>, p: Payload): (c: Option<Candidate>)
    ensures c.Some? ==> c.value.field == SeniorityMax
  {
    var flagged := Flagged(fast, StretchRole);
    if flagged == [] || p.seniorityMax.None? || p.seniorityMax.value <= 0 then None
    else
      var proposed := p.seniorityMax.value - 1;
      if p.seniorityMin.Some? && proposed < p.seniorityMin.value then None
      else Some(Candidate(SeniorityMax, Tighten, RungValue(p.seniorityMax), RungValue(Some(proposed)), flagged, 0))
  }

  function TightenMin(fast: seq<Record>, p: Payload): (c: Option<Candidate>)
    ensures c.Some? ==> c.value.field == SeniorityMin
  {
    var flagged := Flagged(fast, StepDown);
    if flagged == [] || p.seniorityMin.None? || p.seniorityMin.value >= LADDER - 1 then None
    else
      var proposed := p.seniorityMin.value + 1;
      if p.seniorityMax.Some? && proposed > p.seniorityMax.value then None
      else Some(Candidate(SeniorityMin, Tighten, RungValue(p.seniorityMin), RungValue(Some(proposed)), flagged, 0))
  }

  predicate Comparable(r: Record, floor: Floor) {
    r.compCurrency == floor.currency && r.compPeriod == Some(floor.period)
  }

  // The minimum amounts of the flagged listings, none of them when one listing
  // with an amount is in another currency or period.
  function ComparableAmounts(flagged: seq<Record>, floor: Floor): seq<int> {
    if exists r :: r in flagged && r.compMin.Some? && !Comparable(r, floor) then [] else Amounts(flagged)
  }

  function Amounts(flagged: seq<Record>): seq<int> {
    if flagged == [] then []
    else
      Amounts(flagged[..|flagged| - 1])
      + if flagged[|flagged| - 1].compMin.Some? then [flagged[|flagged| - 1].compMin.value] else []
  }

  method CollectComparable(flagged: seq<Record>, floor: Floor) returns (comparable: seq<int>)
    ensures comparable == ComparableAmounts(flagged, floor)
  {
    comparable := [];
    var i := 0;
    while i < |flagged|
      invariant 0 <= i <= |flagged|
      invariant comparable == Amounts(flagged[..i])
      invariant forall r :: r in flagged[..i] && r.compMin.Some? ==> Comparable(r, floor)
    {
      var r := flagged[i];
      assert flagged[..i + 1] == flagged[..i] + [r];
      if r.compMin.None? {
        i := i + 1;
        continue;
      }
      if r.compCurrency != floor.currency || r.compPeriod != Some(floor.period) {
        assert r in flagged;
        return [];
      }
      comparable := comparable + [r.compMin.value];
      i := i + 1;
    }
    assert flagged[..|flagged|] == flagged;
  }

  predicate Less(a: int, b: int) {
    a < b
  }

  function SortAmounts(xs: seq<int>): (r: seq<int>)
    ensures |r| == |xs|
  {
    SameElements(SortBy(Less, xs), xs);
    SortBy(Less, xs)
  }

  function Middle(sorted: seq<int>): int
    requires sorted != []
  {
    var middle := |sorted| / 2;
    if |sorted| % 2 == 1 then sorted[middle] else RoundHalfEven(sorted[middle - 1] + sorted[middle], 2)
  }

  function Median(xs: seq<int>): int
    requires xs != []
  {
    Middle(SortAmounts(xs))
  }

  ghost predicate Ascending(xs: seq<int>) {
    forall i, j :: 0 <= i < j < |xs| ==> xs[i] <= xs[j]
  }

  lemma SortedAmounts(xs: seq<int>)
    ensures Ascending(SortAmounts(xs)) && multiset(SortAmounts(xs)) == multiset(xs)
  {
    SortOrders(Less, xs);
    var sorted := SortBy(Less, xs);
    assert forall i, j :: 0 <= i < j < |sorted| ==> !Less(sorted[j], sorted[i]);
  }

  lemma HalfIsBetween(a: int, b: int)
    requires a <= b
    ensures a <= RoundHalfEven(a + b, 2) <= b
  {
  }

  lemma MiddleIsBetween(sorted: seq<int>)
    requires sorted != [] && Ascending(sorted)
    ensures -1 <= 2 * Middle(sorted) - (sorted[(|sorted| - 1) / 2] + sorted[|sorted| / 2]) <= 1
    ensures sorted[(|sorted| - 1) / 2] <= Middle(sorted) <= sorted[|sorted| / 2]
  {
    var middle := |sorted| / 2;
    if |sorted| % 2 == 0 {
      assert (|sorted| - 1) / 2 == middle - 1;
      HalfIsBetween(sorted[middle - 1], sorted[middle]);
    }
  }

  lemma MiddleIsCentral(sorted: seq<int>)
    requires sorted != [] && Ascending(sorted)
    ensures forall i :: 0 <= i <= (|sorted| - 1) / 2 ==> sorted[i] <= Middle(sorted)
    ensures forall i :: |sorted| / 2 <= i < |sorted| ==> Middle(sorted) <= sorted[i]
    ensures -1 <= 2 * Middle(sorted) - (sorted[(|sorted| - 1) / 2] + sorted[|sorted| / 2]) <= 1
  {
    MiddleIsBetween(sorted);
    assert forall i :: 0 <= i <= (|sorted| - 1) / 2 ==> sorted[i] <= sorted[(|sorted| - 1) / 2];
    assert forall i :: |sorted| / 2 <= i < |sorted| ==> sorted[|sorted| / 2] <= sorted[i];
  }

  // Half of the amounts are on either side of the proposed one, which is half way
  // between the two middle ones, to half a hundredth.
  lemma MedianIsCentral(xs: seq<int>)
    requires xs != []
    ensures exists sorted: seq<int> ::
              multiset(sorted) == multiset(xs) && Ascending(sorted) && IsCentre(sorted, Median(xs))
  {
    SortedAmounts(xs);
    MiddleIsCentral(SortAmounts(xs));
    assert IsCentre(SortAmounts(xs), Median(xs));
  }

  ghost predicate IsCentre(sorted: seq<int>, m: int) {
    && (forall i :: 0 <= i <= (|sorted| - 1) / 2 ==> sorted[i] <= m)
    && (forall i :: |sorted| / 2 <= i < |sorted| ==> m <= sorted[i])
    && (sorted != [] ==> -1 <= 2 * m - (sorted[(|sorted| - 1) / 2] + sorted[|sorted| / 2]) <= 1)
  }

  function ProposedFloor(fast: seq<Record>, floor: Floor): Option<int> {
    var comparable := ComparableAmounts(Flagged(fast, CompBelowFloor), floor);
    if |comparable| >= 2 then Some(Median(comparable)) else None
  }

  function RaiseFloor(fast: seq<Record>, p: Payload): (c: Option<Candidate>)
    ensures c.Some? ==> c.value.field == CompensationFloor
  {
    var flagged := Flagged(fast, CompBelowFloor);
    if flagged == [] || p.floor.amount.None? || p.floor.currency.None? then None
    else
      var amount := ProposedFloor(fast, p.floor);
      if amount.None? || amount.value as real <= p.floor.amount.value then None
      else Some(Candidate(CompensationFloor, Tighten, FloorValue(p.floor),
                          FloorValue(p.floor.(amount := Some(amount.value as real))), flagged, 0))
  }

  function ShrunkAge(days: int): int {
    var shrunk := days * 2 / 3;
    if shrunk < POSTING_AGE_FLOOR_DAYS then POSTING_AGE_FLOOR_DAYS else shrunk
  }

  function ShrinkAge(fast: seq<Record>, p: Payload): (c: Option<Candidate>)
    ensures c.Some? ==> c.value.field == PostingAgeDays
  {
    var flagged := Flagged(fast, PostingStale);
    var proposed := ShrunkAge(p.postingAgeDays);
    if flagged == [] || proposed >= p.postingAgeDays then None
    else Some(Candidate(PostingAgeDays, Tighten, DaysValue(p.postingAgeDays), DaysValue(proposed), flagged, 0))
  }

  lemma {:induction false} FlaggedExactly(fast: seq<Record>, flag: Flag)
    ensures forall r :: r in Flagged(fast, flag) <==> r in fast && flag in r.raised
  {
    if fast != [] {
      var init, last := fast[..|fast| - 1], fast[|fast| - 1];
      assert fast == init + [last];
      FlaggedExactly(init, flag);
    }
  }

  // What a tightened rung, floor or age limit may be.
  ghost predicate TightensAsFlagged(h: History, p: Payload, c: Candidate, flag: Flag) {
    match (c.field, c.proposed)
    case (SeniorityMax, RungValue(rung)) =>
      && flag == StretchRole && p.seniorityMax.Some? && rung == Some(p.seniorityMax.value - 1) && rung.value >= 0
      && (p.seniorityMin.Some? ==> p.seniorityMin.value <= rung.value)
    case (SeniorityMin, RungValue(rung)) =>
      && flag == StepDown && p.seniorityMin.Some? && rung == Some(p.seniorityMin.value + 1) && rung.value < LADDER
      && (p.seniorityMax.Some? ==> rung.value <= p.seniorityMax.value)
    case (CompensationFloor, FloorValue(floor)) =>
      && flag == CompBelowFloor && p.floor.amount.Some? && floor.amount.Some?
      && floor.amount.value > p.floor.amount.value
      && (var amounts := ComparableAmounts(Flagged(h.fast, CompBelowFloor), p.floor);
          |amounts| >= 2 && floor.amount.value == Median(amounts) as real)
      && floor.currency == p.floor.currency && floor.period == p.floor.period
    case (PostingAgeDays, DaysValue(days)) =>
      flag == PostingStale && 7 <= days < p.postingAgeDays
      && (days == 7 || 3 * days <= 2 * p.postingAgeDays < 3 * (days + 1))
    case _ => false
  }

  // --- Track C ----------------------------------------------------------------------------------------

  const STOPWORDS := {
    "and", "the", "for", "with", "our", "you", "your", "new",
    "remote", "hybrid", "onsite", "full", "part", "time", "contract",
    "engineer", "engineering", "developer", "software", "manager"
  }
  const TITLE_TOKEN_MIN_LEN := 3

  function FoldChar(c: char): char {
    if 'A' <= c <= 'Z' then (c as int + 32) as char else c
  }

  // Case folding over ASCII.
  function Fold(s: string): string {
    seq(|s|, i requires 0 <= i < |s| => FoldChar(s[i]))
  }

  predicate IsTokenChar(c: char) {
    'a' <= c <= 'z' || '0' <= c <= '9'
  }

  function Emit(token: string): seq<string> {
    if |token| >= TITLE_TOKEN_MIN_LEN && token !in STOPWORDS then [token] else []
  }

  // The maximal runs of token characters, `current` being the run read so far.
  function Split(s: string, current: string): seq<string>
    decreases |s|
  {
    if s == [] then Emit(current)
    else if IsTokenChar(s[0]) then Split(s[1..], current + [s[0]])
    else Emit(current) + Split(s[1..], [])
  }

  function TitleTokens(title: string): seq<string> {
    Split(Fold(title), [])
  }

  ghost predicate Folded(token: string) {
    forall i :: 0 <= i < |token| ==> IsTokenChar(token[i])
  }

  lemma {:induction false} TokensAreFolded(s: string, current: string)
    requires Folded(current)
    ensures forall t :: t in Split(s, current) ==> Folded(t)
    decreases |s|
  {
    if s != [] {
      if IsTokenChar(s[0]) {
        TokensAreFolded(s[1..], current + [s[0]]);
      } else {
        TokensAreFolded(s[1..], []);
      }
    }
  }

  // Equal, or the same letter in the other case.
  predicate SameLetter(a: char, b: char) {
    || a == b
    || ('A' <= a <= 'Z' && b as int == a as int + 32)
    || ('A' <= b <= 'Z' && a as int == b as int + 32)
  }

  lemma FoldIgnoresCaseOnly(s: string, t: string)
    ensures Fold(s) == Fold(t) <==> |s| == |t| && forall i :: 0 <= i < |s| ==> SameLetter(s[i], t[i])
  {
    if Fold(s) == Fold(t) {
      forall i | 0 <= i < |s|
        ensures SameLetter(s[i], t[i])
      {
        assert Fold(s)[i] == Fold(t)[i];
      }
    }
  }

  // s[i..j] is a run of token characters that cannot be extended.
  ghost predicate IsRun(s: string, i: nat, j: nat) {
    && i < j <= |s| && (forall k :: i <= k < j ==> IsTokenChar(s[k]))
    && (i > 0 ==> !IsTokenChar(s[i - 1])) && (j < |s| ==> !IsTokenChar(s[j]))
  }

  // The token characters s begins with, none included.
  ghost predicate IsHead(s: string, j: nat) {
    && j <= |s| && (forall k :: 0 <= k < j ==> IsTokenChar(s[k])) && (j < |s| ==> !IsTokenChar(s[j]))
  }

  ghost predicate IsToken(t: string) {
    |t| >= 3 && t !in STOPWORDS
  }

  ghost predicate LaterRun(s: string, t: string) {
    exists i: nat, j: nat :: i > 0 && IsRun(s, i, j) && t == s[i..j]
  }

  ghost predicate HeadRun(s: string, current: string, t: string) {
    exists j: nat :: IsHead(s, j) && t == current + s[..j]
  }

  lemma RunShifts(s: string, i: nat, j: nat)
    requires s != [] && 0 < i <= j <= |s| - 1
    ensures IsRun(s[1..], i, j) <==> IsRun(s, i + 1, j + 1)
    ensures s[1..][i..j] == s[i + 1..j + 1]
  {
    assert forall k :: 0 <= k < |s| - 1 ==> s[1..][k] == s[k + 1];
    if IsRun(s, i + 1, j + 1) {
      forall k | i <= k < j
        ensures IsTokenChar(s[1..][k])
      {
        assert IsTokenChar(s[k + 1]);
      }
    }
  }

  lemma HeadIsRun(s: string, j: nat)
    requires s != [] && !IsTokenChar(s[0]) && 0 < j <= |s| - 1
    ensures IsHead(s[1..], j) <==> IsRun(s, 1, j + 1)
    ensures s[1..][..j] == s[1..j + 1]
  {
    assert forall k :: 0 <= k < |s| - 1 ==> s[1..][k] == s[k + 1];
    if IsRun(s, 1, j + 1) {
      forall k | 0 <= k < j
        ensures IsTokenChar(s[1..][k])
      {
        assert IsTokenChar(s[k + 1]);
      }
    }
  }

  lemma RunsMoveUp(s: string, t: string)
    requires s != []
    ensures LaterRun(s[1..], t) ==> LaterRun(s, t)
    ensures !IsTokenChar(s[0]) && t != [] && HeadRun(s[1..], [], t) ==> LaterRun(s, t)
  {
    if i: nat, j: nat :| i > 0 && IsRun(s[1..], i, j) && t == s[1..][i..j] {
      RunShifts(s, i, j);
    }
    if j: nat :| !IsTokenChar(s[0]) && t != [] && IsHead(s[1..], j) && t == [] + s[1..][..j] {
      HeadIsRun(s, j);
    }
  }

  lemma RunsMoveDown(s: string, t: string)
    requires s != [] && LaterRun(s, t)
    ensures LaterRun(s[1..], t) || (!IsTokenChar(s[0]) && HeadRun(s[1..], [], t))
  {
    var i: nat, j: nat :| i > 0 && IsRun(s, i, j) && t == s[i..j];
    if i > 1 {
      RunShifts(s, i - 1, j - 1);
    } else {
      HeadIsRun(s, j - 1);
      assert t == [] + s[1..][..j - 1];
    }
  }

  lemma RunsShift(s: string, t: string)
    requires s != []
    ensures IsTokenChar(s[0]) ==> (LaterRun(s, t) <==> LaterRun(s[1..], t))
    ensures !IsTokenChar(s[0]) && t != [] ==> (LaterRun(s, t) <==> LaterRun(s[1..], t) || HeadRun(s[1..], [], t))
  {
    RunsMoveUp(s, t);
    if LaterRun(s, t) {
      RunsMoveDown(s, t);
    }
  }

  lemma HeadShifts(s: string, current: string, t: string)
    requires s != []
    ensures IsTokenChar(s[0]) ==> (HeadRun(s, current, t) <==> HeadRun(s[1..], current + [s[0]], t))
    ensures !IsTokenChar(s[0]) ==> (HeadRun(s, current, t) <==> t == current)
  {
    if IsTokenChar(s[0]) {
      if j: nat :| IsHead(s, j) && t == current + s[..j] {
        assert j > 0 && s[..j] == [s[0]] + s[1..][..j - 1];
        assert IsHead(s[1..], j - 1) && t == current + [s[0]] + s[1..][..j - 1];
      }
      if j: nat :| IsHead(s[1..], j) && t == current + [s[0]] + s[1..][..j] {
        assert s[..j + 1] == [s[0]] + s[1..][..j];
        assert IsHead(s, j + 1) && t == current + s[..j + 1];
      }
    } else {
      assert IsHead(s, 0) && current + s[..0] == current;
    }
  }

  lemma {:induction false} SplitExactly(s: string, current: string, t: string)
    ensures t in Split(s, current) <==> IsToken(t) && (HeadRun(s, current, t) || LaterRun(s, t))
    decreases |s|
  {
    if s == [] {
      assert IsHead(s, 0) && current + s[..0] == current;
    } else {
      RunsShift(s, t);
      HeadShifts(s, current, t);
      SplitExactly(s[1..], if IsTokenChar(s[0]) then current + [s[0]] else [], t);
    }
  }

  // The tokens of a title are its maximal runs of letters and digits, folded, that
  // have three characters or more and are no stopword.
  lemma TitleTokensExactly(title: string, t: string)
    ensures var s := Fold(title);
            t in TitleTokens(title) <==> IsToken(t) && exists i: nat, j: nat :: IsRun(s, i, j) && t == s[i..j]
  {
    var s := Fold(title);
    SplitExactly(s, [], t);
    if j: nat :| IsToken(t) && IsHead(s, j) && t == [] + s[..j] {
      assert IsRun(s, 0, j) && t == s[0..j];
    }
    if i: nat, j: nat :| IsRun(s, i, j) && t == s[i..j] {
      if i == 0 {
        assert IsHead(s, j) && t == [] + s[..j];
      }
    }
  }

  lemma FoldedIsFixed(token: string)
    requires Folded(token)
    ensures Fold(token) == token
  {
  }

  function TitlesWith(fast: seq<Record>, token: string): set<string> {
    set r | r in fast && token in TitleTokens(r.title) :: r.title
  }

  function RecordsWith(fast: seq<Record>, token: string): seq<Record> {
    if fast == [] then []
    else
      RecordsWith(fast[..|fast| - 1], token)
      + if token in TitleTokens(fast[|fast| - 1].title) then [fast[|fast| - 1]] else []
  }

  function RecordsAt(fast: seq<Record>, company: string): seq<Record> {
    if fast == [] then []
    else
      RecordsAt(fast[..|fast| - 1], company)
      + if fast[|fast| - 1].company == company then [fast[|fast| - 1]] else []
  }

  function AllTokens(fast: seq<Record>): seq<string> {
    if fast == [] then [] else AllTokens(fast[..|fast| - 1]) + TitleTokens(fast[|fast| - 1].title)
  }

  function Companies(fast: seq<Record>): seq<string> {
    seq(|fast|, i requires 0 <= i < |fast| => fast[i].company)
  }

  predicate InSomeTitle(records: seq<Record>, token: string) {
    exists r :: r in records && token in TitleTokens(r.title)
  }

  predicate InSomeFold(names: seq<string>, folded: string) {
    exists n :: n in names && Fold(n) == folded
  }

  predicate TokenQualifies(h: History, p: Payload, token: string) {
    && |TitlesWith(h.fast, token)| >= MinObservations(TitleKeywords)
    && !InSomeTitle(h.progressed, token)
    && !InSomeFold(p.exclusions.titleKeywords, token)
  }

  predicate CompanyQualifies(h: History, p: Payload, company: string) {
    && |RecordsAt(h.fast, company)| >= MinObservations(Employers)
    && !InSomeFold(Companies(h.progressed), Fold(company))
    && !InSomeFold(p.exclusions.employers, Fold(company))
  }

  // More listings behind it, or as many and alphabetically first.
  predicate Outranks(n: nat, a: string, m: nat, b: string) {
    n > m || (n == m && LexLess(a, b))
  }

  lemma OutranksTransitive(n: nat, a: string, m: nat, b: string, k: nat, c: string)
    requires Outranks(n, a, m, b) && Outranks(m, b, k, c)
    ensures Outranks(n, a, k, c)
  {
    if n == k && !LexLess(a, c) {
      LexAsymmetric(b, c);
      LexNegativelyTransitive(a, c, b);
    }
  }

  lemma OutranksAsymmetric(n: nat, a: string, m: nat, b: string)
    requires Outranks(n, a, m, b)
    ensures !Outranks(m, b, n, a)
  {
    if n == m {
      LexAsymmetric(a, b);
    }
  }

  function TitleCount(h: History, token: string): nat {
    |TitlesWith(h.fast, token)|
  }

  function ListingCount(h: History, company: string): nat {
    |RecordsAt(h.fast, company)|
  }

  // The qualifying token of most titles, ties alphabetically.
  function BestToken(h: History, p: Payload, tokens: seq<string>): (best: Option<string>)
    ensures best.Some? ==> best.value in tokens && TokenQualifies(h, p, best.value)
    ensures best.None? ==> forall t :: t in tokens ==> !TokenQualifies(h, p, t)
  {
    if tokens == [] then None
    else
      var rest, last := BestToken(h, p, tokens[..|tokens| - 1]), tokens[|tokens| - 1];
      if !TokenQualifies(h, p, last) then rest
      else if rest.None? then Some(last)
      else
        if Outranks(TitleCount(h, last), last, TitleCount(h, rest.value), rest.value) then Some(last) else rest
  }

  function BestCompany(h: History, p: Payload, companies: seq<string>): (best: Option<string>)
    ensures best.Some? ==> best.value in companies && CompanyQualifies(h, p, best.value)
    ensures best.None? ==> forall c :: c in companies ==> !CompanyQualifies(h, p, c)
  {
    if companies == [] then None
    else
      var rest, last := BestCompany(h, p, companies[..|companies| - 1]), companies[|companies| - 1];
      if !CompanyQualifies(h, p, last) then rest
      else if rest.None? then Some(last)
      else
        if Outranks(ListingCount(h, last), last, ListingCount(h, rest.value), rest.value) then Some(last) else rest
  }

  // No qualifying token has more titles, and among equals none comes first.
  lemma {:induction false} BestTokenIsFirst(h: History, p: Payload, tokens: seq<string>)
    requires BestToken(h, p, tokens).Some?
    ensures var best := BestToken(h, p, tokens).value;
            forall t :: t in tokens && TokenQualifies(h, p, t) ==>
              || TitleCount(h, t) < TitleCount(h, best)
              || (TitleCount(h, t) == TitleCount(h, best) && !LexLess(t, best))
  {
    var init, last := tokens[..|tokens| - 1], tokens[|tokens| - 1];
    var rest, best := BestToken(h, p, init), BestToken(h, p, tokens).value;
    assert tokens == init + [last];
    if rest.Some? {
      BestTokenIsFirst(h, p, init);
    }
    forall t | t in tokens && TokenQualifies(h, p, t)
      ensures !Outranks(TitleCount(h, t), t, TitleCount(h, best), best)
    {
      if Outranks(TitleCount(h, t), t, TitleCount(h, best), best) {
        OutranksAsymmetric(TitleCount(h, t), t, TitleCount(h, best), best);
        if t in init && rest.Some? && best != rest.value {
          OutranksTransitive(TitleCount(h, t), t, TitleCount(h, best), best, TitleCount(h, rest.value), rest.value);
        }
        assert false;
      }
    }
  }

  lemma {:induction false} BestCompanyIsFirst(h: History, p: Payload, companies: seq<string>)
    requires BestCompany(h, p, companies).Some?
    ensures var best := BestCompany(h, p, companies).value;
            forall c :: c in companies && CompanyQualifies(h, p, c) ==>
              || ListingCount(h, c) < ListingCount(h, best)
              || (ListingCount(h, c) == ListingCount(h, best) && !LexLess(c, best))
  {
    var init, last := companies[..|companies| - 1], companies[|companies| - 1];
    var rest, best := BestCompany(h, p, init), BestCompany(h, p, companies).value;
    assert companies == init + [last];
    if rest.Some? {
      BestCompanyIsFirst(h, p, init);
    }
    forall c | c in companies && CompanyQualifies(h, p, c)
      ensures !Outranks(ListingCount(h, c), c, ListingCount(h, best), best)
    {
      if Outranks(ListingCount(h, c), c, ListingCount(h, best), best) {
        OutranksAsymmetric(ListingCount(h, c), c, ListingCount(h, best), best);
        if c in init && rest.Some? && best != rest.value {
          OutranksTransitive(ListingCount(h, c), c, ListingCount(h, best), best,
                             ListingCount(h, rest.value), rest.value);
        }
        assert false;
      }
    }
  }

  function ExcludeToken(h: History, p: Payload): (c: Option<Candidate>)
    ensures c.Some? ==> c.value.field == TitleKeywords
  {
    var token := BestToken(h, p, AllTokens(h.fast));
    if token.None? then None
    else Some(Candidate(TitleKeywords, Tighten, NamesValue(p.exclusions.titleKeywords),
                        NamesValue(p.exclusions.titleKeywords + [token.value]), RecordsWith(h.fast, token.value), 0))
  }

  function ExcludeCompany(h: History, p: Payload): (c: Option<Candidate>)
    ensures c.Some? ==> c.value.field == Employers
  {
    var company := BestCompany(h, p, Companies(h.fast));
    if company.None? then None
    else Some(Candidate(Employers, Tighten, NamesValue(p.exclusions.employers),
                        NamesValue(p.exclusions.employers + [company.value]), RecordsAt(h.fast, company.value), 0))
  }

  // --- detection and gate ---------------------------------------------------------------------------------

  function Opt(c: Option<Candidate>): seq<Candidate> {
    if c.Some? then [c.value] else []
  }

  function TrackB(h: History, p: Payload): seq<Candidate> {
    Opt(TightenMax(h.fast, p)) + Opt(TightenMin(h.fast, p)) + Opt(RaiseFloor(h.fast, p)) + Opt(ShrinkAge(h.fast, p))
  }

  function TrackC(h: History, p: Payload): seq<Candidate> {
    Opt(ExcludeToken(h, p)) + Opt(ExcludeCompany(h, p))
  }

  // A Track B edit tightens one limit by one step and is backed by exactly the
  // rejected listings that carry the flag of that limit.
  lemma TrackBEdits(h: History, p: Payload, c: Candidate)
    requires c in TrackB(h, p)
    ensures c.observations != [] && c.quotes == 0
    ensures exists flag: Flag :: TightensAsFlagged(h, p, c, flag)
              && forall r :: r in c.observations <==> r in h.fast && flag in r.raised
  {
    var flag :=
      if c.field == SeniorityMax then StretchRole
      else if c.field == SeniorityMin then StepDown
      else if c.field == CompensationFloor then CompBelowFloor
      else PostingStale;
    FlaggedExactly(h.fast, flag);
    TrackBCases(h, p, c);
    assert TightensAsFlagged(h, p, c, flag) && c.observations == Flagged(h.fast, flag);
  }

  lemma OneOfFour(a: Option<Candidate>, b: Option<Candidate>, c: Option<Candidate>, d: Option<Candidate>, x: Candidate)
    requires x in Opt(a) + Opt(b) + Opt(c) + Opt(d)
    ensures Some(x) in {a, b, c, d}
  {
  }

  lemma TrackBCases(h: History, p: Payload, c: Candidate)
    requires c in TrackB(h, p)
    ensures Some(c) in {TightenMax(h.fast, p), TightenMin(h.fast, p), RaiseFloor(h.fast, p), ShrinkAge(h.fast, p)}
  {
    OneOfFour(TightenMax(h.fast, p), TightenMin(h.fast, p), RaiseFloor(h.fast, p), ShrinkAge(h.fast, p), c);
  }

  function DetectCandidates(h: History, p: Payload): Result<seq<Candidate>, DetectError> {
    var a := TrackA(h.fast, p);
    if a.Err? then Err(a.error) else Ok(Opt(a.value) + TrackB(h, p) + TrackC(h, p))
  }

  function MinObservations(field: Field): nat {
    match field
    case DimensionWeights => 8
    case PostingAgeDays => 5
    case LocationsField => 5
    case SeniorityMin => 4
    case SeniorityMax => 4
    case CompensationFloor => 4
    case WorkAuthorizationField => 4
    case TitleKeywords => 3
    case Employers => 3
    case Unpermitted(_) => 0
  }

  function ObservationCount(c: Candidate): nat {
    |c.observations| + c.quotes
  }

  predicate MeetsThreshold(c: Candidate) {
    ObservationCount(c) >= MinObservations(c.field)
  }

  // --- one pass never emits one signature twice -------------------------------------------------------------

  function DetectionOrder(field: Field): nat {
    match field
    case DimensionWeights => 0
    case SeniorityMax => 1
    case SeniorityMin => 2
    case CompensationFloor => 3
    case PostingAgeDays => 4
    case TitleKeywords => 5
    case Employers => 6
    case _ => 7
  }

  // Strictly ascending positions within [lo, hi].
  ghost predicate InDetectionOrder(cs: seq<Candidate>, lo: nat, hi: nat) {
    && (forall i :: 0 <= i < |cs| ==> lo <= DetectionOrder(cs[i].field) <= hi)
    && (forall i, j :: 0 <= i < j < |cs| ==> DetectionOrder(cs[i].field) < DetectionOrder(cs[j].field))
  }

  lemma Joined(a: seq<Candidate>, b: seq<Candidate>, lo: nat, mid: nat, hi: nat)
    requires InDetectionOrder(a, lo, mid) && InDetectionOrder(b, mid + 1, hi) && lo <= mid < hi
    ensures InDetectionOrder(a + b, lo, hi)
  {
  }

  lemma Single(c: Option<Candidate>, k: nat)
    requires c.Some? ==> DetectionOrder(c.value.field) == k
    ensures InDetectionOrder(Opt(c), k, k)
  {
  }

  lemma FourInOrder(a: seq<Candidate>, b: seq<Candidate>, c: seq<Candidate>, d: seq<Candidate>)
    requires InDetectionOrder(a, 1, 1) && InDetectionOrder(b, 2, 2)
             && InDetectionOrder(c, 3, 3) && InDetectionOrder(d, 4, 4)
    ensures InDetectionOrder(a + b + c + d, 1, 4)
  {
    Joined(a, b, 1, 1, 2);
    Joined(a + b, c, 1, 2, 3);
    Joined(a + b + c, d, 1, 3, 4);
  }

  lemma FourOptionsInOrder(max: Option<Candidate>, min: Option<Candidate>,
                          floor: Option<Candidate>, age: Option<Candidate>)
    requires max.Some? ==> max.value.field == SeniorityMax
    requires min.Some? ==> min.value.field == SeniorityMin
    requires floor.Some? ==> floor.value.field == CompensationFloor
    requires age.Some? ==> age.value.field == PostingAgeDays
    ensures InDetectionOrder(Opt(max) + Opt(min) + Opt(floor) + Opt(age), 1, 4)
  {
    Single(max, 1);
    Single(min, 2);
    Single(floor, 3);
    Single(age, 4);
    FourInOrder(Opt(max), Opt(min), Opt(floor), Opt(age));
  }

  lemma TrackBInOrder(h: History, p: Payload)
    ensures InDetectionOrder(TrackB(h, p), 1, 4)
  {
    FourOptionsInOrder(TightenMax(h.fast, p), TightenMin(h.fast, p), RaiseFloor(h.fast, p), ShrinkAge(h.fast, p));
  }

  lemma TrackCInOrder(h: History, p: Payload)
    ensures InDetectionOrder(TrackC(h, p), 5, 6)
  {
    Single(ExcludeToken(h, p), 5);
    Single(ExcludeCompany(h, p), 6);
    Joined(Opt(ExcludeToken(h, p)), Opt(ExcludeCompany(h, p)), 5, 5, 6);
  }

  lemma ThreeInOrder(a: seq<Candidate>, b: seq<Candidate>, c: seq<Candidate>)
    requires InDetectionOrder(a, 0, 0) && InDetectionOrder(b, 1, 4) && InDetectionOrder(c, 5, 6)
    ensures InDetectionOrder(a + b + c, 0, 6)
  {
    Joined(a, b, 0, 0, 4);
    Joined(a + b, c, 0, 4, 6);
  }

  lemma TrackAInOrder(h: History, p: Payload)
    requires TrackA(h.fast, p).Ok?
    ensures InDetectionOrder(Opt(TrackA(h.fast, p).value), 0, 0)
  {
    Single(TrackA(h.fast, p).value, 0);
  }

  lemma DetectedInOrder(h: History, p: Payload)
    requires DetectCandidates(h, p).Ok?
    ensures InDetectionOrder(DetectCandidates(h, p).value, 0, 6)
  {
    TrackAInOrder(h, p);
    TrackBInOrder(h, p);
    TrackCInOrder(h, p);
    ThreeInOrder(Opt(TrackA(h.fast, p).value), TrackB(h, p), TrackC(h, p));
  }

  // One pass never emits two candidates for the same field.
  lemma FieldsAreDistinct(h: History, p: Payload)
    requires DetectCandidates(h, p).Ok?
    ensures forall i, j :: 0 <= i < j < |DetectCandidates(h, p).value| ==>
              DetectCandidates(h, p).value[i].field != DetectCandidates(h, p).value[j].field
  {
    DetectedInOrder(h, p);
  }

  // --- every candidate can be applied -------------------------------------------------------------------------

  ghost predicate Applicable(codes: Codes, p: Payload, c: Candidate) {
    && ApplyProposedChange(codes, p, ChangesOf(c)).Ok?
    && c.current == LeafOf(p, c.field)
    && c.proposed != c.current
  }

  lemma TrackAApplies(codes: Codes, h: History, p: Payload)
    requires Valid(codes, p) && TrackA(h.fast, p).Ok? && TrackA(h.fast, p).value.Some?
    ensures Applicable(codes, p, TrackA(h.fast, p).value.value)
  {
    var c := TrackA(h.fast, p).value.value;
    var names := Attributions(h.fast);
    assert p.weights[Modal(names, names)] != c.proposed.weights[Modal(names, names)];
  }

  lemma RungApplies(codes: Codes, fast: seq<Record>, p: Payload, c: Candidate)
    requires Valid(codes, p) && Some(c) in {TightenMax(fast, p), TightenMin(fast, p)}
    ensures Applicable(codes, p, c)
  {
  }

  lemma FloorApplies(codes: Codes, fast: seq<Record>, p: Payload, c: Candidate)
    requires Valid(codes, p) && Some(c) == RaiseFloor(fast, p)
    ensures Applicable(codes, p, c)
  {
  }

  lemma AgeApplies(codes: Codes, fast: seq<Record>, p: Payload, c: Candidate)
    requires Valid(codes, p) && Some(c) == ShrinkAge(fast, p)
    ensures Applicable(codes, p, c)
  {
  }

  lemma TrackBApplies(codes: Codes, h: History, p: Payload, c: Candidate)
    requires Valid(codes, p) && c in TrackB(h, p)
    ensures Applicable(codes, p, c)
  {
    TrackBCases(h, p, c);
    if Some(c) == RaiseFloor(h.fast, p) {
      FloorApplies(codes, h.fast, p, c);
    } else if Some(c) == ShrinkAge(h.fast, p) {
      AgeApplies(codes, h.fast, p, c);
    } else {
      RungApplies(codes, h.fast, p, c);
    }
  }

  lemma TrackCApplies(codes: Codes, h: History, p: Payload, c: Candidate)
    requires Valid(codes, p) && c in TrackC(h, p)
    ensures Applicable(codes, p, c)
  {
    if Some(c) == ExcludeToken(h, p) {
      assert |c.proposed.names| == |c.current.names| + 1;
    } else {
      assert Some(c) == ExcludeCompany(h, p);
      assert |c.proposed.names| == |c.current.names| + 1;
    }
  }

  // Whatever is detected against a valid payload is a permitted edit of a leaf
  // that still holds the value it was detected against, and applies to that
  // payload without a validation error.
  lemma DetectedCandidatesApply(codes: Codes, h: History, p: Payload, c: Candidate)
    requires Valid(codes, p) && DetectCandidates(h, p).Ok? && c in DetectCandidates(h, p).value
    ensures Applicable(codes, p, c)
  {
    if c in TrackB(h, p) {
      TrackBApplies(codes, h, p, c);
    } else if c in TrackC(h, p) {
      TrackCApplies(codes, h, p, c);
    } else {
      TrackAApplies(codes, h, p);
    }
  }
}
