// When detection must propose: for each field, the exact condition under which
// a pass finds a candidate for it.
module Presence {
  import opened Common
  import opened Scoring
  import opened Criteria
  import opened Detect
  import opened Proposals

  ghost predicate HasField(cs: seq<Candidate>, field: Field) {
    exists c :: c in cs && c.field == field
  }

  ghost predicate Finds(h: History, p: Payload, field: Field)
    requires DetectCandidates(h, p).Ok?
  {
    HasField(DetectCandidates(h, p).value, field)
  }

  lemma HasFieldConcat(a: seq<Candidate>, b: seq<Candidate>, field: Field)
    ensures HasField(a + b, field) <==> HasField(a, field) || HasField(b, field)
  {
    if HasField(a, field) {
      var c :| c in a && c.field == field;
      assert c in a + b;
    }
    if HasField(b, field) {
      var c :| c in b && c.field == field;
      assert c in a + b;
    }
  }

  lemma HasFieldOpt(c: Option<Candidate>, field: Field)
    ensures HasField(Opt(c), field) <==> c.Some? && c.value.field == field
  {
    if c.Some? {
      assert c.value in Opt(c);
    }
  }

  lemma TrackBField(max: Option<Candidate>, min: Option<Candidate>, floor: Option<Candidate>, age: Option<Candidate>,
                    field: Field)
    ensures HasField(Opt(max) + Opt(min) + Opt(floor) + Opt(age), field) <==>
            || HasField(Opt(max), field) || HasField(Opt(min), field)
            || HasField(Opt(floor), field) || HasField(Opt(age), field)
  {
    HasFieldConcat(Opt(max), Opt(min), field);
    HasFieldConcat(Opt(max) + Opt(min), Opt(floor), field);
    HasFieldConcat(Opt(max) + Opt(min) + Opt(floor), Opt(age), field);
  }

  // Candidates of pairwise different fields are found by their fields.
  lemma FoundByField(a: Option<Candidate>, max: Option<Candidate>, min: Option<Candidate>, floor: Option<Candidate>,
                     age: Option<Candidate>, token: Option<Candidate>, company: Option<Candidate>, field: Field)
    requires a.Some? ==> a.value.field == DimensionWeights
    requires max.Some? ==> max.value.field == SeniorityMax
    requires min.Some? ==> min.value.field == SeniorityMin
    requires floor.Some? ==> floor.value.field == CompensationFloor
    requires age.Some? ==> age.value.field == PostingAgeDays
    requires token.Some? ==> token.value.field == TitleKeywords
    requires company.Some? ==> company.value.field == Employers
    ensures var b := Opt(max) + Opt(min) + Opt(floor) + Opt(age);
            HasField(Opt(a) + b + (Opt(token) + Opt(company)), field) <==>
            match field
            case DimensionWeights => a.Some?
            case SeniorityMax => max.Some?
            case SeniorityMin => min.Some?
            case CompensationFloor => floor.Some?
            case PostingAgeDays => age.Some?
            case TitleKeywords => token.Some?
            case Employers => company.Some?
            case _ => false
  {
    var b := Opt(max) + Opt(min) + Opt(floor) + Opt(age);
    TrackBField(max, min, floor, age, field);
    HasFieldConcat(Opt(a), b, field);
    HasFieldConcat(Opt(token), Opt(company), field);
    HasFieldConcat(Opt(a) + b, Opt(token) + Opt(company), field);
    HasFieldOpt(a, field);
    HasFieldOpt(max, field);
    HasFieldOpt(min, field);
    HasFieldOpt(floor, field);
    HasFieldOpt(age, field);
    HasFieldOpt(token, field);
    HasFieldOpt(company, field);
  }

  lemma FindsEach(h: History, p: Payload)
    requires DetectCandidates(h, p).Ok?
    ensures Finds(h, p, SeniorityMax) <==> TightenMax(h.fast, p).Some?
    ensures Finds(h, p, SeniorityMin) <==> TightenMin(h.fast, p).Some?
    ensures Finds(h, p, CompensationFloor) <==> RaiseFloor(h.fast, p).Some?
    ensures Finds(h, p, PostingAgeDays) <==> ShrinkAge(h.fast, p).Some?
    ensures Finds(h, p, TitleKeywords) <==> ExcludeToken(h, p).Some?
    ensures Finds(h, p, Employers) <==> ExcludeCompany(h, p).Some?
  {
    forall field
      ensures Finds(h, p, field) <==>
              match field
              case DimensionWeights => TrackA(h.fast, p).value.Some?
              case SeniorityMax => TightenMax(h.fast, p).Some?
              case SeniorityMin => TightenMin(h.fast, p).Some?
              case CompensationFloor => RaiseFloor(h.fast, p).Some?
              case PostingAgeDays => ShrinkAge(h.fast, p).Some?
              case TitleKeywords => ExcludeToken(h, p).Some?
              case Employers => ExcludeCompany(h, p).Some?
              case _ => false
    {
      FoundByField(TrackA(h.fast, p).value, TightenMax(h.fast, p), TightenMin(h.fast, p), RaiseFloor(h.fast, p),
                   ShrinkAge(h.fast, p), ExcludeToken(h, p), ExcludeCompany(h, p), field);
    }
  }

  // --- flags ------------------------------------------------------------------------------------------

  predicate SomeFlagged(fast: seq<Record>, flag: Flag) {
    exists r :: r in fast && flag in r.raised
  }

  lemma {:induction false} NoneFlagged(fast: seq<Record>, flag: Flag)
    ensures Flagged(fast, flag) != [] <==> SomeFlagged(fast, flag)
  {
    FlaggedExactly(fast, flag);
    if Flagged(fast, flag) != [] {
      assert Flagged(fast, flag)[0] in Flagged(fast, flag);
    }
  }

  lemma MaxIsTightenedExactly(fast: seq<Record>, p: Payload)
    ensures TightenMax(fast, p).Some? <==>
            && SomeFlagged(fast, StretchRole) && p.seniorityMax.Some? && p.seniorityMax.value > 0
            && (p.seniorityMin.Some? ==> p.seniorityMin.value < p.seniorityMax.value)
  {
    NoneFlagged(fast, StretchRole);
  }

  lemma MinIsTightenedExactly(fast: seq<Record>, p: Payload)
    ensures TightenMin(fast, p).Some? <==>
            && SomeFlagged(fast, StepDown) && p.seniorityMin.Some? && p.seniorityMin.value < 8
            && (p.seniorityMax.Some? ==> p.seniorityMin.value < p.seniorityMax.value)
  {
    NoneFlagged(fast, StepDown);
  }

  lemma AgeIsShrunkExactly(fast: seq<Record>, p: Payload)
    ensures ShrinkAge(fast, p).Some? <==> SomeFlagged(fast, PostingStale) && p.postingAgeDays > 7
  {
    NoneFlagged(fast, PostingStale);
  }

  // --- the floor -----------------------------------------------------------------------------------------

  // The flagged listings that state an amount, as positions in the history.
  ghost function WithAmount(fast: seq<Record>): set<int> {
    set i | 0 <= i < |fast| && CompBelowFloor in fast[i].raised && fast[i].compMin.Some?
  }

  ghost predicate AllComparable(fast: seq<Record>, floor: Floor) {
    forall i :: i in WithAmount(fast) ==>
      fast[i].compCurrency == floor.currency && fast[i].compPeriod == Some(floor.period)
  }

  // The amounts they state, in order.
  function StatedAmounts(fast: seq<Record>): seq<int> {
    Amounts(Flagged(fast, CompBelowFloor))
  }

  lemma {:induction false} AmountsSnoc(flagged: seq<Record>, r: Record)
    ensures Amounts(flagged + [r]) == Amounts(flagged) + if r.compMin.Some? then [r.compMin.value] else []
  {
    assert (flagged + [r])[..|flagged|] == flagged;
  }

  lemma {:induction false} StatedAmountsExactly(fast: seq<Record>)
    ensures |StatedAmounts(fast)| == |WithAmount(fast)|
    ensures forall x :: x in StatedAmounts(fast) <==> exists i :: i in WithAmount(fast) && fast[i].compMin == Some(x)
  {
    if fast != [] {
      var n := |fast| - 1;
      var init, last := fast[..n], fast[n];
      StatedAmountsExactly(init);
      AmountsSnoc(Flagged(init, CompBelowFloor), last);
      assert forall i :: i in WithAmount(init) ==> fast[i] == init[i];
      if CompBelowFloor in last.raised && last.compMin.Some? {
        assert WithAmount(fast) == WithAmount(init) + {n};
        assert StatedAmounts(fast) == StatedAmounts(init) + [last.compMin.value];
      } else {
        assert WithAmount(fast) == WithAmount(init);
        assert StatedAmounts(init) + [] == StatedAmounts(init);
        assert Flagged(init, CompBelowFloor) + [] == Flagged(init, CompBelowFloor);
      }
    }
  }

  lemma {:induction false} ComparableExactly(fast: seq<Record>, floor: Floor)
    ensures var flagged := Flagged(fast, CompBelowFloor);
            ComparableAmounts(flagged, floor) == if AllComparable(fast, floor) then StatedAmounts(fast) else []
  {
    FlaggedExactly(fast, CompBelowFloor);
    var flagged := Flagged(fast, CompBelowFloor);
    if i :| i in WithAmount(fast) && !Comparable(fast[i], floor) {
      assert fast[i] in flagged;
    }
    if r :| r in flagged && r.compMin.Some? && !Comparable(r, floor) {
      var i :| 0 <= i < |fast| && fast[i] == r;
      assert i in WithAmount(fast);
    }
  }

  ghost predicate FloorRises(fast: seq<Record>, floor: Floor) {
    && floor.amount.Some? && floor.currency.Some?
    && |WithAmount(fast)| >= 2 && AllComparable(fast, floor)
    && |StatedAmounts(fast)| >= 2 && Median(StatedAmounts(fast)) as real > floor.amount.value
  }

  lemma FloorIsRaisedExactly(fast: seq<Record>, p: Payload)
    ensures RaiseFloor(fast, p).Some? <==> FloorRises(fast, p.floor)
  {
    NoneFlagged(fast, CompBelowFloor);
    ComparableExactly(fast, p.floor);
    StatedAmountsExactly(fast);
    if |WithAmount(fast)| >= 2 {
      SomeAmount(fast);
    }
  }

  lemma SomeAmount(fast: seq<Record>)
    requires |WithAmount(fast)| >= 2
    ensures SomeFlagged(fast, CompBelowFloor)
  {
    var i :| i in WithAmount(fast);
    assert fast[i] in fast;
  }

  // --- repeated tokens and employers -------------------------------------------------------------------------

  ghost predicate TokenStands(h: History, p: Payload, token: string) {
    && |set r | r in h.fast && token in TitleTokens(r.title) :: r.title| >= 3
    && (forall r :: r in h.progressed ==> token !in TitleTokens(r.title))
    && (forall n :: n in p.exclusions.titleKeywords ==> Fold(n) != token)
  }

  // The listings of one employer, as positions in the history.
  ghost function ListingsOf(fast: seq<Record>, company: string): set<int> {
    set i | 0 <= i < |fast| && fast[i].company == company
  }

  ghost predicate CompanyStands(h: History, p: Payload, company: string) {
    && |ListingsOf(h.fast, company)| >= 3
    && (forall r :: r in h.progressed ==> Fold(r.company) != Fold(company))
    && (forall n :: n in p.exclusions.employers ==> Fold(n) != Fold(company))
  }

  lemma {:induction false} RecordsAtExactly(fast: seq<Record>, company: string)
    ensures |RecordsAt(fast, company)| == |ListingsOf(fast, company)|
    ensures forall r :: r in RecordsAt(fast, company) <==> r in fast && r.company == company
  {
    if fast != [] {
      var init, last := fast[..|fast| - 1], fast[|fast| - 1];
      assert fast == init + [last];
      RecordsAtExactly(init, company);
      ListingsSnoc(init, last, company);
    }
  }

  lemma ListingsSnoc(init: seq<Record>, last: Record, company: string)
    ensures |ListingsOf(init + [last], company)| ==
            |ListingsOf(init, company)| + if last.company == company then 1 else 0
  {
    var all, before := ListingsOf(init + [last], company), ListingsOf(init, company);
    if last.company == company {
      assert all == before + {|init|};
    } else {
      assert all == before;
    }
  }

  lemma {:induction false} RecordsWithExactly(fast: seq<Record>, token: string)
    ensures forall r :: r in RecordsWith(fast, token) <==> r in fast && token in TitleTokens(r.title)
  {
    if fast != [] {
      var init, last := fast[..|fast| - 1], fast[|fast| - 1];
      assert fast == init + [last];
      RecordsWithExactly(init, token);
    }
  }

  lemma {:induction false} AllTokensExactly(fast: seq<Record>)
    ensures forall t :: t in AllTokens(fast) <==> exists r :: r in fast && t in TitleTokens(r.title)
  {
    if fast != [] {
      var init, last := fast[..|fast| - 1], fast[|fast| - 1];
      assert fast == init + [last];
      AllTokensExactly(init);
    }
  }

  lemma TokenQualifiesExactly(h: History, p: Payload, token: string)
    ensures TokenQualifies(h, p, token) <==> TokenStands(h, p, token)
    ensures TokenQualifies(h, p, token) ==> token in AllTokens(h.fast)
  {
    AllTokensExactly(h.fast);
    if |TitlesWith(h.fast, token)| >= 3 {
      var title :| title in TitlesWith(h.fast, token);
    }
  }

  lemma TokenIsExcludedExactly(h: History, p: Payload)
    ensures ExcludeToken(h, p).Some? <==> exists token :: TokenStands(h, p, token)
  {
    if token :| TokenStands(h, p, token) {
      TokenQualifiesExactly(h, p, token);
    }
    var best := BestToken(h, p, AllTokens(h.fast));
    if best.Some? {
      TokenQualifiesExactly(h, p, best.value);
    }
  }

  lemma CompanyQualifiesExactly(h: History, p: Payload, company: string)
    ensures CompanyQualifies(h, p, company) <==> CompanyStands(h, p, company)
    ensures CompanyStands(h, p, company) ==> company in Companies(h.fast)
  {
    RecordsAtExactly(h.fast, company);
    FoldedCompanies(h.progressed, Fold(company));
    if |ListingsOf(h.fast, company)| >= 3 {
      var i :| i in ListingsOf(h.fast, company);
      assert Companies(h.fast)[i] == company;
    }
  }

  lemma FoldedCompanies(records: seq<Record>, folded: string)
    ensures InSomeFold(Companies(records), folded) <==> exists r :: r in records && Fold(r.company) == folded
  {
    if r :| r in records && Fold(r.company) == folded {
      var i :| 0 <= i < |records| && records[i] == r;
      assert Companies(records)[i] == r.company && Companies(records)[i] in Companies(records);
    }
    if n :| n in Companies(records) && Fold(n) == folded {
      var i :| 0 <= i < |records| && Companies(records)[i] == n;
      assert records[i] in records && Fold(records[i].company) == folded;
    }
  }

  lemma CompanyIsExcludedExactly(h: History, p: Payload)
    ensures ExcludeCompany(h, p).Some? <==> exists company :: CompanyStands(h, p, company)
  {
    if company :| CompanyStands(h, p, company) {
      CompanyQualifiesExactly(h, p, company);
    }
    var best := BestCompany(h, p, Companies(h.fast));
    if best.Some? {
      CompanyQualifiesExactly(h, p, best.value);
    }
  }

  // A Track C edit appends one standing name to the list it is for, and is backed
  // by exactly the rejected listings that carry the name.
  lemma TrackCEdits(h: History, p: Payload, c: Candidate)
    requires c in TrackC(h, p)
    ensures c.direction == Tighten && c.quotes == 0
    ensures c.field == TitleKeywords ==>
              exists token :: TokenStands(h, p, token)
                && c.proposed == NamesValue(p.exclusions.titleKeywords + [token])
                && forall r :: r in c.observations <==> r in h.fast && token in TitleTokens(r.title)
    ensures c.field == Employers ==>
              exists company :: CompanyStands(h, p, company)
                && c.proposed == NamesValue(p.exclusions.employers + [company])
                && forall r :: r in c.observations <==> r in h.fast && r.company == company
    ensures c.field == TitleKeywords || c.field == Employers
  {
    if Some(c) == ExcludeToken(h, p) {
      var token := BestToken(h, p, AllTokens(h.fast)).value;
      TokenQualifiesExactly(h, p, token);
      RecordsWithExactly(h.fast, token);
    } else {
      assert Some(c) == ExcludeCompany(h, p);
      var company := BestCompany(h, p, Companies(h.fast)).value;
      CompanyQualifiesExactly(h, p, company);
      RecordsAtExactly(h.fast, company);
    }
  }

  // --- all fields ---------------------------------------------------------------------------------------------

  lemma FindsMax(h: History, p: Payload)
    requires DetectCandidates(h, p).Ok?
    ensures Finds(h, p, SeniorityMax) <==>
            && SomeFlagged(h.fast, StretchRole) && p.seniorityMax.Some? && p.seniorityMax.value > 0
            && (p.seniorityMin.Some? ==> p.seniorityMin.value < p.seniorityMax.value)
  {
    FindsEach(h, p);
    MaxIsTightenedExactly(h.fast, p);
  }

  lemma FindsMin(h: History, p: Payload)
    requires DetectCandidates(h, p).Ok?
    ensures Finds(h, p, SeniorityMin) <==>
            && SomeFlagged(h.fast, StepDown) && p.seniorityMin.Some? && p.seniorityMin.value < 8
            && (p.seniorityMax.Some? ==> p.seniorityMin.value < p.seniorityMax.value)
  {
    FindsEach(h, p);
    MinIsTightenedExactly(h.fast, p);
  }

  lemma FindsFloor(h: History, p: Payload)
    requires DetectCandidates(h, p).Ok?
    ensures Finds(h, p, CompensationFloor) <==> FloorRises(h.fast, p.floor)
  {
    FloorIsRaisedExactly(h.fast, p);
    FindsEach(h, p);
  }

  lemma FindsAge(h: History, p: Payload)
    requires DetectCandidates(h, p).Ok?
    ensures Finds(h, p, PostingAgeDays) <==> SomeFlagged(h.fast, PostingStale) && p.postingAgeDays > 7
  {
    FindsEach(h, p);
    AgeIsShrunkExactly(h.fast, p);
  }

  lemma FindsToken(h: History, p: Payload)
    requires DetectCandidates(h, p).Ok?
    ensures Finds(h, p, TitleKeywords) <==> exists token :: TokenStands(h, p, token)
  {
    TokenIsExcludedExactly(h, p);
    FindsEach(h, p);
  }

  lemma FindsCompany(h: History, p: Payload)
    requires DetectCandidates(h, p).Ok?
    ensures Finds(h, p, Employers) <==> exists company :: CompanyStands(h, p, company)
  {
    CompanyIsExcludedExactly(h, p);
    FindsEach(h, p);
  }

  // A pass finds a Track B or Track C candidate for a field exactly when its
  // condition on history and payload holds.
  lemma FindsExactly(h: History, p: Payload)
    requires DetectCandidates(h, p).Ok?
    ensures Finds(h, p, SeniorityMax) <==>
            && SomeFlagged(h.fast, StretchRole) && p.seniorityMax.Some? && p.seniorityMax.value > 0
            && (p.seniorityMin.Some? ==> p.seniorityMin.value < p.seniorityMax.value)
    ensures Finds(h, p, SeniorityMin) <==>
            && SomeFlagged(h.fast, StepDown) && p.seniorityMin.Some? && p.seniorityMin.value < 8
            && (p.seniorityMax.Some? ==> p.seniorityMin.value < p.seniorityMax.value)
    ensures Finds(h, p, CompensationFloor) <==> FloorRises(h.fast, p.floor)
    ensures Finds(h, p, PostingAgeDays) <==> SomeFlagged(h.fast, PostingStale) && p.postingAgeDays > 7
    ensures Finds(h, p, TitleKeywords) <==> exists token :: TokenStands(h, p, token)
    ensures Finds(h, p, Employers) <==> exists company :: CompanyStands(h, p, company)
  {
    FindsMax(h, p);
    FindsMin(h, p);
    FindsFloor(h, p);
    FindsAge(h, p);
    FindsToken(h, p);
    FindsCompany(h, p);
  }

  // The number of observations and quotes each kind of edit needs.
  lemma ThresholdsExactly(c: Candidate)
    ensures MeetsThreshold(c) <==>
            |c.observations| + c.quotes >=
            match c.field
            case DimensionWeights => 8
            case PostingAgeDays => 5
            case LocationsField => 5
            case TitleKeywords => 3
            case Employers => 3
            case Unpermitted(_) => 0
            case _ => 4
  {
  }
}
