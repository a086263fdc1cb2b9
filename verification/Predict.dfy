// The predicted effect of a proposed edit on the stored backlog, and how the
// predicted scores compare with what a rescoring of the jobs table stores.
module Predict {
  import opened Common
  import opened Counting
  import opened Jobs
  import opened Scoring
  import opened Criteria
  import opened Detect

  datatype Comp = Comp(absent: bool, minimum: Option<int>, currency: Option<string>, period: Option<Period>)

  // What location parsing made of a listing.
  datatype Place = Place(worldwide: bool, region: Option<string>, country: Option<string>)

  // A stored job as the predictions see it; `rung` is the seniority its title implies.
  datatype Listing = Listing(
    status: JobStatus, postedAt: Option<Time>, place: Place, rung: Option<int>, comp: Comp,
    dims: Option<Dims>, overall: Option<int>)

  const LIVE := {New, Shortlisted, Applied, Interviewing, Offer}
  const SAMPLE_CAP := 5

  function Live(jobs: seq<Listing>): seq<Listing> {
    if jobs == [] then []
    else Live(jobs[..|jobs| - 1]) + if jobs[|jobs| - 1].status in LIVE then [jobs[|jobs| - 1]] else []
  }

  // --- filters -------------------------------------------------------------------------------------

  datatype Verdict = Pass(uncertain: bool) | Drop

  function CheckPostingAge(postedAt: Option<Time>, maxAgeDays: Option<int>, now: Time): Verdict {
    if maxAgeDays.None? then Pass(false)
    else if postedAt.None? then Pass(true)
    else
      var age := (now - postedAt.value) / DAY;
      if age < 0 then Pass(true)
      else if age > maxAgeDays.value then Drop
      else Pass(false)
  }

  function CheckGeography(place: Place, eligible: Locations): Verdict {
    if eligible.countries == [] && eligible.regions == [] then Pass(false)
    else if place.worldwide then Pass(false)
    else if place.region.Some? && place.region.value in eligible.regions then Pass(false)
    else if place.country.Some? && eligible.countries != [] then
      if place.country.value in eligible.countries then Pass(false) else Drop
    else if place.country.None? && place.region.Some? && eligible.regions != [] then Drop
    else Pass(true)
  }

  // A posting is dropped exactly when its age in whole days is known and above the
  // limit; one from the future never is.
  lemma AgeDropsExactly(postedAt: Option<Time>, maxAgeDays: Option<int>, now: Time)
    ensures CheckPostingAge(postedAt, maxAgeDays, now).Drop? <==>
            && postedAt.Some? && maxAgeDays.Some? && postedAt.value <= now
            && now - postedAt.value >= (maxAgeDays.value + 1) * DAY
    ensures CheckPostingAge(postedAt, maxAgeDays, now) == Pass(true) <==>
            maxAgeDays.Some? && (postedAt.None? || now < postedAt.value)
  {
    if postedAt.Some? && maxAgeDays.Some? {
      WholeDays(now - postedAt.value, maxAgeDays.value);
    }
  }

  lemma WholeDays(elapsed: Time, days: int)
    ensures elapsed / DAY > days <==> elapsed >= (days + 1) * DAY
    ensures elapsed / DAY < 0 <==> elapsed < 0
  {
  }

  // A place is dropped exactly when no list it could be in names it and the list
  // that decides about it is not empty: the countries for a known country, the
  // regions for a region alone.
  lemma GeographyDropsExactly(place: Place, eligible: Locations)
    ensures CheckGeography(place, eligible).Drop? <==>
            && !place.worldwide
            && !(place.region.Some? && place.region.value in eligible.regions)
            && ((place.country.Some? && eligible.countries != [] && place.country.value !in eligible.countries)
                || (place.country.None? && place.region.Some? && eligible.regions != []))
    ensures CheckGeography(place, eligible) == Pass(true) <==>
            && (eligible.countries != [] || eligible.regions != []) && !place.worldwide
            && !(place.region.Some? && place.region.value in eligible.regions)
            && (place.country.Some? ==> eligible.countries == [])
            && (place.country.None? && place.region.Some? ==> eligible.regions == [])
  {
  }

  // Every listing that is not rejected or withdrawn is live.
  lemma {:induction false} LiveIsKept(jobs: seq<Listing>, p: Listing -> bool)
    requires forall job :: p(job) <==> job.status != Rejected && job.status != Withdrawn
    ensures Live(jobs) == Keep(jobs, p)
  {
    if jobs != [] {
      LiveIsKept(jobs[..|jobs| - 1], p);
    }
  }

  lemma {:induction false} LiveExactly(jobs: seq<Listing>, p: Listing -> bool)
    requires forall job :: p(job) <==> job.status != Rejected && job.status != Withdrawn
    ensures |Live(jobs)| == |Positions(jobs, p)|
    ensures forall job :: job in Live(jobs) <==> job in jobs && p(job)
  {
    LiveIsKept(jobs, p);
    KeepExactly(jobs, p);
  }

  datatype FilterEdit = AgeEdit(before: int, after: int) | PlaceEdit(was: Locations, becomes: Locations)

  function FilterBefore(job: Listing, edit: FilterEdit, now: Time): Verdict {
    match edit
    case AgeEdit(before, _) => CheckPostingAge(job.postedAt, Some(before), now)
    case PlaceEdit(was, _) => CheckGeography(job.place, was)
  }

  function FilterAfter(job: Listing, edit: FilterEdit, now: Time): Verdict {
    match edit
    case AgeEdit(_, after) => CheckPostingAge(job.postedAt, Some(after), now)
    case PlaceEdit(_, becomes) => CheckGeography(job.place, becomes)
  }

  predicate NewlyDropped(job: Listing, edit: FilterEdit, now: Time) {
    FilterBefore(job, edit, now).Pass? && FilterAfter(job, edit, now).Drop?
  }

  predicate NewlyPassed(job: Listing, edit: FilterEdit, now: Time) {
    FilterBefore(job, edit, now).Drop? && FilterAfter(job, edit, now).Pass?
  }

  function Excluded(jobs: seq<Listing>, edit: FilterEdit, now: Time): seq<Listing> {
    if jobs == [] then []
    else
      Excluded(jobs[..|jobs| - 1], edit, now)
      + if NewlyDropped(jobs[|jobs| - 1], edit, now) then [jobs[|jobs| - 1]] else []
  }

  function Included(jobs: seq<Listing>, edit: FilterEdit, now: Time): seq<Listing> {
    if jobs == [] then []
    else
      Included(jobs[..|jobs| - 1], edit, now)
      + if NewlyPassed(jobs[|jobs| - 1], edit, now) then [jobs[|jobs| - 1]] else []
  }

  // The listings that an edit newly drops, and those it newly lets pass, counted by position.
  lemma {:induction false} ExcludedIsKept(jobs: seq<Listing>, edit: FilterEdit, now: Time, p: Listing -> bool)
    requires forall job :: p(job) <==> NewlyDropped(job, edit, now)
    ensures Excluded(jobs, edit, now) == Keep(jobs, p)
  {
    if jobs != [] {
      ExcludedIsKept(jobs[..|jobs| - 1], edit, now, p);
    }
  }

  lemma {:induction false} ExcludedExactly(jobs: seq<Listing>, edit: FilterEdit, now: Time, p: Listing -> bool)
    requires forall job :: p(job) <==> NewlyDropped(job, edit, now)
    ensures |Excluded(jobs, edit, now)| == |Positions(jobs, p)|
    ensures forall job :: job in Excluded(jobs, edit, now) <==> job in jobs && p(job)
  {
    ExcludedIsKept(jobs, edit, now, p);
    KeepExactly(jobs, p);
  }

  lemma {:induction false} IncludedIsKept(jobs: seq<Listing>, edit: FilterEdit, now: Time, p: Listing -> bool)
    requires forall job :: p(job) <==> NewlyPassed(job, edit, now)
    ensures Included(jobs, edit, now) == Keep(jobs, p)
  {
    if jobs != [] {
      IncludedIsKept(jobs[..|jobs| - 1], edit, now, p);
    }
  }

  lemma {:induction false} IncludedExactly(jobs: seq<Listing>, edit: FilterEdit, now: Time, p: Listing -> bool)
    requires forall job :: p(job) <==> NewlyPassed(job, edit, now)
    ensures |Included(jobs, edit, now)| == |Positions(jobs, p)|
    ensures forall job :: job in Included(jobs, edit, now) <==> job in jobs && p(job)
  {
    IncludedIsKept(jobs, edit, now, p);
    KeepExactly(jobs, p);
  }

  datatype FilterEffect = FilterEffect(wouldExclude: nat, wouldInclude: nat, backlog: nat, sample: seq<Listing>)

  method LoadLiveBacklog(jobs: seq<Listing>) returns (live: seq<Listing>)
    ensures live == Live(jobs)
  {
    live := [];
    for i := 0 to |jobs|
      invariant live == Live(jobs[..i])
    {
      assert jobs[..i + 1][..i] == jobs[..i];
      if jobs[i].status in LIVE {
        live := live + [jobs[i]];
      }
    }
    assert jobs[..|jobs|] == jobs;
  }

  method PredictFilterChange(jobs: seq<Listing>, edit: FilterEdit, now: Time) returns (effect: FilterEffect)
    ensures effect.wouldExclude == |Excluded(Live(jobs), edit, now)|
    ensures effect.wouldInclude == |Included(Live(jobs), edit, now)|
    ensures effect.backlog == |Live(jobs)|
    ensures var source := if effect.wouldExclude > 0 then Excluded(Live(jobs), edit, now)
                             else Included(Live(jobs), edit, now);
            effect.sample == if |source| <= SAMPLE_CAP then source else source[..SAMPLE_CAP]
  {
    var live := LoadLiveBacklog(jobs);
    var excluded, included := [], [];
    for i := 0 to |live|
      invariant excluded == Excluded(live[..i], edit, now)
      invariant included == Included(live[..i], edit, now)
    {
      assert live[..i + 1][..i] == live[..i];
      var before, after := FilterBefore(live[i], edit, now), FilterAfter(live[i], edit, now);
      if before.Pass? && after.Drop? {
        excluded := excluded + [live[i]];
      } else if before.Drop? && after.Pass? {
        included := included + [live[i]];
      }
    }
    assert live[..|live|] == live;
    var source := if excluded != [] then excluded else included;
    effect := FilterEffect(|excluded|, |included|, |live|,
                           if |source| <= SAMPLE_CAP then source else source[..SAMPLE_CAP]);
  }

  lemma {:induction false} NoneIncluded(jobs: seq<Listing>, edit: FilterEdit, now: Time)
    requires forall job :: job in jobs ==> !NewlyPassed(job, edit, now)
    ensures Included(jobs, edit, now) == []
  {
    if jobs != [] {
      assert jobs[|jobs| - 1] in jobs;
      assert forall job :: job in jobs[..|jobs| - 1] ==> job in jobs;
      NoneIncluded(jobs[..|jobs| - 1], edit, now);
    }
  }

  // Lowering the age limit lets nothing back in, and drops exactly the listings
  // whose age lies between the two limits.
  lemma AgeTightening(job: Listing, before: int, after: int, now: Time)
    requires 0 <= after <= before
    ensures !NewlyPassed(job, AgeEdit(before, after), now)
    ensures NewlyDropped(job, AgeEdit(before, after), now) <==>
            job.postedAt.Some? && after < (now - job.postedAt.value) / DAY <= before
  {
  }

  ghost predicate Wider(was: Locations, becomes: Locations) {
    && (forall c :: c in was.countries ==> c in becomes.countries)
    && (forall r :: r in was.regions ==> r in becomes.regions)
  }

  // What parsing can make of a location: a known country, or else one of the
  // five regions, or neither. Beside a country any region name may stand.
  predicate RealPlace(codes: Codes, place: Place) {
    && (place.country.Some? ==> place.country.value in codes.countries)
    && (place.country.None? && place.region.Some? ==> place.region.value in REGIONS)
  }

  // An empty list judges nothing; its first entries start to judge, unless they
  // name everything at once.
  predicate StartsJudging(all: set<string>, was: seq<string>, becomes: seq<string>) {
    was == [] && becomes != [] && exists name :: name in all && name !in becomes
  }

  // More eligible places drop no real listing, except exactly when a list that
  // was empty becomes a list of some but not all countries or regions.
  lemma GeographyWidening(codes: Codes, was: Locations, becomes: Locations)
    requires Wider(was, becomes)
    ensures (forall place :: RealPlace(codes, place) && CheckGeography(place, was).Pass? ==>
               CheckGeography(place, becomes).Pass?) <==>
            && !StartsJudging(codes.countries, was.countries, becomes.countries)
            && !StartsJudging(REGIONS, was.regions, becomes.regions)
  {
    if StartsJudging(codes.countries, was.countries, becomes.countries) {
      var country :| country in codes.countries && country !in becomes.countries;
      FirstCountriesDrop(was, becomes, country);
      assert RealPlace(codes, Place(false, None, Some(country)));
    }
    if StartsJudging(REGIONS, was.regions, becomes.regions) {
      var region :| region in REGIONS && region !in becomes.regions;
      FirstRegionsDrop(was, becomes, region);
      assert RealPlace(codes, Place(false, Some(region), None));
    }
  }

  lemma FirstCountriesDrop(was: Locations, becomes: Locations, country: string)
    requires was.countries == [] && becomes.countries != [] && country !in becomes.countries
    ensures var place := Place(false, None, Some(country));
            CheckGeography(place, was).Pass? && CheckGeography(place, becomes).Drop?
  {
  }

  lemma FirstRegionsDrop(was: Locations, becomes: Locations, region: string)
    requires was.regions == [] && becomes.regions != [] && region !in becomes.regions
    ensures var place := Place(false, Some(region), None);
            CheckGeography(place, was).Pass? && CheckGeography(place, becomes).Drop?
  {
  }

  // Making Germany eligible where everything was drops a listing in France.
  lemma WideningDropsAListing(codes: Codes)
    requires {"DE", "FR"} <= codes.countries
    ensures var was, becomes := Locations([], [], []), Locations(["DE"], [], []);
            var place := Place(false, None, Some("FR"));
            && Wider(was, becomes) && RealPlace(codes, place)
            && CheckGeography(place, was).Pass? && CheckGeography(place, becomes).Drop?
  {
    assert "FR"[0] != "DE"[0];
    FirstCountriesDrop(Locations([], [], []), Locations(["DE"], [], []), "FR");
  }

  // --- flags ----------------------------------------------------------------------------------------

  datatype FloorComparison = Above | Below | NotComparable | NoData

  function CompareToFloor(comp: Comp, floor: Floor): FloorComparison {
    if floor.amount.None? || comp.absent || comp.minimum.None? then NoData
    else if floor.currency.None? || comp.currency.None? || comp.currency != floor.currency then NotComparable
    else if comp.period.None? || comp.period.value != floor.period then NotComparable
    else if comp.minimum.value as real >= floor.amount.value then Above
    else Below
  }

  function SeniorityFlagRaised(rung: int, bound: Option<int>, ceiling: bool): bool {
    if bound.None? || !(0 <= bound.value < LADDER) then false
    else if ceiling then rung > bound.value
    else rung < bound.value
  }

  function CompBelow(comp: Comp, floor: Floor): Option<bool> {
    match CompareToFloor(comp.(absent := false), floor)
    case Below => Some(true)
    case Above => Some(false)
    case _ => None
  }

  datatype FlagEdit =
    | MaxEdit(maxWas: Option<int>, maxBecomes: Option<int>)
    | MinEdit(minWas: Option<int>, minBecomes: Option<int>)
    | FloorEdit(floorWas: Floor, floorBecomes: Floor)

  // Whether the flag is raised before and after; None when it cannot be judged.
  function FlagBefore(job: Listing, edit: FlagEdit): Option<bool> {
    match edit
    case FloorEdit(was, _) => CompBelow(job.comp, was)
    case MaxEdit(was, _) => if job.rung.None? then None else Some(SeniorityFlagRaised(job.rung.value, was, true))
    case MinEdit(was, _) => if job.rung.None? then None else Some(SeniorityFlagRaised(job.rung.value, was, false))
  }

  function FlagAfter(job: Listing, edit: FlagEdit): Option<bool> {
    match edit
    case FloorEdit(_, becomes) => CompBelow(job.comp, becomes)
    case MaxEdit(_, becomes) =>
      if job.rung.None? then None else Some(SeniorityFlagRaised(job.rung.value, becomes, true))
    case MinEdit(_, becomes) =>
      if job.rung.None? then None else Some(SeniorityFlagRaised(job.rung.value, becomes, false))
  }

  datatype Shift = Raised | Cleared | Same | Unknown

  function ShiftOf(job: Listing, edit: FlagEdit): Shift {
    var before, after := FlagBefore(job, edit), FlagAfter(job, edit);
    if before.None? || after.None? then Unknown
    else if after.value && !before.value then Raised
    else if before.value && !after.value then Cleared
    else Same
  }

  function Shifted(jobs: seq<Listing>, edit: FlagEdit, shift: Shift): nat {
    if jobs == [] then 0
    else Shifted(jobs[..|jobs| - 1], edit, shift) + if ShiftOf(jobs[|jobs| - 1], edit) == shift then 1 else 0
  }

  datatype FlagEffect = FlagEffect(wouldFlag: nat, wouldUnflag: nat, unknown: nat, backlog: nat)

  method PredictFlagChange(jobs: seq<Listing>, edit: FlagEdit) returns (effect: FlagEffect)
    ensures effect == FlagEffect(Shifted(Live(jobs), edit, Raised), Shifted(Live(jobs), edit, Cleared),
                                 Shifted(Live(jobs), edit, Unknown), |Live(jobs)|)
  {
    var live := LoadLiveBacklog(jobs);
    var wouldFlag, wouldUnflag, unknown := 0, 0, 0;
    for i := 0 to |live|
      invariant wouldFlag == Shifted(live[..i], edit, Raised)
      invariant wouldUnflag == Shifted(live[..i], edit, Cleared)
      invariant unknown == Shifted(live[..i], edit, Unknown)
    {
      assert live[..i + 1][..i] == live[..i];
      var before, after := FlagBefore(live[i], edit), FlagAfter(live[i], edit);
      if before.None? || after.None? {
        unknown := unknown + 1;
      } else if after.value && !before.value {
        wouldFlag := wouldFlag + 1;
      } else if before.value && !after.value {
        wouldUnflag := wouldUnflag + 1;
      }
    }
    assert live[..|live|] == live;
    effect := FlagEffect(wouldFlag, wouldUnflag, unknown, |live|);
  }

  lemma {:induction false} NoneShifted(jobs: seq<Listing>, edit: FlagEdit, shift: Shift)
    requires forall job :: job in jobs ==> ShiftOf(job, edit) != shift
    ensures Shifted(jobs, edit, shift) == 0
  {
    if jobs != [] {
      assert jobs[|jobs| - 1] in jobs;
      assert forall job :: job in jobs[..|jobs| - 1] ==> job in jobs;
      NoneShifted(jobs[..|jobs| - 1], edit, shift);
    }
  }

  lemma {:induction false} ShiftedIsKept(jobs: seq<Listing>, edit: FlagEdit, shift: Shift, p: Listing -> bool)
    requires forall job :: p(job) <==> ShiftOf(job, edit) == shift
    ensures Shifted(jobs, edit, shift) == |Keep(jobs, p)|
  {
    if jobs != [] {
      ShiftedIsKept(jobs[..|jobs| - 1], edit, shift, p);
    }
  }

  lemma {:induction false} ShiftedExactly(jobs: seq<Listing>, edit: FlagEdit, shift: Shift, p: Listing -> bool)
    requires forall job :: p(job) <==> ShiftOf(job, edit) == shift
    ensures Shifted(jobs, edit, shift) == |Positions(jobs, p)|
  {
    ShiftedIsKept(jobs, edit, shift, p);
    KeepExactly(jobs, p);
  }

  // Lowering the ceiling flags exactly the titles above the new one and not above
  // the old one; raising it clears exactly those between the other way round.
  lemma CeilingShiftsExactly(job: Listing, was: int, becomes: int)
    requires 0 <= was < LADDER && 0 <= becomes < LADDER
    ensures var shift := ShiftOf(job, MaxEdit(Some(was), Some(becomes)));
            && (shift == Raised <==> job.rung.Some? && becomes < job.rung.value <= was)
            && (shift == Cleared <==> job.rung.Some? && was < job.rung.value <= becomes)
            && (shift == Unknown <==> job.rung.None?)
  {
  }

  lemma GroundShiftsExactly(job: Listing, was: int, becomes: int)
    requires 0 <= was < LADDER && 0 <= becomes < LADDER
    ensures var shift := ShiftOf(job, MinEdit(Some(was), Some(becomes)));
            && (shift == Raised <==> job.rung.Some? && was <= job.rung.value < becomes)
            && (shift == Cleared <==> job.rung.Some? && becomes <= job.rung.value < was)
            && (shift == Unknown <==> job.rung.None?)
  {
  }

  // Without a limit nothing is flagged.
  lemma FirstLimitShiftsExactly(job: Listing, becomes: int)
    requires 0 <= becomes < LADDER
    ensures ShiftOf(job, MaxEdit(None, Some(becomes))) == Raised <==> job.rung.Some? && job.rung.value > becomes
    ensures ShiftOf(job, MinEdit(None, Some(becomes))) == Raised <==> job.rung.Some? && job.rung.value < becomes
    ensures ShiftOf(job, MaxEdit(Some(becomes), None)) == Cleared <==> job.rung.Some? && job.rung.value > becomes
    ensures ShiftOf(job, MinEdit(Some(becomes), None)) == Cleared <==> job.rung.Some? && job.rung.value < becomes
  {
  }

  // Whether a listing's minimum amount can be held against a floor.
  predicate ComparesWith(comp: Comp, floor: Floor) {
    && comp.minimum.Some? && comp.currency.Some? && comp.period.Some? && floor.amount.Some?
    && comp.currency == floor.currency && comp.period == Some(floor.period)
  }

  lemma FloorShiftsExactly(job: Listing, was: Floor, becomes: Floor)
    ensures var shift := ShiftOf(job, FloorEdit(was, becomes));
            && (shift == Unknown <==> !ComparesWith(job.comp, was) || !ComparesWith(job.comp, becomes))
            && (ComparesWith(job.comp, was) && ComparesWith(job.comp, becomes) ==>
                  var amount := job.comp.minimum.value as real;
                  && (shift == Raised <==> was.amount.value <= amount < becomes.amount.value)
                  && (shift == Cleared <==> becomes.amount.value <= amount < was.amount.value))
  {
  }

  // --- the effect of what is detected -----------------------------------------------------------------

  function FlagEditOf(c: Candidate): Option<FlagEdit> {
    match (c.field, c.current, c.proposed)
    case (SeniorityMax, RungValue(was), RungValue(becomes)) => Some(MaxEdit(was, becomes))
    case (SeniorityMin, RungValue(was), RungValue(becomes)) => Some(MinEdit(was, becomes))
    case (CompensationFloor, FloorValue(was), FloorValue(becomes)) => Some(FloorEdit(was, becomes))
    case _ => None
  }

  function AgeEditOf(c: Candidate): Option<FilterEdit> {
    match (c.field, c.current, c.proposed)
    case (PostingAgeDays, DaysValue(was), DaysValue(becomes)) => Some(AgeEdit(was, becomes))
    case _ => None
  }

  // Every Track B edit is predicted to move listings one way only, whatever the
  // backlog: an age edit lets none back in, a flag edit clears no flag.
  lemma {:induction false} DetectedEditsMoveOneWay(h: History, p: Payload, c: Candidate, jobs: seq<Listing>, now: Time)
    requires c in TrackB(h, p)
    ensures c.field == PostingAgeDays ==>
              AgeEditOf(c).Some? && Included(Live(jobs), AgeEditOf(c).value, now) == []
    ensures c.field != PostingAgeDays ==>
              FlagEditOf(c).Some? && Shifted(Live(jobs), FlagEditOf(c).value, Cleared) == 0
  {
    if Some(c) == ShrinkAge(h.fast, p) {
      AgeEditsIncludeNothing(h.fast, p, c, Live(jobs), now);
    } else {
      FlagEditsOnlyRaise(h, p, c);
      NoneShifted(Live(jobs), FlagEditOf(c).value, Cleared);
    }
  }

  lemma {:induction false} AgeEditsIncludeNothing(fast: seq<Record>, p: Payload, c: Candidate, live: seq<Listing>,
                                                  now: Time)
    requires Some(c) == ShrinkAge(fast, p)
    ensures AgeEditOf(c).Some? && Included(live, AgeEditOf(c).value, now) == []
  {
    var edit := AgeEditOf(c).value;
    forall job | job in live
      ensures !NewlyPassed(job, edit, now)
    {
      AgeTightening(job, edit.before, edit.after, now);
    }
    NoneIncluded(live, edit, now);
  }

  lemma MaxEditOnlyRaises(fast: seq<Record>, p: Payload, c: Candidate)
    requires Some(c) == TightenMax(fast, p)
    ensures c.field != PostingAgeDays && FlagEditOf(c).Some?
    ensures forall job :: ShiftOf(job, FlagEditOf(c).value) != Cleared
  {
  }

  lemma MinEditOnlyRaises(fast: seq<Record>, p: Payload, c: Candidate)
    requires Some(c) == TightenMin(fast, p)
    ensures c.field != PostingAgeDays && FlagEditOf(c).Some?
    ensures forall job :: ShiftOf(job, FlagEditOf(c).value) != Cleared
  {
  }

  lemma FloorEditOnlyRaises(fast: seq<Record>, p: Payload, c: Candidate)
    requires Some(c) == RaiseFloor(fast, p)
    ensures c.field != PostingAgeDays && FlagEditOf(c).Some?
    ensures forall job :: ShiftOf(job, FlagEditOf(c).value) != Cleared
  {
  }

  lemma FlagEditsOnlyRaise(h: History, p: Payload, c: Candidate)
    requires Some(c) in {TightenMax(h.fast, p), TightenMin(h.fast, p), RaiseFloor(h.fast, p)}
    ensures c.field != PostingAgeDays && FlagEditOf(c).Some?
    ensures forall job :: ShiftOf(job, FlagEditOf(c).value) != Cleared
  {
    if Some(c) == TightenMax(h.fast, p) {
      MaxEditOnlyRaises(h.fast, p, c);
    } else if Some(c) == TightenMin(h.fast, p) {
      MinEditOnlyRaises(h.fast, p, c);
    } else {
      FloorEditOnlyRaises(h.fast, p, c);
    }
  }

  // --- scores -------------------------------------------------------------------------------------------

  function ScoresOf(job: Listing): seq<Assessed> {
    if job.dims.Some? then StoredScores(job.dims.value) else []
  }

  predicate Scoreable(job: Listing, weights: Weights) {
    ComputeOverall(ScoresOf(job), weights).Scored?
  }

  predicate BothScoreable(job: Listing, current: Weights, proposed: Weights) {
    Scoreable(job, current) && Scoreable(job, proposed)
  }

  function Delta(job: Listing, current: Weights, proposed: Weights): int
    requires BothScoreable(job, current, proposed)
  {
    ComputeOverall(ScoresOf(job), proposed).hundredths - ComputeOverall(ScoresOf(job), current).hundredths
  }

  function OwnDelta(job: Listing, current: Weights, proposed: Weights): seq<int> {
    if BothScoreable(job, current, proposed) && Delta(job, current, proposed) != 0
    then [Delta(job, current, proposed)] else []
  }

  function Deltas(jobs: seq<Listing>, current: Weights, proposed: Weights): seq<int> {
    if jobs == [] then []
    else
      var job := jobs[|jobs| - 1];
      Deltas(jobs[..|jobs| - 1], current, proposed)
      + OwnDelta(job, current, proposed)
  }

  function Skipped(jobs: seq<Listing>, current: Weights, proposed: Weights): nat {
    if jobs == [] then 0
    else
      Skipped(jobs[..|jobs| - 1], current, proposed)
      + if BothScoreable(jobs[|jobs| - 1], current, proposed) then 0 else 1
  }

  function Abs(x: int): nat {
    if x >= 0 then x else -x
  }

  function Total(xs: seq<int>): int {
    if xs == [] then 0 else Total(xs[..|xs| - 1]) + xs[|xs| - 1]
  }

  // The first element of greatest magnitude.
  function Largest(xs: seq<int>): int
    requires xs != []
  {
    if |xs| == 1 then xs[0]
    else
      var best, last := Largest(xs[..|xs| - 1]), xs[|xs| - 1];
      if Abs(last) > Abs(best) then last else best
  }

  // total/n to the nearest whole number, halves away from zero.
  function MeanHalfUp(total: int, n: nat): (mean: int)
    requires n > 0
    ensures 0 - n <= 2 * (mean * n - total) <= n
    ensures 2 * (mean * n - total) == 0 - n ==> total < 0
    ensures 2 * (mean * n - total) == n ==> total >= 0
  {
    HalfUpOf(if total >= 0 then total else -total, n);
    if total >= 0 then (2 * total + n) / (2 * n) else -((-2 * total + n) / (2 * n))
  }

  lemma HalfUpOf(a: nat, n: nat)
    requires n > 0
    ensures var q := (2 * a + n) / (2 * n); 0 - n < 2 * (q * n - a) <= n
  {
    var q, r := (2 * a + n) / (2 * n), (2 * a + n) % (2 * n);
    assert 2 * a + n == q * (2 * n) + r;
    assert q * (2 * n) == 2 * (q * n);
  }

  lemma TotalOfOne(x: int)
    ensures Total([x]) == x && Total([]) == 0
  {
    assert [x][..0] == [];
  }

  lemma {:induction false} TotalAddsUp(xs: seq<int>, ys: seq<int>)
    ensures Total(xs + ys) == Total(xs) + Total(ys)
    decreases |ys|
  {
    if ys == [] {
      assert xs + ys == xs;
    } else {
      TotalAddsUp(xs, ys[..|ys| - 1]);
      assert (xs + ys)[..|xs + ys| - 1] == xs + ys[..|ys| - 1];
    }
  }

  lemma {:induction false} SkippedIsKept(jobs: seq<Listing>, current: Weights, proposed: Weights, p: Listing -> bool)
    requires forall job :: p(job) <==> !BothScoreable(job, current, proposed)
    ensures Skipped(jobs, current, proposed) == |Keep(jobs, p)|
  {
    if jobs != [] {
      SkippedIsKept(jobs[..|jobs| - 1], current, proposed, p);
    }
  }

  lemma {:induction false} SkippedExactly(jobs: seq<Listing>, current: Weights, proposed: Weights, p: Listing -> bool)
    requires forall job :: p(job) <==> !BothScoreable(job, current, proposed)
    ensures Skipped(jobs, current, proposed) == |Positions(jobs, p)|
  {
    SkippedIsKept(jobs, current, proposed, p);
    KeepExactly(jobs, p);
  }

  // Deltas in hundredths.
  datatype ScoreEffect = ScoreEffect(affected: nat, mean: int, max: int, backlog: nat, skipped: nat)

  method CompareScores(job: Listing, current: Weights, proposed: Weights) returns (own: seq<int>, scoreable: bool)
    ensures own == OwnDelta(job, current, proposed)
    ensures scoreable == BothScoreable(job, current, proposed)
    ensures !scoreable ==> own == []
  {
    var before := ComputeOverall(ScoresOf(job), current);
    var after := ComputeOverall(ScoresOf(job), proposed);
    if !before.Scored? || !after.Scored? {
      return [], false;
    }
    var delta := after.hundredths - before.hundredths;
    return if delta >= 1 || delta <= -1 then [delta] else [], true;
  }

  lemma {:induction false} OneMoreCompared(live: seq<Listing>, i: nat, current: Weights, proposed: Weights)
    requires i < |live|
    ensures Deltas(live[..i + 1], current, proposed)
            == Deltas(live[..i], current, proposed) + OwnDelta(live[i], current, proposed)
    ensures Skipped(live[..i + 1], current, proposed)
            == Skipped(live[..i], current, proposed) + if BothScoreable(live[i], current, proposed) then 0 else 1
  {
    assert live[..i + 1][..i] == live[..i];
  }

  method CollectDeltas(live: seq<Listing>, current: Weights, proposed: Weights) returns (deltas: seq<int>, skipped: nat)
    ensures deltas == Deltas(live, current, proposed)
    ensures skipped == Skipped(live, current, proposed)
  {
    deltas, skipped := [], 0;
    for i := 0 to |live|
      invariant deltas == Deltas(live[..i], current, proposed)
      invariant skipped == Skipped(live[..i], current, proposed)
    {
      OneMoreCompared(live, i, current, proposed);
      var own, scoreable := CompareScores(live[i], current, proposed);
      if !scoreable {
        skipped := skipped + 1;
        continue;
      }
      deltas := deltas + own;
    }
    assert live[..|live|] == live;
  }

  method PredictScoreChange(jobs: seq<Listing>, current: Weights, proposed: Weights) returns (effect: ScoreEffect)
    ensures var deltas := Deltas(Live(jobs), current, proposed);
            && effect.affected == |deltas|
            && (deltas == [] ==> effect.mean == effect.max == 0)
            && (deltas != [] ==> effect.mean == MeanHalfUp(Total(deltas), |deltas|) && effect.max == Largest(deltas))
    ensures effect.backlog == |Live(jobs)| && effect.skipped == Skipped(Live(jobs), current, proposed)
    ensures Abs(effect.mean) <= Abs(effect.max)
  {
    var live := LoadLiveBacklog(jobs);
    var deltas, skipped := CollectDeltas(live, current, proposed);
    var mean, largest := 0, 0;
    if deltas != [] {
      var total := SumDeltas(deltas);
      mean, largest := MeanHalfUp(total, |deltas|), Largest(deltas);
      MeanIsWithinMax(deltas);
    }
    effect := ScoreEffect(|deltas|, mean, largest, |live|, skipped);
  }

  method SumDeltas(xs: seq<int>) returns (total: int)
    ensures total == Total(xs)
  {
    total := 0;
    for i := 0 to |xs|
      invariant total == Total(xs[..i])
    {
      assert xs[..i + 1][..i] == xs[..i];
      total := total + xs[i];
    }
    assert xs[..|xs|] == xs;
  }

  lemma {:induction false} LargestIsGreatest(xs: seq<int>)
    requires xs != []
    ensures Largest(xs) in xs && forall x :: x in xs ==> Abs(x) <= Abs(Largest(xs))
  {
    var init, last := xs[..|xs| - 1], xs[|xs| - 1];
    assert xs == init + [last];
    if init != [] {
      LargestIsGreatest(init);
    }
  }

  // Of several changes of the greatest magnitude the first is reported.
  lemma {:induction false} LargestIsFirst(xs: seq<int>) returns (k: nat)
    requires xs != []
    ensures k < |xs| && Largest(xs) == xs[k]
    ensures forall j :: 0 <= j < k ==> Abs(xs[j]) < Abs(xs[k])
    ensures forall j :: k < j < |xs| ==> Abs(xs[j]) <= Abs(xs[k])
  {
    var n := |xs| - 1;
    var init := xs[..n];
    if init == [] {
      k := 0;
    } else {
      k := LargestIsFirst(init);
      if Abs(xs[n]) > Abs(xs[k]) {
        k := n;
      }
    }
  }

  lemma {:induction false} TotalBound(xs: seq<int>, m: nat)
    requires forall x :: x in xs ==> Abs(x) <= m
    ensures Abs(Total(xs)) <= |xs| * m
  {
    if xs != [] {
      var init, last := xs[..|xs| - 1], xs[|xs| - 1];
      assert last in xs && forall x :: x in init ==> x in xs;
      TotalBound(init, m);
      assert |xs| * m == |init| * m + m;
    }
  }

  lemma MulMonotone(b: nat, x: int, y: int)
    requires x <= y
    ensures b * x <= b * y
  {
  }

  lemma QuotientAtMost(a: int, b: nat, q: int)
    requires b > 0 && a < b * (q + 1)
    ensures a / b <= q
  {
    if q + 1 <= a / b {
      MulMonotone(b, q + 1, a / b);
      assert false;
    }
  }

  function RoundedRatio(a: nat, n: nat): nat
    requires n > 0
  {
    (2 * a + n) / (2 * n)
  }

  lemma RoundedRatioAtMost(a: nat, n: nat, m: nat)
    requires n > 0 && a <= n * m
    ensures RoundedRatio(a, n) <= m
  {
    assert 2 * n * (m + 1) == 2 * (n * m) + 2 * n;
    QuotientAtMost(2 * a + n, 2 * n, m);
  }

  lemma RoundedMean(total: int, n: nat, m: nat)
    requires n > 0 && Abs(total) <= n * m
    ensures Abs(MeanHalfUp(total, n)) <= m
  {
    RoundedRatioAtMost(Abs(total), n, m);
    assert Abs(MeanHalfUp(total, n)) == RoundedRatio(Abs(total), n);
  }

  // The mean delta never exceeds the largest one, rounding included.
  lemma {:induction false} MeanIsWithinMax(deltas: seq<int>)
    requires deltas != []
    ensures Abs(MeanHalfUp(Total(deltas), |deltas|)) <= Abs(Largest(deltas))
  {
    LargestIsGreatest(deltas);
    TotalBound(deltas, Abs(Largest(deltas)));
    RoundedMean(Total(deltas), |deltas|, Abs(Largest(deltas)));
  }

  // --- the backlog rescorer ------------------------------------------------------------------------------

  // What the rescorer does to a stored job, as far as the predictions see it.
  function Rescored(job: Listing, weights: Weights): Listing {
    if job.dims.None? then job else job.(overall := NewOverall(job.dims.value, weights, job.overall))
  }

  function StoredOverall(row: Job): Option<int> {
    if row.score.Some? then row.score.value.overall else None
  }

  // `job` is what the predictions see of `row`.
  predicate Views(job: Listing, row: Job) {
    && job.status == row.status
    && job.dims == (if row.score.Some? then Some(row.score.value.dims) else None)
    && job.overall == StoredOverall(row)
  }

  lemma RescoringAgrees(job: Listing, row: Job, weights: Weights)
    requires Views(job, row)
    ensures Views(Rescored(job, weights), RescoredRow(row, weights))
  {
  }

  // The stored mapping carries exactly the four rubric dimensions, in any order.
  ghost predicate FourDimensions(dims: Dims) {
    && |dims| == 4 && DistinctEntries(dims)
    && (forall i :: 0 <= i < |dims| ==> dims[i].name in DIMENSIONS)
    && (forall name :: name in DIMENSIONS ==> exists i :: 0 <= i < |dims| && dims[i].name == name)
  }

  lemma {:induction false} LookupFinds(dims: Dims, i: nat)
    requires i < |dims| && DistinctEntries(dims)
    ensures Lookup(dims, dims[i].name) == Extract(dims[i].stored)
  {
    if i > 0 {
      assert dims[0].name != dims[i].name;
      assert DistinctEntries(dims[1..]);
      LookupFinds(dims[1..], i - 1);
    }
  }

  lemma ReadByRescorer(dims: Dims, i: nat)
    requires FourDimensions(dims) && i < |dims|
    ensures StoredScores(dims)[i] in RescorerScores(dims)
  {
    var x, b := StoredScores(dims)[i], RescorerScores(dims);
    LookupFinds(dims, i);
    assert x == Assessed(x.name, Lookup(dims, x.name)) && x.name in DIMENSIONS;
    assert x == b[0] || x == b[1] || x == b[2] || x == b[3];
  }

  lemma ReadByPrediction(dims: Dims, k: nat)
    requires FourDimensions(dims) && k < 4
    ensures RescorerScores(dims)[k] in StoredScores(dims)
  {
    var name := DIMENSIONS[k];
    assert name in DIMENSIONS;
    var i :| 0 <= i < |dims| && dims[i].name == name;
    LookupFinds(dims, i);
    assert RescorerScores(dims)[k] == StoredScores(dims)[i];
  }

  lemma BothReadersAgree(dims: Dims)
    requires FourDimensions(dims)
    ensures SameEntries(StoredScores(dims), RescorerScores(dims))
  {
    DimensionNamesDiffer();
    var a, b := StoredScores(dims), RescorerScores(dims);
    forall x | x in a
      ensures x in b
    {
      var i :| 0 <= i < |a| && a[i] == x;
      ReadByRescorer(dims, i);
    }
    forall x | x in b
      ensures x in a
    {
      var k :| 0 <= k < |b| && b[k] == x;
      ReadByPrediction(dims, k);
    }
  }

  // The pair a prediction compares is the pair the rescorer would store.
  lemma PredictionRefinesRow(job: Listing, weights: Weights)
    requires job.dims.Some? && FourDimensions(job.dims.value)
    ensures ComputeOverall(ScoresOf(job), weights) == ComputeOverall(RescorerScores(job.dims.value), weights)
    ensures Scoreable(job, weights) ==>
              Rescored(job, weights).overall == Some(ComputeOverall(ScoresOf(job), weights).hundredths)
    ensures !Scoreable(job, weights) ==> Rescored(job, weights) == job
  {
    BothReadersAgree(job.dims.value);
    OverallIgnoresOrder(ScoresOf(job), RescorerScores(job.dims.value), weights);
  }

  // Some row makes a rescoring under these weights raise.
  predicate Aborts(t: Table, weights: Weights) {
    exists i :: 0 <= i < |t.rows| && Unrescorable(t.rows[i], weights)
  }

  // For every row the rescorer stores the predicted score, keeps the row where
  // the prediction skips it, and stores nothing at all when some row aborts it.
  lemma PredictionRefinesRescorer(job: Listing, t: Table, i: nat, weights: Weights)
    requires i < |t.rows| && Views(job, t.rows[i])
    requires job.dims.Some? ==> FourDimensions(job.dims.value)
    ensures var after := RescoredTable(t, weights);
            && |after.rows| == |t.rows| && after.events == t.events
            && (Aborts(t, weights) ==> after == t)
            && (!Aborts(t, weights) && Scoreable(job, weights) ==>
                  StoredOverall(after.rows[i]) == Some(ComputeOverall(ScoresOf(job), weights).hundredths))
            && (!Aborts(t, weights) && !Scoreable(job, weights) ==> after.rows[i] == t.rows[i])
  {
    if job.dims.Some? {
      PredictionRefinesRow(job, weights);
    }
  }

  lemma RescoredTwice(job: Listing, current: Weights, proposed: Weights)
    requires job.dims.Some? && FourDimensions(job.dims.value)
    requires BothScoreable(job, current, proposed)
    ensures Rescored(job, current).overall == Some(ComputeOverall(ScoresOf(job), current).hundredths)
    ensures Rescored(Rescored(job, current), proposed).overall
            == Some(ComputeOverall(ScoresOf(job), proposed).hundredths)
  {
    PredictionRefinesRow(job, current);
    PredictionRefinesRow(job, proposed);
    assert Rescored(job, current).dims == job.dims;
  }

  lemma DryRunMatchesOne(job: Listing, current: Weights, proposed: Weights)
    requires job.dims.Some? ==> FourDimensions(job.dims.value)
    ensures StoredDelta(job, current, proposed) == if job.status in LIVE then OwnDelta(job, current, proposed) else []
  {
    if BothScoreable(job, current, proposed) {
      RescoredTwice(job, current, proposed);
    }
  }

  function StoredDelta(job: Listing, current: Weights, proposed: Weights): seq<int> {
    var once := Rescored(job, current);
    var twice := Rescored(once, proposed);
    if job.status in LIVE && BothScoreable(job, current, proposed)
       && once.overall.Some? && twice.overall.Some? && twice.overall != once.overall
    then [twice.overall.value - once.overall.value] else []
  }

  function StoredDeltas(jobs: seq<Listing>, current: Weights, proposed: Weights): seq<int> {
    if jobs == [] then []
    else StoredDeltas(jobs[..|jobs| - 1], current, proposed) + StoredDelta(jobs[|jobs| - 1], current, proposed)
  }

  lemma {:induction false} DryRunMatchesRows(jobs: seq<Listing>, current: Weights, proposed: Weights)
    requires forall job :: job in jobs && job.dims.Some? ==> FourDimensions(job.dims.value)
    ensures Deltas(Live(jobs), current, proposed) == StoredDeltas(jobs, current, proposed)
  {
    if jobs != [] {
      var init, job := jobs[..|jobs| - 1], jobs[|jobs| - 1];
      assert job in jobs && forall j :: j in init ==> j in jobs;
      DryRunMatchesRows(init, current, proposed);
      DryRunMatchesOne(job, current, proposed);
      if job.status in LIVE {
        assert Live(jobs)[..|Live(jobs)| - 1] == Live(init);
      } else {
        assert Live(jobs) == Live(init);
      }
    }
  }

  // --- what two rescorings of the table store -----------------------------------------------------------

  function RowDelta(before: Job, after: Job, current: Weights, proposed: Weights): seq<int> {
    var was, becomes := StoredOverall(before), StoredOverall(after);
    if before.status in LIVE && IsRescored(before, current) && IsRescored(before, proposed)
       && was.Some? && becomes.Some? && becomes != was
    then [becomes.value - was.value] else []
  }

  // How the stored scores of the live jobs that both weights can score change
  // from one state of the table to the next.
  function TableDeltas(before: seq<Job>, after: seq<Job>, current: Weights, proposed: Weights): seq<int>
    requires |before| == |after|
  {
    if before == [] then []
    else
      var n := |before| - 1;
      TableDeltas(before[..n], after[..n], current, proposed) + RowDelta(before[n], after[n], current, proposed)
  }

  // The predictions see the whole table.
  ghost predicate ViewsAll(jobs: seq<Listing>, rows: seq<Job>) {
    && |jobs| == |rows|
    && forall i :: 0 <= i < |rows| ==>
         Views(jobs[i], rows[i]) && (jobs[i].dims.Some? ==> FourDimensions(jobs[i].dims.value))
  }

  lemma RowMatches(job: Listing, row: Job, current: Weights, proposed: Weights)
    requires Views(job, row) && (job.dims.Some? ==> FourDimensions(job.dims.value))
    ensures var once := RescoredRow(row, current);
            RowDelta(once, RescoredRow(once, proposed), current, proposed) == StoredDelta(job, current, proposed)
  {
    RescoringAgrees(job, row, current);
    RescoringAgrees(Rescored(job, current), RescoredRow(row, current), proposed);
    if job.dims.Some? {
      PredictionRefinesRow(job, current);
      PredictionRefinesRow(job, proposed);
    }
  }

  lemma {:induction false} RowsMatch(jobs: seq<Listing>, rows: seq<Job>, current: Weights, proposed: Weights)
    requires ViewsAll(jobs, rows)
    ensures var once := RescoredRows(rows, current);
            TableDeltas(once, RescoredRows(once, proposed), current, proposed) == StoredDeltas(jobs, current, proposed)
  {
    if rows != [] {
      var n := |rows| - 1;
      RowsMatch(jobs[..n], rows[..n], current, proposed);
      RowMatches(jobs[n], rows[n], current, proposed);
      RescoredSnoc(rows, n, current);
      RescoredSnoc(RescoredRows(rows, current), n, proposed);
    }
  }

  lemma RescoredSnoc(rows: seq<Job>, n: nat, weights: Weights)
    requires |rows| == n + 1
    ensures RescoredRows(rows, weights)[..n] == RescoredRows(rows[..n], weights)
    ensures RescoredRows(rows, weights)[n] == RescoredRow(rows[n], weights)
  {
  }

  lemma {:induction false} NothingChanged(rows: seq<Job>, current: Weights, proposed: Weights)
    ensures TableDeltas(rows, rows, current, proposed) == []
  {
    if rows != [] {
      NothingChanged(rows[..|rows| - 1], current, proposed);
    }
  }

  // Rescoring touches no stored dimension, so it leaves what aborts as it was.
  lemma RescoringKeepsAborts(t: Table, weights: Weights, later: Weights)
    ensures Aborts(RescoredTable(t, weights), later) <==> Aborts(t, later)
  {
    var after := RescoredTable(t, weights);
    assert forall i :: 0 <= i < |t.rows| ==> (Unrescorable(after.rows[i], later) <==> Unrescorable(t.rows[i], later));
  }

  // For a table whose scored jobs carry exactly the four dimensions: the changes
  // that the dry run reports are those that rescoring under the current and then
  // under the proposed weights stores, if no row aborts either. An abort under
  // the proposed weights stores no change, whatever the dry run reports; one
  // under the current weights alone leaves the old scores to be changed from.
  lemma {:induction false} DryRunMatchesRescoring(jobs: seq<Listing>, t: Table, current: Weights, proposed: Weights)
    requires ViewsAll(jobs, t.rows)
    ensures var once := RescoredTable(t, current);
            var twice := RescoredTable(once, proposed);
            var predicted := Deltas(Live(jobs), current, proposed);
            && |once.rows| == |twice.rows|
            && var stored := TableDeltas(once.rows, twice.rows, current, proposed);
               && (!Aborts(t, current) && !Aborts(t, proposed) ==> stored == predicted)
               && (Aborts(t, proposed) ==> twice == once && stored == [] && (stored == predicted <==> predicted == []))
               && (Aborts(t, current) ==> once == t)
               && (Aborts(t, current) && !Aborts(t, proposed) ==> twice.rows == RescoredRows(t.rows, proposed))
  {
    RescoringKeepsAborts(t, current, proposed);
    var once := RescoredTable(t, current);
    if Aborts(t, proposed) {
      NothingChanged(once.rows, current, proposed);
    } else if !Aborts(t, current) {
      assert forall job :: job in jobs && job.dims.Some? ==> FourDimensions(job.dims.value);
      DryRunMatchesRows(jobs, current, proposed);
      RowsMatch(jobs, t.rows, current, proposed);
    }
  }

  // When the current scores are stored already, an abort under the current
  // weights makes no difference either.
  lemma {:induction false} DryRunMatchesOneRescoring(jobs: seq<Listing>, t: Table, current: Weights, proposed: Weights)
    requires ViewsAll(jobs, t.rows) && RescoredRows(t.rows, current) == t.rows && !Aborts(t, proposed)
    ensures var after := RescoredTable(t, proposed);
            |after.rows| == |t.rows|
            && TableDeltas(t.rows, after.rows, current, proposed) == Deltas(Live(jobs), current, proposed)
  {
    assert forall job :: job in jobs && job.dims.Some? ==> FourDimensions(job.dims.value);
    DryRunMatchesRows(jobs, current, proposed);
    RowsMatch(jobs, t.rows, current, proposed);
  }

  // --- one unusable row ------------------------------------------------------------------------------------

  // Role fit weighs w, every other dimension one.
  function Weighing(w: real): Weights {
    map[ROLE_FIT := w, SENIORITY_FIT := 1.0, EMPLOYER_FIT := 1.0, TRAJECTORY := 1.0]
  }

  lemma Weighed(w: real)
    ensures Weighing(w).Keys == {ROLE_FIT, SENIORITY_FIT, EMPLOYER_FIT, TRAJECTORY}
    ensures Weighing(w)[ROLE_FIT] == w && Weighing(w)[SENIORITY_FIT] == 1.0
    ensures Weighing(w)[EMPLOYER_FIT] == 1.0 && Weighing(w)[TRAJECTORY] == 1.0
  {
    DimensionNamesDiffer();
  }

  function FourScores(role: Value): Dims {
    [Entry(ROLE_FIT, Nested(role)), Entry(SENIORITY_FIT, Nested(Num(2.0))),
     Entry(EMPLOYER_FIT, Nested(Num(2.0))), Entry(TRAJECTORY, Nested(Num(2.0)))]
  }

  lemma FourScoresAreRead(role: Value)
    ensures FourDimensions(FourScores(role))
    ensures RescorerScores(FourScores(role)) == StoredScores(FourScores(role))
  {
    DimensionNamesDiffer();
    var dims := FourScores(role);
    assert dims[0].name == ROLE_FIT && dims[1].name == SENIORITY_FIT;
    assert dims[2].name == EMPLOYER_FIT && dims[3].name == TRAJECTORY;
    LookupFinds(dims, 0);
    LookupFinds(dims, 1);
    LookupFinds(dims, 2);
    LookupFinds(dims, 3);
  }

  lemma FourScoresSums(w: real, role: Value)
    requires role == Num(4.0) || role == Junk
    ensures var scores := StoredScores(FourScores(role));
            && TotalWeight(Weighing(w), scores) == w + 3.0
            && (role == Num(4.0) ==> Weighted(Weighing(w), scores) == 4.0 * w + 6.0)
            && forall i :: 0 <= i < |scores| ==> scores[i].name in Weighing(w)
  {
    Weighed(w);
    var scores := StoredScores(FourScores(role));
    var first, two := PartOf(Weighing(w), Assessed(ROLE_FIT, role)), Part(1.0, 2.0);
    assert Parts(Weighing(w), scores) == [first, two, two, two];
    SumOfFour(first, two, two, two);
  }

  lemma RoundedScore(w: real)
    requires w == 1.0 || w == 2.0
    ensures Rounded(4.0 * w + 6.0, w + 3.0) == if w == 1.0 then 250 else 280
  {
    if w == 1.0 {
      assert 10.0 / 4.0 == 2.5;
    } else {
      assert 14.0 / 5.0 == 2.8;
    }
  }

  lemma FourScoresOverall(w: real)
    requires w == 1.0 || w == 2.0
    ensures ComputeOverall(StoredScores(FourScores(Num(4.0))), Weighing(w)) == Scored(if w == 1.0 then 250 else 280)
  {
    FourScoresSums(w, Num(4.0));
    RoundedScore(w);
  }

  lemma JunkBreaks(w: real)
    requires w == 1.0 || w == 2.0
    ensures ComputeOverall(StoredScores(FourScores(Junk)), Weighing(w)) == NotNumeric
    ensures BreaksRescoring(FourScores(Junk), Weighing(w))
  {
    FourScoresAreRead(Junk);
    FourScoresSums(w, Junk);
    assert StoredScores(FourScores(Junk))[0].value == Junk;
  }

  function ViewOf(row: Job, place: Place, comp: Comp): Listing {
    Listing(row.status, None, place, None, comp, if row.score.Some? then Some(row.score.value.dims) else None,
            StoredOverall(row))
  }

  lemma {:induction false} DeltasOfTwo(a: Listing, b: Listing, current: Weights, proposed: Weights)
    requires a.status in LIVE && b.status in LIVE
    ensures Deltas(Live([a, b]), current, proposed) == OwnDelta(a, current, proposed) + OwnDelta(b, current, proposed)
  {
    assert [a, b][..1] == [a] && [a][..0] == [];
    assert Live([a]) == [a] && Live([a, b]) == [a, b];
    assert Deltas([a], current, proposed) == OwnDelta(a, current, proposed);
  }

  lemma OwnDeltasOfTwo(a: Listing, b: Listing)
    requires a.dims == Some(FourScores(Num(4.0))) && b.dims == Some(FourScores(Junk))
    ensures OwnDelta(a, Weighing(1.0), Weighing(2.0)) == [30] && OwnDelta(b, Weighing(1.0), Weighing(2.0)) == []
  {
    FourScoresOverall(1.0);
    FourScoresOverall(2.0);
    JunkBreaks(1.0);
  }

  lemma JunkRowAborts(t: Table, i: nat)
    requires i < |t.rows| && t.rows[i].score.Some? && t.rows[i].score.value.dims == FourScores(Junk)
    ensures RescoredTable(t, Weighing(1.0)) == t && RescoredTable(t, Weighing(2.0)) == t
  {
    JunkBreaks(1.0);
    JunkBreaks(2.0);
    assert Unrescorable(t.rows[i], Weighing(1.0)) && Unrescorable(t.rows[i], Weighing(2.0));
  }

  lemma ViewedRow(row: Job, place: Place, comp: Comp, role: Value)
    requires row.score.Some? && row.score.value.dims == FourScores(role)
    ensures Views(ViewOf(row, place, comp), row) && FourDimensions(ViewOf(row, place, comp).dims.value)
  {
    FourScoresAreRead(role);
  }

  lemma ViewedPair(good: Job, bad: Job, place: Place, comp: Comp)
    requires good.score.Some? && good.score.value.dims == FourScores(Num(4.0))
    requires bad.score.Some? && bad.score.value.dims == FourScores(Junk)
    ensures ViewsAll([ViewOf(good, place, comp), ViewOf(bad, place, comp)], [good, bad])
  {
    ViewedRow(good, place, comp, Num(4.0));
    ViewedRow(bad, place, comp, Junk);
  }

  lemma PredictedForPair(a: Listing, b: Listing)
    requires a.status == b.status == New
    requires a.dims == Some(FourScores(Num(4.0))) && b.dims == Some(FourScores(Junk))
    ensures Deltas(Live([a, b]), Weighing(1.0), Weighing(2.0)) == [30]
  {
    DeltasOfTwo(a, b, Weighing(1.0), Weighing(2.0));
    OwnDeltasOfTwo(a, b);
  }

  // The dry run predicts a gain of 0.30 for the first job and skips the second;
  // rescoring stores nothing at all, because the second aborts it.
  lemma OneBadRowStoresNothing(good: Job, bad: Job, place: Place, comp: Comp)
    requires good.status == New && good.score == Some(Score(Some(250), FourScores(Num(4.0)), "", 1))
    requires bad.status == New && bad.score == Some(Score(Some(250), FourScores(Junk), "", 1))
    ensures ViewsAll([ViewOf(good, place, comp), ViewOf(bad, place, comp)], [good, bad])
    ensures Deltas(Live([ViewOf(good, place, comp), ViewOf(bad, place, comp)]), Weighing(1.0), Weighing(2.0)) == [30]
    ensures var t := Table([good, bad], []);
            RescoredTable(RescoredTable(t, Weighing(1.0)), Weighing(2.0)) == t
  {
    ViewedPair(good, bad, place, comp);
    PredictedForPair(ViewOf(good, place, comp), ViewOf(bad, place, comp));
    JunkRowAborts(Table([good, bad], []), 1);
  }
}
