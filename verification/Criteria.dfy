// The criteria payload, its validity, and the application of one proposed edit.
module Criteria {
  import opened Common
  import opened Scoring

  datatype Period = Annual | Monthly | Hourly | Unspecified

  datatype Floor = Floor(amount: Option<real>, currency: Option<string>, period: Period)

  datatype Locations = Locations(countries: seq<string>, regions: seq<string>, cities: seq<string>)

  datatype Exclusions = Exclusions(titleKeywords: seq<string>, employers: seq<string>)

  datatype WorkAuthorization = WorkAuthorization(countries: seq<string>, sponsorship: bool)

  // A seniority label is its position on the ladder from intern to c_level; a
  // rung off the ladder is a number outside it.
  const LADDER := 9

  datatype Payload = Payload(
    profile: string,
    seniorityMin: Option<int>, seniorityMax: Option<int>, postingAgeDays: int,
    locations: Locations, floor: Floor, exclusions: Exclusions,
    authorization: WorkAuthorization, weights: Weights)

  // The currency and country codes the validators accept.
  datatype Codes = Codes(currencies: set<string>, countries: set<string>)

  const REGIONS := {"EMEA", "APAC", "LATAM", "NA", "EU"}

  predicate OnLadder(rung: Option<int>) {
    rung.Some? ==> 0 <= rung.value < LADDER
  }

  predicate ValidWeights(w: Weights) {
    && w.Keys == {ROLE_FIT, SENIORITY_FIT, EMPLOYER_FIT, TRAJECTORY}
    && (forall name :: name in w ==> w[name] >= 0.0)
    && w[ROLE_FIT] + w[SENIORITY_FIT] + w[EMPLOYER_FIT] + w[TRAJECTORY] != 0.0
  }

  predicate Valid(codes: Codes, p: Payload) {
    && OnLadder(p.seniorityMin) && OnLadder(p.seniorityMax)
    && (p.seniorityMin.Some? && p.seniorityMax.Some? ==> p.seniorityMin.value <= p.seniorityMax.value)
    && p.postingAgeDays >= 1
    && (p.floor.currency.Some? ==> p.floor.currency.value in codes.currencies)
    && p.floor.period != Unspecified
    && (forall c :: c in p.locations.countries ==> c in codes.countries)
    && (forall r :: r in p.locations.regions ==> r in REGIONS)
    && (forall c :: c in p.authorization.countries ==> c in codes.countries)
    && ValidWeights(p.weights)
  }

  // --- edits -----------------------------------------------------------------------------------

  // The nine permitted edit fields, and any other name.
  datatype Field =
    | SeniorityMin | SeniorityMax | PostingAgeDays | LocationsField | CompensationFloor
    | TitleKeywords | Employers | WorkAuthorizationField | DimensionWeights
    | Unpermitted(name: string)

  datatype Direction = Tighten | Loosen | Increase | Decrease

  datatype EditValue =
    | RungValue(rung: Option<int>)
    | DaysValue(days: int)
    | LocationsValue(locations: Locations)
    | FloorValue(floor: Floor)
    | NamesValue(names: seq<string>)
    | AuthorizationValue(authorization: WorkAuthorization)
    | WeightsValue(weights: Weights)
    | OtherValue(text: string)

  datatype Changes = Changes(field: Field, direction: Direction, current: EditValue, proposed: EditValue)

  datatype ApplyError = UnsupportedEditField | ProposalInvalid

  // The payload with the leaf set, unless the value is not of the leaf's shape.
  function SetLeaf(p: Payload, field: Field, v: EditValue): Option<Payload> {
    match (field, v)
    case (SeniorityMin, RungValue(rung)) => Some(p.(seniorityMin := rung))
    case (SeniorityMax, RungValue(rung)) => Some(p.(seniorityMax := rung))
    case (PostingAgeDays, DaysValue(days)) => Some(p.(postingAgeDays := days))
    case (LocationsField, LocationsValue(locations)) => Some(p.(locations := locations))
    case (CompensationFloor, FloorValue(floor)) => Some(p.(floor := floor))
    case (TitleKeywords, NamesValue(names)) => Some(p.(exclusions := p.exclusions.(titleKeywords := names)))
    case (Employers, NamesValue(names)) => Some(p.(exclusions := p.exclusions.(employers := names)))
    case (WorkAuthorizationField, AuthorizationValue(authorization)) => Some(p.(authorization := authorization))
    case (DimensionWeights, WeightsValue(weights)) => Some(p.(weights := weights))
    case _ => None
  }

  function ApplyProposedChange(codes: Codes, p: Payload, changes: Changes): Result<Payload, ApplyError> {
    if changes.field.Unpermitted? then Err(UnsupportedEditField)
    else
      var edited := SetLeaf(p, changes.field, changes.proposed);
      if edited.None? || !Valid(codes, edited.value) then Err(ProposalInvalid) else Ok(edited.value)
  }

  // The value at a leaf, `resolve_field` for a permitted field.
  function LeafOf(p: Payload, field: Field): EditValue {
    match field
    case SeniorityMin => RungValue(p.seniorityMin)
    case SeniorityMax => RungValue(p.seniorityMax)
    case PostingAgeDays => DaysValue(p.postingAgeDays)
    case LocationsField => LocationsValue(p.locations)
    case CompensationFloor => FloorValue(p.floor)
    case TitleKeywords => NamesValue(p.exclusions.titleKeywords)
    case Employers => NamesValue(p.exclusions.employers)
    case WorkAuthorizationField => AuthorizationValue(p.authorization)
    case DimensionWeights => WeightsValue(p.weights)
    case Unpermitted(name) => OtherValue(name)
  }

  // An accepted edit yields a valid payload that differs in its one leaf only,
  // and the leaf then holds the proposed value; nothing else can be accepted.
  lemma AppliedEdit(codes: Codes, p: Payload, changes: Changes)
    ensures var result := ApplyProposedChange(codes, p, changes);
            && (result.Ok? ==>
                  && Valid(codes, result.value)
                  && result.value.profile == p.profile
                  && LeafOf(result.value, changes.field) == changes.proposed
                  && (forall f: Field :: f != changes.field ==> LeafOf(result.value, f) == LeafOf(p, f)))
            && (result == Err(UnsupportedEditField) <==> changes.field.Unpermitted?)
            && (result == Err(ProposalInvalid) ==>
                  !exists q: Payload :: Valid(codes, q) && q.profile == p.profile
                               && LeafOf(q, changes.field) == changes.proposed
                               && forall f: Field :: f != changes.field ==> LeafOf(q, f) == LeafOf(p, f))
  {
    if ApplyProposedChange(codes, p, changes) == Err(ProposalInvalid) {
      forall q: Payload | q.profile == p.profile && LeafOf(q, changes.field) == changes.proposed
                 && forall f: Field :: f != changes.field ==> LeafOf(q, f) == LeafOf(p, f)
        ensures !Valid(codes, q)
      {
        assert SetLeaf(p, changes.field, changes.proposed) == Some(q) by {
          SameLeaves(p, q, changes);
        }
      }
    }
  }

  // What each kind of edit must satisfy, given that the rest is valid.
  predicate IsSound(codes: Codes, p: Payload, field: Field, v: EditValue) {
    match (field, v)
    case (SeniorityMin, RungValue(rung)) =>
      rung.Some? ==> 0 <= rung.value < 9 && (p.seniorityMax.Some? ==> rung.value <= p.seniorityMax.value)
    case (SeniorityMax, RungValue(rung)) =>
      rung.Some? ==> 0 <= rung.value < 9 && (p.seniorityMin.Some? ==> p.seniorityMin.value <= rung.value)
    case (PostingAgeDays, DaysValue(days)) => days > 0
    case (LocationsField, LocationsValue(locations)) =>
      && (forall c :: c in locations.countries ==> c in codes.countries)
      && (forall r :: r in locations.regions ==> r == "EMEA" || r == "APAC" || r == "LATAM" || r == "NA" || r == "EU")
    case (CompensationFloor, FloorValue(floor)) =>
      floor.period in {Annual, Monthly, Hourly} && (floor.currency.Some? ==> floor.currency.value in codes.currencies)
    case (TitleKeywords, NamesValue(_)) => true
    case (Employers, NamesValue(_)) => true
    case (WorkAuthorizationField, AuthorizationValue(authorization)) =>
      forall c :: c in authorization.countries ==> c in codes.countries
    case (DimensionWeights, WeightsValue(weights)) =>
      && weights.Keys == {"role_fit", "seniority_fit", "employer_fit", "trajectory"}
      && (forall name :: name in weights ==> weights[name] >= 0.0)
      && exists name :: name in weights && weights[name] > 0.0
    case _ => false
  }

  lemma SomeWeightIsPositive(w: Weights)
    requires w.Keys == {ROLE_FIT, SENIORITY_FIT, EMPLOYER_FIT, TRAJECTORY}
             && forall name :: name in w ==> w[name] >= 0.0
    ensures ValidWeights(w) <==> exists name :: name in w && w[name] > 0.0
  {
    assert ROLE_FIT in w && SENIORITY_FIT in w && EMPLOYER_FIT in w && TRAJECTORY in w;
    if w[ROLE_FIT] + w[SENIORITY_FIT] + w[EMPLOYER_FIT] + w[TRAJECTORY] != 0.0 {
      assert w[ROLE_FIT] > 0.0 || w[SENIORITY_FIT] > 0.0 || w[EMPLOYER_FIT] > 0.0 || w[TRAJECTORY] > 0.0;
    }
  }

  // An edit of a valid payload is accepted exactly when its own value is sound.
  lemma EditIsAcceptedExactly(codes: Codes, p: Payload, changes: Changes)
    requires Valid(codes, p)
    ensures ApplyProposedChange(codes, p, changes).Ok? <==> IsSound(codes, p, changes.field, changes.proposed)
  {
    if changes.field == DimensionWeights && changes.proposed.WeightsValue? {
      var w := changes.proposed.weights;
      if w.Keys == {ROLE_FIT, SENIORITY_FIT, EMPLOYER_FIT, TRAJECTORY} && forall name :: name in w ==> w[name] >= 0.0 {
        SomeWeightIsPositive(w);
      }
    }
  }

  lemma SameLeaves(p: Payload, q: Payload, changes: Changes)
    requires !changes.field.Unpermitted?
    requires q.profile == p.profile && LeafOf(q, changes.field) == changes.proposed
    requires forall f: Field :: f != changes.field ==> LeafOf(q, f) == LeafOf(p, f)
    ensures SetLeaf(p, changes.field, changes.proposed) == Some(q)
  {
    var edited := SetLeaf(p, changes.field, changes.proposed);
    assert edited.Some?;
    var e := edited.value;
    assert LeafOf(e, SeniorityMin) == LeafOf(q, SeniorityMin);
    assert LeafOf(e, SeniorityMax) == LeafOf(q, SeniorityMax);
    assert LeafOf(e, PostingAgeDays) == LeafOf(q, PostingAgeDays);
    assert LeafOf(e, LocationsField) == LeafOf(q, LocationsField);
    assert LeafOf(e, CompensationFloor) == LeafOf(q, CompensationFloor);
    assert LeafOf(e, TitleKeywords) == LeafOf(q, TitleKeywords);
    assert LeafOf(e, Employers) == LeafOf(q, Employers);
    assert LeafOf(e, WorkAuthorizationField) == LeafOf(q, WorkAuthorizationField);
    assert LeafOf(e, DimensionWeights) == LeafOf(q, DimensionWeights);
  }
}
