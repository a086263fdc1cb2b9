// What happens when proposed edits keep being accepted over one fixed history.
module Convergence {
  import opened Common
  import opened Scoring
  import opened Criteria
  import opened Detect
  import opened Proposals

  // Title tokens and employers that are not excluded yet.
  function UnusedTokens(h: History, p: Payload): set<string> {
    set t | t in AllTokens(h.fast) && !InSomeFold(p.exclusions.titleKeywords, t)
  }

  function UnusedCompanies(h: History, p: Payload): set<string> {
    set c | c in Companies(h.fast) && !InSomeFold(p.exclusions.employers, Fold(c))
  }

  function RungsAbove(p: Payload): nat {
    if p.seniorityMax.Some? && p.seniorityMax.value > 0 then p.seniorityMax.value else 0
  }

  function RungsBelow(p: Payload): nat {
    if p.seniorityMin.Some? && p.seniorityMin.value < LADDER then LADDER - p.seniorityMin.value else 0
  }

  function FloorGap(h: History, p: Payload): nat {
    var amount := ProposedFloor(h.fast, p.floor);
    if p.floor.amount.Some? && amount.Some? && amount.value as real > p.floor.amount.value then 1 else 0
  }

  function Age(p: Payload): nat {
    if p.postingAgeDays > 0 then p.postingAgeDays else 0
  }

  function FlagRoom(h: History, p: Payload): nat {
    RungsAbove(p) + RungsBelow(p) + Age(p) + FloorGap(h, p)
  }

  // How many more edits Tracks B and C can still lead to.
  function Measure(h: History, p: Payload): nat {
    FlagRoom(h, p) + |UnusedTokens(h, p)| + |UnusedCompanies(h, p)|
  }

  lemma Shrinks(a: set<string>, b: set<string>, gone: string)
    requires a <= b - {gone} && gone in b
    ensures |a| < |b|
  {
    var rest := b - {gone};
    assert rest == a + (rest - a);
    assert b == rest + {gone};
  }

  lemma SameExclusions(h: History, p: Payload, q: Payload)
    requires q.exclusions == p.exclusions
    ensures UnusedTokens(h, q) == UnusedTokens(h, p) && UnusedCompanies(h, q) == UnusedCompanies(h, p)
  {
  }

  lemma TokenAccepted(h: History, p: Payload, q: Payload)
    requires ExcludeToken(h, p).Some?
    requires q == p.(exclusions := p.exclusions.(titleKeywords := ExcludeToken(h, p).value.proposed.names))
    ensures |UnusedTokens(h, q)| < |UnusedTokens(h, p)| && UnusedCompanies(h, q) == UnusedCompanies(h, p)
  {
    var token := BestToken(h, p, AllTokens(h.fast)).value;
    var excluded, names := p.exclusions.titleKeywords, q.exclusions.titleKeywords;
    AllTokensAreFolded(h.fast);
    FoldedIsFixed(token);
    assert names == excluded + [token];
    assert token in names && Fold(token) == token;
    forall t | t in UnusedTokens(h, q)
      ensures t in UnusedTokens(h, p) && t != token
    {
      MoreNames(excluded, token, t);
    }
    Shrinks(UnusedTokens(h, q), UnusedTokens(h, p), token);
  }

  lemma MoreNames(names: seq<string>, name: string, folded: string)
    ensures InSomeFold(names, folded) ==> InSomeFold(names + [name], folded)
    ensures InSomeFold(names + [name], Fold(name))
  {
    assert name in names + [name];
    if InSomeFold(names, folded) {
      var n :| n in names && Fold(n) == folded;
      assert n in names + [name];
    }
  }

  lemma {:induction false} AllTokensAreFolded(fast: seq<Record>)
    ensures forall t :: t in AllTokens(fast) ==> Folded(t)
  {
    if fast != [] {
      AllTokensAreFolded(fast[..|fast| - 1]);
      TokensAreFolded(Fold(fast[|fast| - 1].title), []);
    }
  }

  lemma CompanyAccepted(h: History, p: Payload, q: Payload)
    requires ExcludeCompany(h, p).Some?
    requires q == p.(exclusions := p.exclusions.(employers := ExcludeCompany(h, p).value.proposed.names))
    ensures |UnusedCompanies(h, q)| < |UnusedCompanies(h, p)| && UnusedTokens(h, q) == UnusedTokens(h, p)
  {
    var company := BestCompany(h, p, Companies(h.fast)).value;
    var excluded := p.exclusions.employers;
    assert q.exclusions.employers == excluded + [company];
    forall c | c in UnusedCompanies(h, q)
      ensures c in UnusedCompanies(h, p) && c != company
    {
      MoreNames(excluded, company, Fold(c));
    }
    Shrinks(UnusedCompanies(h, q), UnusedCompanies(h, p), company);
  }

  lemma SameFloorProposal(fast: seq<Record>, floor: Floor, amount: Option<real>)
    ensures ProposedFloor(fast, floor.(amount := amount)) == ProposedFloor(fast, floor)
  {
    var other, flagged := floor.(amount := amount), Flagged(fast, CompBelowFloor);
    assert forall r :: Comparable(r, other) <==> Comparable(r, floor);
    assert ComparableAmounts(flagged, other) == ComparableAmounts(flagged, floor);
  }

  // What an accepted candidate makes of the payload.
  function AppliedTo(codes: Codes, p: Payload, c: Candidate): Result<Payload, ApplyError> {
    ApplyProposedChange(codes, p, ChangesOf(c))
  }

  lemma RungAccepted(h: History, p: Payload, c: Candidate, q: Payload)
    requires OnLadder(p.seniorityMin) && OnLadder(p.seniorityMax)
    requires TightenMax(h.fast, p) == Some(c) || TightenMin(h.fast, p) == Some(c)
    requires SetLeaf(p, c.field, c.proposed) == Some(q)
    ensures q.exclusions == p.exclusions && FlagRoom(h, q) < FlagRoom(h, p)
  {
  }

  lemma AgeAccepted(h: History, p: Payload, c: Candidate, q: Payload)
    requires ShrinkAge(h.fast, p) == Some(c) && SetLeaf(p, c.field, c.proposed) == Some(q)
    ensures q.exclusions == p.exclusions && FlagRoom(h, q) < FlagRoom(h, p)
  {
    assert q.postingAgeDays < p.postingAgeDays && q.postingAgeDays >= 7;
    assert q == p.(postingAgeDays := q.postingAgeDays);
  }

  lemma GapCloses(h: History, p: Payload, q: Payload, amount: int)
    requires ProposedFloor(h.fast, p.floor) == Some(amount)
    requires p.floor.amount.Some? && amount as real > p.floor.amount.value
    requires q.floor == p.floor.(amount := Some(amount as real))
    ensures FloorGap(h, q) == 0 && FloorGap(h, p) == 1
  {
    SameFloorProposal(h.fast, p.floor, q.floor.amount);
  }

  lemma RaisedFloor(fast: seq<Record>, p: Payload, c: Candidate) returns (amount: int)
    requires RaiseFloor(fast, p) == Some(c)
    ensures ProposedFloor(fast, p.floor) == Some(amount)
    ensures p.floor.amount.Some? && amount as real > p.floor.amount.value
    ensures c.field == CompensationFloor && c.proposed == FloorValue(p.floor.(amount := Some(amount as real)))
  {
    amount := ProposedFloor(fast, p.floor).value;
  }

  lemma FloorAccepted(h: History, p: Payload, c: Candidate, q: Payload)
    requires RaiseFloor(h.fast, p) == Some(c) && SetLeaf(p, c.field, c.proposed) == Some(q)
    ensures q.exclusions == p.exclusions && FlagRoom(h, q) < FlagRoom(h, p)
  {
    var amount := RaisedFloor(h.fast, p, c);
    GapCloses(h, p, q, amount);
  }

  lemma TrackBAccepted(codes: Codes, h: History, p: Payload, c: Candidate)
    requires Valid(codes, p) && c in TrackB(h, p)
    ensures AppliedTo(codes, p, c).Ok?
    ensures AppliedTo(codes, p, c).value.exclusions == p.exclusions
    ensures FlagRoom(h, AppliedTo(codes, p, c).value) < FlagRoom(h, p)
  {
    TrackBApplies(codes, h, p, c);
    var q := AppliedTo(codes, p, c).value;
    if Some(c) == TightenMax(h.fast, p) || Some(c) == TightenMin(h.fast, p) {
      RungAccepted(h, p, c, q);
    } else if Some(c) == RaiseFloor(h.fast, p) {
      FloorAccepted(h, p, c, q);
    } else {
      assert Some(c) == ShrinkAge(h.fast, p);
      AgeAccepted(h, p, c, q);
    }
  }

  lemma TrackCAccepted(codes: Codes, h: History, p: Payload, c: Candidate)
    requires Valid(codes, p) && c in TrackC(h, p)
    ensures AppliedTo(codes, p, c).Ok?
    ensures Measure(h, AppliedTo(codes, p, c).value) < Measure(h, p)
  {
    TrackCApplies(codes, h, p, c);
    var q := AppliedTo(codes, p, c).value;
    if Some(c) == ExcludeToken(h, p) {
      TokenAccepted(h, p, q);
    } else {
      CompanyAccepted(h, p, q);
    }
  }

  // Accepting a Track B or Track C candidate right after it was detected makes
  // the measure strictly smaller.
  lemma AcceptDecreases(codes: Codes, h: History, p: Payload, c: Candidate)
    requires Valid(codes, p) && c in TrackB(h, p) + TrackC(h, p)
    ensures AppliedTo(codes, p, c).Ok?
    ensures Measure(h, AppliedTo(codes, p, c).value) < Measure(h, p)
  {
    if c in TrackB(h, p) {
      TrackBAccepted(codes, h, p, c);
      SameExclusions(h, p, AppliedTo(codes, p, c).value);
    } else {
      TrackCAccepted(codes, h, p, c);
    }
  }

  lemma WeightsKeepMeasure(h: History, p: Payload, weights: Weights)
    ensures Measure(h, p.(weights := weights)) == Measure(h, p)
  {
    SameExclusions(h, p, p.(weights := weights));
  }

  lemma AppliedWeights(codes: Codes, p: Payload, changes: Changes)
    requires changes.field == DimensionWeights && changes.proposed.WeightsValue?
    requires ApplyProposedChange(codes, p, changes).Ok?
    ensures ApplyProposedChange(codes, p, changes).value == p.(weights := changes.proposed.weights)
  {
  }

  lemma TrackAKeepsMeasure(codes: Codes, h: History, p: Payload)
    requires Valid(codes, p) && TrackA(h.fast, p).Ok? && TrackA(h.fast, p).value.Some?
    ensures var c := TrackA(h.fast, p).value.value;
            && ApplyProposedChange(codes, p, ChangesOf(c)).Ok?
            && Measure(h, ApplyProposedChange(codes, p, ChangesOf(c)).value) == Measure(h, p)
  {
    TrackAApplies(codes, h, p);
    var c := TrackA(h.fast, p).value.value;
    AppliedWeights(codes, p, ChangesOf(c));
    WeightsKeepMeasure(h, p, c.proposed.weights);
  }

  // --- whole runs of detect, gate and accept ------------------------------------------------------------

  // One pass and one acceptance: the feedback claims the pass read, and the
  // gated candidate that was accepted.
  datatype Round = Round(claims: seq<Signature>, accepted: Candidate)

  // The candidates a pass over payload p can turn into proposals.
  function Offered(h: History, p: Payload, claims: seq<Signature>): seq<Candidate> {
    var detected := DetectCandidates(h, p);
    if detected.Err? then [] else Gate(WithClaims(detected.value, claims))
  }

  function AcceptOne(codes: Codes, h: History, p: Payload, round: Round): Option<Payload> {
    if round.accepted !in Offered(h, p, round.claims) || AppliedTo(codes, p, round.accepted).Err? then None
    else Some(AppliedTo(codes, p, round.accepted).value)
  }

  // The payload after the rounds, each over the payload the previous one left.
  function AcceptAll(codes: Codes, h: History, p: Payload, rounds: seq<Round>): Option<Payload>
    decreases |rounds|
  {
    if rounds == [] then Some(p)
    else
      var before := AcceptAll(codes, h, p, rounds[..|rounds| - 1]);
      if before.None? then None else AcceptOne(codes, h, before.value, rounds[|rounds| - 1])
  }

  // How many of the accepted edits came from Track B or Track C.
  function TrackBAndCEdits(rounds: seq<Round>): nat {
    if rounds == [] then 0
    else
      TrackBAndCEdits(rounds[..|rounds| - 1]) + if rounds[|rounds| - 1].accepted.field != DimensionWeights then 1 else 0
  }

  lemma OneAcceptance(codes: Codes, h: History, p: Payload, c: Candidate)
    requires Valid(codes, p) && DetectCandidates(h, p).Ok? && c in DetectCandidates(h, p).value
    requires AppliedTo(codes, p, c).Ok?
    ensures Valid(codes, AppliedTo(codes, p, c).value)
    ensures Measure(h, AppliedTo(codes, p, c).value) + (if c.field != DimensionWeights then 1 else 0) <= Measure(h, p)
  {
    if c in TrackB(h, p) + TrackC(h, p) {
      AcceptDecreases(codes, h, p, c);
    } else {
      TrackAKeepsMeasure(codes, h, p);
    }
  }

  // An offered candidate is a detected one, with quotes, that met its threshold.
  lemma OfferedOrigin(h: History, p: Payload, claims: seq<Signature>, c: Candidate) returns (d: Candidate)
    requires c in Offered(h, p, claims)
    ensures DetectCandidates(h, p).Ok? && d in DetectCandidates(h, p).value
    ensures c == Corroborated(d, claims) && MeetsThreshold(c)
  {
    d := GatedOrigin(DetectCandidates(h, p).value, claims, c);
  }

  lemma GatedOrigin(detected: seq<Candidate>, claims: seq<Signature>, c: Candidate) returns (d: Candidate)
    requires c in Gate(WithClaims(detected, claims))
    ensures d in detected && c == Corroborated(d, claims) && MeetsThreshold(c)
  {
    var folded := WithClaims(detected, claims);
    GateKeepsExactly(folded);
    var i :| 0 <= i < |folded| && folded[i] == c;
    d := detected[i];
  }

  lemma GatedIfEarned(detected: seq<Candidate>, claims: seq<Signature>, d: Candidate)
    requires d in detected && MeetsThreshold(Corroborated(d, claims))
    ensures Corroborated(d, claims) in Gate(WithClaims(detected, claims))
  {
    var folded := WithClaims(detected, claims);
    GateKeepsExactly(folded);
    var i :| 0 <= i < |detected| && detected[i] == d;
    assert folded[i] == Corroborated(d, claims);
  }

  lemma OneRound(codes: Codes, h: History, p: Payload, round: Round)
    requires Valid(codes, p) && round.accepted in Offered(h, p, round.claims)
    requires AppliedTo(codes, p, round.accepted).Ok?
    ensures var q, c := AppliedTo(codes, p, round.accepted).value, round.accepted;
            Valid(codes, q) && Measure(h, q) + (if c.field != DimensionWeights then 1 else 0) <= Measure(h, p)
  {
    var d := OfferedOrigin(h, p, round.claims, round.accepted);
    assert ChangesOf(d) == ChangesOf(round.accepted);
    OneAcceptance(codes, h, p, d);
  }

  // Over a fixed history only so many Track B and Track C edits can ever be
  // accepted, whatever weight edits are accepted in between.
  lemma {:induction false} AcceptingTerminates(codes: Codes, h: History, p: Payload, rounds: seq<Round>)
    requires Valid(codes, p) && AcceptAll(codes, h, p, rounds).Some?
    ensures Valid(codes, AcceptAll(codes, h, p, rounds).value)
    ensures TrackBAndCEdits(rounds) + Measure(h, AcceptAll(codes, h, p, rounds).value) <= Measure(h, p)
  {
    if rounds != [] {
      var init := rounds[..|rounds| - 1];
      AcceptingTerminates(codes, h, p, init);
      OneRound(codes, h, AcceptAll(codes, h, p, init).value, rounds[|rounds| - 1]);
    }
  }

  // --- when Track A proposes, and when its edit is offered ------------------------------------------------

  predicate Proposes(fast: seq<Record>, p: Payload) {
    TrackA(fast, p).Ok? && TrackA(fast, p).value.Some?
  }

  lemma {:induction false} CountsOfTwoNames(names: seq<string>, a: string, b: string)
    requires a != b
    ensures CountName(names, a) + CountName(names, b) <= |names|
  {
    if names != [] {
      CountsOfTwoNames(names[..|names| - 1], a, b);
    }
  }

  lemma RubricDimensions(name: string)
    ensures DimensionIndex(name) < 4 <==> name in {ROLE_FIT, SENIORITY_FIT, EMPLOYER_FIT, TRAJECTORY}
  {
  }

  lemma RaisedStaysValid(w: Weights, name: string)
    requires ValidWeights(w) && name in w
    ensures ValidWeights(Raise(w, name, TRACK_A_WEIGHT_STEP))
  {
    assert Raise(w, name, TRACK_A_WEIGHT_STEP).Keys == w.Keys;
  }

  // Behind at least half of the attributable rejections.
  predicate IsMajority(names: seq<string>, d: string) {
    d in names && 2 * CountName(names, d) >= |names|
  }

  // If any rubric dimension has a majority, the modal one does and is one.
  lemma {:induction false} MajorityIsModal(names: seq<string>, d: string)
    requires IsMajority(names, d) && DimensionIndex(d) < 4
    ensures IsMajority(names, Modal(names, names)) && DimensionIndex(Modal(names, names)) < 4
  {
    var modal := Modal(names, names);
    ModalIsMostAttributed(names, names);
    if modal != d {
      CountsOfTwoNames(names, modal, d);
    }
  }

  // Track A proposes exactly when some rubric dimension is behind at least half
  // of the attributable rejections, whatever the valid payload.
  lemma {:induction false} TrackAProposesExactly(codes: Codes, fast: seq<Record>, p: Payload)
    requires Valid(codes, p)
    ensures Proposes(fast, p) <==> exists d :: IsMajority(Attributions(fast), d) && DimensionIndex(d) < 4
  {
    var names := Attributions(fast);
    if names != [] {
      var modal := Modal(names, names);
      ModalIsMostAttributed(names, names);
      RubricDimensions(modal);
      if modal in p.weights {
        RaisedStaysValid(p.weights, modal);
      }
      if d :| IsMajority(names, d) && DimensionIndex(d) < 4 {
        MajorityIsModal(names, d);
      }
      assert Proposes(fast, p) ==> IsMajority(names, modal) && DimensionIndex(modal) < 4;
    }
  }

  lemma TrackADependsOnHistory(codes: Codes, fast: seq<Record>, p: Payload, q: Payload)
    requires Valid(codes, p) && Valid(codes, q)
    ensures Proposes(fast, p) <==> Proposes(fast, q)
  {
    TrackAProposesExactly(codes, fast, p);
    TrackAProposesExactly(codes, fast, q);
  }

  lemma OtherTracksKeepWeights(cs: seq<Candidate>, lo: nat, hi: nat)
    requires InDetectionOrder(cs, lo, hi) && lo > 0
    ensures forall c :: c in cs ==> c.field != DimensionWeights
  {
  }

  // Track A has no such bound: what makes it propose lies in the history alone,
  // so every accepted weight edit is followed by another proposal.
  lemma TrackANeverSettles(codes: Codes, h: History, p: Payload)
    requires Valid(codes, p) && TrackA(h.fast, p).Ok? && TrackA(h.fast, p).value.Some?
    ensures var q := ApplyProposedChange(codes, p, ChangesOf(TrackA(h.fast, p).value.value));
            && q.Ok? && Valid(codes, q.value)
            && TrackA(h.fast, q.value).Ok? && TrackA(h.fast, q.value).value.Some?
  {
    TrackAApplies(codes, h, p);
    var q := ApplyProposedChange(codes, p, ChangesOf(TrackA(h.fast, p).value.value)).value;
    var names := Attributions(h.fast);
    var modal := Modal(names, names);
    assert modal in q.weights;
    assert Raise(q.weights, modal, TRACK_A_WEIGHT_STEP).Keys == q.weights.Keys;
  }

  const WEIGHT_EDIT: Signature := (DimensionWeights, Increase)

  // Some rubric dimension has a majority and, with k quotes, enough observations.
  ghost predicate EnoughEvidence(fast: seq<Record>, k: nat) {
    var names := Attributions(fast);
    exists d :: IsMajority(names, d) && DimensionIndex(d) < 4
                && CountName(names, d) + k >= 8
  }

  lemma {:induction false} WeightEditStrength(codes: Codes, fast: seq<Record>, p: Payload)
    requires Valid(codes, p) && Proposes(fast, p)
    ensures var c, names := TrackA(fast, p).value.value, Attributions(fast);
            && c.field == DimensionWeights && c.direction == Increase && names != []
            && ObservationCount(c) == CountName(names, Modal(names, names))
  {
    var names := Attributions(fast);
    ModalIsMostAttributed(names, names);
    AttributionsAreNamed(fast);
    EvidenceIsAttributed(fast, Modal(names, names));
  }

  lemma {:induction false} ModalDecides(fast: seq<Record>, k: nat)
    requires exists d :: IsMajority(Attributions(fast), d) && DimensionIndex(d) < 4
    ensures var names := Attributions(fast);
            names != [] && (EnoughEvidence(fast, k) <==> CountName(names, Modal(names, names)) + k >= 8)
  {
    var names := Attributions(fast);
    var d :| IsMajority(names, d) && DimensionIndex(d) < 4;
    MajorityIsModal(names, d);
    ModalIsMostAttributed(names, names);
  }

  // The modal dimension has the most observations of all with a majority.
  lemma EnoughForTheModal(codes: Codes, fast: seq<Record>, p: Payload, k: nat)
    requires Valid(codes, p)
    ensures EnoughEvidence(fast, k) <==>
            Proposes(fast, p) && ObservationCount(TrackA(fast, p).value.value) + k >= MinObservations(DimensionWeights)
  {
    var names := Attributions(fast);
    TrackAProposesExactly(codes, fast, p);
    if Proposes(fast, p) {
      WeightEditStrength(codes, fast, p);
      ModalDecides(fast, k);
    }
  }

  lemma DetectedWeightEdit(h: History, p: Payload, c: Candidate)
    requires DetectCandidates(h, p).Ok? && c in DetectCandidates(h, p).value && c.field == DimensionWeights
    ensures Proposes(h.fast, p) && c == TrackA(h.fast, p).value.value
  {
    TrackBInOrder(h, p);
    TrackCInOrder(h, p);
    OtherTracksKeepWeights(TrackB(h, p), 1, 4);
    OtherTracksKeepWeights(TrackC(h, p), 5, 6);
    assert c !in TrackB(h, p) && c !in TrackC(h, p);
  }

  lemma OfferedIfEarned(h: History, p: Payload, claims: seq<Signature>, d: Candidate)
    requires DetectCandidates(h, p).Ok? && d in DetectCandidates(h, p).value && MeetsThreshold(Corroborated(d, claims))
    ensures Corroborated(d, claims) in Offered(h, p, claims)
  {
    GatedIfEarned(DetectCandidates(h, p).value, claims, d);
  }

  // A pass offers a weight edit exactly when, with its matching claims, there is
  // enough evidence; whatever the valid payload.
  lemma {:induction false} WeightEditIsOfferedExactly(codes: Codes, h: History, p: Payload, claims: seq<Signature>)
    requires Valid(codes, p)
    ensures EnoughEvidence(h.fast, ClaimsFor(claims, WEIGHT_EDIT)) ==>
              Proposes(h.fast, p) && Corroborated(TrackA(h.fast, p).value.value, claims) in Offered(h, p, claims)
    ensures (exists c :: c in Offered(h, p, claims) && c.field == DimensionWeights) ==>
              EnoughEvidence(h.fast, ClaimsFor(claims, WEIGHT_EDIT))
  {
    EnoughForTheModal(codes, h.fast, p, ClaimsFor(claims, WEIGHT_EDIT));
    if Proposes(h.fast, p) {
      WeightEditStrength(codes, h.fast, p);
    }
    if EnoughEvidence(h.fast, ClaimsFor(claims, WEIGHT_EDIT)) {
      OfferedIfEarned(h, p, claims, TrackA(h.fast, p).value.value);
    }
    if c :| c in Offered(h, p, claims) && c.field == DimensionWeights {
      var d := OfferedOrigin(h, p, claims, c);
      DetectedWeightEdit(h, p, d);
    }
  }

  // --- when repeated acceptance ends ------------------------------------------------------------------

  lemma {:induction false} AcceptedRound(codes: Codes, h: History, p: Payload, rounds: seq<Round>, round: Round)
    requires AcceptAll(codes, h, p, rounds).Some?
    ensures AcceptAll(codes, h, p, rounds + [round])
            == AcceptOne(codes, h, AcceptAll(codes, h, p, rounds).value, round)
  {
    assert (rounds + [round])[..|rounds|] == rounds;
  }

  lemma OfferedRound(codes: Codes, h: History, q: Payload, claims: seq<Signature>, c: Candidate) returns (round: Round)
    requires Corroborated(c, claims) in Offered(h, q, claims) && AppliedTo(codes, q, c).Ok?
    ensures round.claims == claims && AcceptOne(codes, h, q, round) == Some(AppliedTo(codes, q, c).value)
    ensures Valid(codes, AppliedTo(codes, q, c).value)
  {
    round := Round(claims, Corroborated(c, claims));
    assert ChangesOf(Corroborated(c, claims)) == ChangesOf(c);
  }

  lemma OneMoreWeightEdit(codes: Codes, h: History, q: Payload, claims: seq<Signature>) returns (round: Round)
    requires Valid(codes, q) && EnoughEvidence(h.fast, ClaimsFor(claims, WEIGHT_EDIT))
    ensures round.claims == claims && AcceptOne(codes, h, q, round).Some?
    ensures Valid(codes, AcceptOne(codes, h, q, round).value)
  {
    WeightEditIsOfferedExactly(codes, h, q, claims);
    TrackAApplies(codes, h, q);
    round := OfferedRound(codes, h, q, claims, TrackA(h.fast, q).value.value);
  }

  // With enough evidence there are always more weight edits to accept.
  lemma {:induction false} WeightEditsAreUnbounded(codes: Codes, h: History, p: Payload, claims: seq<Signature>, n: nat)
    returns (rounds: seq<Round>)
    requires Valid(codes, p) && EnoughEvidence(h.fast, ClaimsFor(claims, WEIGHT_EDIT))
    ensures |rounds| == n && AcceptAll(codes, h, p, rounds).Some?
    ensures Valid(codes, AcceptAll(codes, h, p, rounds).value)
    ensures forall i :: 0 <= i < n ==> rounds[i].claims == claims
  {
    rounds := [];
    if n > 0 {
      rounds := WeightEditsAreUnbounded(codes, h, p, claims, n - 1);
      var q := AcceptAll(codes, h, p, rounds).value;
      var round := OneMoreWeightEdit(codes, h, q, claims);
      AcceptedRound(codes, h, p, rounds, round);
      rounds := rounds + [round];
    }
  }

  // No pass of these rounds read more than k claims for a weight edit.
  ghost predicate AtMostQuotes(rounds: seq<Round>, k: nat) {
    forall i :: 0 <= i < |rounds| ==> ClaimsFor(rounds[i].claims, WEIGHT_EDIT) <= k
  }

  // Without enough evidence every accepted edit is one of the bounded ones.
  lemma {:induction false} NoWeightEdits(codes: Codes, h: History, p: Payload, rounds: seq<Round>, k: nat)
    requires Valid(codes, p) && AcceptAll(codes, h, p, rounds).Some?
    requires AtMostQuotes(rounds, k) && !EnoughEvidence(h.fast, k)
    ensures TrackBAndCEdits(rounds) == |rounds|
  {
    if rounds != [] {
      var init, round := rounds[..|rounds| - 1], rounds[|rounds| - 1];
      NoWeightEdits(codes, h, p, init, k);
      AcceptingTerminates(codes, h, p, init);
      WeightEditIsOfferedExactly(codes, h, AcceptAll(codes, h, p, init).value, round.claims);
      assert EnoughEvidence(h.fast, ClaimsFor(round.claims, WEIGHT_EDIT)) ==> EnoughEvidence(h.fast, k);
    }
  }

  // However many rounds with at most k matching claims a pass there are, no more
  // than the measure of them can accept something.
  ghost predicate AcceptanceIsBounded(codes: Codes, h: History, p: Payload, k: nat) {
    forall rounds :: AtMostQuotes(rounds, k) && AcceptAll(codes, h, p, rounds).Some? ==> |rounds| <= Measure(h, p)
  }

  lemma {:induction false} RepeatedClaims(k: nat)
    ensures ClaimsFor(seq(k, _ => WEIGHT_EDIT), WEIGHT_EDIT) == k
  {
    if k > 0 {
      RepeatedClaims(k - 1);
      assert seq(k, _ => WEIGHT_EDIT)[..k - 1] == seq(k - 1, _ => WEIGHT_EDIT);
    }
  }

  // Detecting, gating and accepting over a fixed history comes to an end, within
  // the measure, exactly when no rubric dimension has both a majority and, with
  // the quotes a pass may read, the eight observations of a weight edit.
  lemma AcceptingEndsExactly(codes: Codes, h: History, p: Payload, k: nat)
    requires Valid(codes, p)
    ensures AcceptanceIsBounded(codes, h, p, k) <==> !EnoughEvidence(h.fast, k)
  {
    if EnoughEvidence(h.fast, k) {
      RepeatedClaims(k);
      var rounds := WeightEditsAreUnbounded(codes, h, p, seq(k, _ => WEIGHT_EDIT), Measure(h, p) + 1);
      assert AtMostQuotes(rounds, k);
    } else {
      forall rounds | AtMostQuotes(rounds, k) && AcceptAll(codes, h, p, rounds).Some?
        ensures |rounds| <= Measure(h, p)
      {
        NoWeightEdits(codes, h, p, rounds, k);
        AcceptingTerminates(codes, h, p, rounds);
      }
    }
  }

  // Every pass of these rounds read these claims.
  ghost predicate AllRead(rounds: seq<Round>, claims: seq<Signature>) {
    forall i :: 0 <= i < |rounds| ==> rounds[i].claims == claims
  }

  ghost predicate AcceptanceIsBoundedUnder(codes: Codes, h: History, p: Payload, claims: seq<Signature>) {
    forall rounds :: AllRead(rounds, claims) && AcceptAll(codes, h, p, rounds).Some? ==> |rounds| <= Measure(h, p)
  }

  // The same when every pass reads the same claims.
  lemma {:induction false} AcceptingEndsExactlyUnder(codes: Codes, h: History, p: Payload, claims: seq<Signature>)
    requires Valid(codes, p)
    ensures AcceptanceIsBoundedUnder(codes, h, p, claims) <==> !EnoughEvidence(h.fast, ClaimsFor(claims, WEIGHT_EDIT))
  {
    var k := ClaimsFor(claims, WEIGHT_EDIT);
    if EnoughEvidence(h.fast, k) {
      var rounds := WeightEditsAreUnbounded(codes, h, p, claims, Measure(h, p) + 1);
      assert AllRead(rounds, claims);
    } else {
      AcceptingEndsExactly(codes, h, p, k);
      forall rounds | AllRead(rounds, claims) && AcceptAll(codes, h, p, rounds).Some?
        ensures |rounds| <= Measure(h, p)
      {
        assert AtMostQuotes(rounds, k);
      }
    }
  }
}
