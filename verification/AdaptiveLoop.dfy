// The loop as users drive it: generation passes over one fixed history,
// acceptances and rejections in any order, proposals left pending in between.
module AdaptiveLoop {
  import opened Common
  import opened Criteria
  import opened Detect
  import opened Proposals
  import opened Convergence

  // The steps of the loop: passes over h, and decisions; no manual save.
  predicate LoopStep(h: History, step: Step) {
    !step.Save? && (step.Generate? ==> step.history == h)
  }

  predicate HasVersion(s: Store) {
    s.versions != []
  }

  // The payload a pass detects against.
  function Active(s: Store): Payload
    requires HasVersion(s)
  {
    s.versions[|s.versions| - 1].payload
  }

  lemma {:induction false} ActiveIsLast(codes: Codes, versions: seq<Version>)
    requires GoodVersions(codes, versions) && versions != []
    ensures ActiveIndex(versions) == Some(|versions| - 1)
    ensures Valid(codes, versions[|versions| - 1].payload)
  {
    assert versions[|versions| - 1].active;
  }

  // --- the measure, leaf by leaf -----------------------------------------------------------------------

  function MeasureAt(h: History, field: Field, p: Payload): nat {
    match field
    case SeniorityMax => RungsAbove(p)
    case SeniorityMin => RungsBelow(p)
    case PostingAgeDays => Age(p)
    case CompensationFloor => FloorGap(h, p)
    case TitleKeywords => |UnusedTokens(h, p)|
    case Employers => |UnusedCompanies(h, p)|
    case _ => 0
  }

  lemma LeafDecides(h: History, field: Field, p: Payload, q: Payload)
    requires LeafOf(p, field) == LeafOf(q, field)
    ensures MeasureAt(h, field, p) == MeasureAt(h, field, q)
  {
    match field
    case TitleKeywords => assert UnusedTokens(h, p) == UnusedTokens(h, q);
    case Employers => assert UnusedCompanies(h, p) == UnusedCompanies(h, q);
    case _ =>
  }

  function Rest(h: History, field: Field, p: Payload): int {
    Measure(h, p) - MeasureAt(h, field, p)
  }

  // Setting a leaf moves no other part of the measure.
  lemma OneLeafMoves(h: History, field: Field, v: EditValue, p: Payload, q: Payload)
    requires SetLeaf(p, field, v) == Some(q)
    ensures Rest(h, field, q) == Rest(h, field, p)
  {
    LeafParts(h, field, v, p, q);
  }

  lemma LeafParts(h: History, field: Field, v: EditValue, p: Payload, q: Payload)
    requires SetLeaf(p, field, v) == Some(q)
    ensures field != SeniorityMax ==> RungsAbove(q) == RungsAbove(p)
    ensures field != SeniorityMin ==> RungsBelow(q) == RungsBelow(p)
    ensures field != PostingAgeDays ==> Age(q) == Age(p)
    ensures field != CompensationFloor ==> FloorGap(h, q) == FloorGap(h, p)
    ensures field != TitleKeywords ==> UnusedTokens(h, q) == UnusedTokens(h, p)
    ensures field != Employers ==> UnusedCompanies(h, q) == UnusedCompanies(h, p)
  {
    match field
    case SeniorityMax =>
    case SeniorityMin =>
    case PostingAgeDays =>
    case CompensationFloor =>
    case TitleKeywords =>
    case Employers =>
    case _ =>
  }

  // A candidate makes the measure smaller on any payload that still holds the
  // value it was detected against, whatever else changed since.
  lemma StaleAcceptDecreases(codes: Codes, h: History, p: Payload, c: Candidate, q: Payload)
    requires Valid(codes, p) && DetectCandidates(h, p).Ok? && c in DetectCandidates(h, p).value
    requires LeafOf(q, c.field) == LeafOf(p, c.field) && AppliedTo(codes, q, c).Ok?
    ensures Measure(h, AppliedTo(codes, q, c).value) + (if c.field != DimensionWeights then 1 else 0) <= Measure(h, q)
  {
    DetectedCandidatesApply(codes, h, p, c);
    OneAcceptance(codes, h, p, c);
    var p', q' := AppliedTo(codes, p, c).value, AppliedTo(codes, q, c).value;
    AppliedEdit(codes, p, ChangesOf(c));
    AppliedEdit(codes, q, ChangesOf(c));
    OneLeafMoves(h, c.field, c.proposed, p, p');
    OneLeafMoves(h, c.field, c.proposed, q, q');
    LeafDecides(h, c.field, p, q);
    LeafDecides(h, c.field, p', q');
  }

  // --- pending proposals stay fresh ----------------------------------------------------------------------

  function Weight(field: Field): nat {
    if field != DimensionWeights then 1 else 0
  }

  // Applied to q, if its leaf holds the current value, the changes make the
  // measure smaller, weight edits apart.
  ghost predicate DecreasesOn(codes: Codes, h: History, changes: Changes, q: Payload) {
    LeafOf(q, changes.field) == changes.current && ApplyProposedChange(codes, q, changes).Ok? ==>
      Measure(h, ApplyProposedChange(codes, q, changes).value) + Weight(changes.field) <= Measure(h, q)
  }

  ghost predicate Decreasing(codes: Codes, h: History, changes: Changes) {
    forall q :: DecreasesOn(codes, h, changes, q)
  }

  // The leaf still holds the value the changes were detected against.
  ghost predicate IsFresh(codes: Codes, h: History, p: Payload, changes: Changes) {
    && LeafOf(p, changes.field) == changes.current
    && changes.direction == DirectionFor(changes.field)
    && Decreasing(codes, h, changes)
  }

  ghost predicate FreshFor(codes: Codes, h: History, p: Payload, ps: seq<Proposal>) {
    forall i :: 0 <= i < |ps| && ps[i].decision == Pending ==> IsFresh(codes, h, p, ps[i].changes)
  }

  ghost predicate AllFresh(codes: Codes, h: History, s: Store)
    requires HasVersion(s)
  {
    FreshFor(codes, h, Active(s), s.proposals)
  }

  function DirectionFor(field: Field): Direction {
    if field == DimensionWeights then Increase else Tighten
  }

  lemma TrackBDirection(h: History, p: Payload, c: Candidate)
    requires c in TrackB(h, p)
    ensures c.direction == Tighten
  {
    TrackBCases(h, p, c);
  }

  lemma TrackCDirection(h: History, p: Payload, c: Candidate)
    requires c in TrackC(h, p)
    ensures c.direction == Tighten
  {
  }

  lemma OneOfThree(a: Option<Candidate>, b: seq<Candidate>, c: seq<Candidate>, x: Candidate)
    requires x in Opt(a) + b + c
    ensures Some(x) == a || x in b || x in c
  {
  }

  lemma DetectedDirection(h: History, p: Payload, c: Candidate)
    requires DetectCandidates(h, p).Ok? && c in DetectCandidates(h, p).value
    ensures c.direction == DirectionFor(c.field)
  {
    TrackBInOrder(h, p);
    TrackCInOrder(h, p);
    OtherTracksKeepWeights(TrackB(h, p), 1, 4);
    OtherTracksKeepWeights(TrackC(h, p), 5, 6);
    OneOfThree(TrackA(h.fast, p).value, TrackB(h, p), TrackC(h, p), c);
    if c in TrackB(h, p) {
      TrackBDirection(h, p, c);
    } else if c in TrackC(h, p) {
      TrackCDirection(h, p, c);
    }
  }

  lemma DetectedIsFresh(codes: Codes, h: History, p: Payload, c: Candidate)
    requires Valid(codes, p) && DetectCandidates(h, p).Ok? && c in DetectCandidates(h, p).value
    ensures IsFresh(codes, h, p, ChangesOf(c))
  {
    DetectedDirection(h, p, c);
    DetectedCandidatesApply(codes, h, p, c);
    forall q
      ensures DecreasesOn(codes, h, ChangesOf(c), q)
    {
      if LeafOf(q, c.field) == c.current && ApplyProposedChange(codes, q, ChangesOf(c)).Ok? {
        StaleAcceptDecreases(codes, h, p, c, q);
      }
    }
  }

  lemma GatedIsFresh(codes: Codes, h: History, p: Payload, claims: seq<Signature>, c: Candidate)
    requires Valid(codes, p) && DetectCandidates(h, p).Ok?
    requires c in Gate(WithClaims(DetectCandidates(h, p).value, claims))
    ensures IsFresh(codes, h, p, ChangesOf(c))
  {
    var d := GatedOrigin(DetectCandidates(h, p).value, claims, c);
    DetectedIsFresh(codes, h, p, d);
    assert ChangesOf(d) == ChangesOf(c);
  }

  lemma {:induction false} SurvivorsAreFresh(codes: Codes, h: History, p: Payload, known: StoredHistory,
                                             gated: seq<Candidate>)
    requires forall c :: c in gated ==> IsFresh(codes, h, p, ChangesOf(c))
    ensures FreshFor(codes, h, p, Surviving(known, gated))
  {
    var added := Surviving(known, gated);
    SurvivorsAreGated(known, gated);
    forall k | 0 <= k < |added|
      ensures IsFresh(codes, h, p, added[k].changes)
    {
      assert FromOneOf(gated, added[k]);
      var i :| 0 <= i < |gated| && ChangesOf(gated[i]) == added[k].changes;
      assert gated[i] in gated;
    }
  }

  // What a pass appends was detected against the active payload.
  lemma {:induction false} AddedAreFresh(codes: Codes, h: History, p: Payload, claims: seq<Signature>,
                                         known: StoredHistory)
    requires Valid(codes, p) && DetectCandidates(h, p).Ok?
    ensures FreshFor(codes, h, p, Surviving(known, Gate(WithClaims(DetectCandidates(h, p).value, claims))))
  {
    var gated := Gate(WithClaims(DetectCandidates(h, p).value, claims));
    forall c | c in gated
      ensures IsFresh(codes, h, p, ChangesOf(c))
    {
      GatedIsFresh(codes, h, p, claims, c);
    }
    SurvivorsAreFresh(codes, h, p, known, gated);
  }

  // --- one step ----------------------------------------------------------------------------------------------

  // How many accepted proposals are weight edits, or how many are not.
  function Accepts(ps: seq<Proposal>, weights: bool): nat {
    if ps == [] then 0
    else
      var last := ps[|ps| - 1];
      Accepts(ps[..|ps| - 1], weights)
      + if last.decision.Accepted? && (last.changes.field == DimensionWeights) == weights then 1 else 0
  }

  lemma {:induction false} DecidingOne(ps: seq<Proposal>, i: nat, decision: Decision, weights: bool)
    requires i < |ps| && ps[i].decision == Pending
    ensures Accepts(ps[i := ps[i].(decision := decision)], weights) ==
            Accepts(ps, weights)
            + if decision.Accepted? && (ps[i].changes.field == DimensionWeights) == weights then 1 else 0
  {
    var n, after := |ps| - 1, ps[i := ps[i].(decision := decision)];
    if i < n {
      DecidingOne(ps[..n], i, decision, weights);
      assert after[..n] == ps[..n][i := ps[..n][i].(decision := decision)];
    } else {
      assert after[..n] == ps[..n];
    }
  }

  lemma {:induction false} AppendingPending(ps: seq<Proposal>, added: seq<Proposal>, weights: bool)
    requires forall k :: 0 <= k < |added| ==> added[k].decision == Pending
    ensures Accepts(ps + added, weights) == Accepts(ps, weights)
  {
    if added == [] {
      assert ps + added == ps;
    } else {
      var init := added[..|added| - 1];
      AppendingPending(ps, init, weights);
      assert (ps + added)[..|ps + added| - 1] == ps + init;
    }
  }

  // What every reachable store of the loop satisfies.
  ghost predicate LoopInv(codes: Codes, h: History, s: Store) {
    Good(codes, s) && HasVersion(s) && AllFresh(codes, h, s)
  }

  function Room(h: History, s: Store): nat
    requires HasVersion(s)
  {
    Measure(h, Active(s))
  }

  // Of two pending proposals the fields differ.
  lemma PendingFieldsDiffer(codes: Codes, h: History, s: Store, i: nat, j: nat)
    requires LoopInv(codes, h, s) && i < |s.proposals| && j < |s.proposals| && i != j
    requires s.proposals[i].decision == Pending && s.proposals[j].decision == Pending
    ensures s.proposals[i].changes.field != s.proposals[j].changes.field
  {
    assert SignatureOf(s.proposals[i].changes) != SignatureOf(s.proposals[j].changes);
  }

  // What a successful accept does to the active payload.
  lemma AcceptedPayload(codes: Codes, s: Store, i: nat)
    requires Good(codes, s) && HasVersion(s) && AcceptedAt(codes, s, i).Some?
    ensures var s' := AcceptedAt(codes, s, i).value;
            && i < |s.proposals| && s.proposals[i].decision == Pending && HasVersion(s')
            && ApplyProposedChange(codes, Active(s), s.proposals[i].changes) == Ok(Active(s'))
            && s'.proposals == s.proposals[i := s'.proposals[i]]
            && s'.proposals[i] == s.proposals[i].(decision := s'.proposals[i].decision)
            && s'.proposals[i].decision.Accepted?
  {
    ActiveIsLast(codes, s.versions);
  }

  lemma AcceptStep(codes: Codes, h: History, s: Store, i: nat)
    requires LoopInv(codes, h, s) && AcceptedAt(codes, s, i).Some?
    ensures var s' := AcceptedAt(codes, s, i).value;
            && HasVersion(s') && AllFresh(codes, h, s')
            && Accepts(s'.proposals, false) + Room(h, s') <= Accepts(s.proposals, false) + Room(h, s)
  {
    var s' := AcceptedAt(codes, s, i).value;
    AcceptedPayload(codes, s, i);
    var changes := s.proposals[i].changes;
    assert IsFresh(codes, h, Active(s), changes);
    assert DecreasesOn(codes, h, changes, Active(s));
    DecidingOne(s.proposals, i, s'.proposals[i].decision, false);
    forall j | 0 <= j < |s'.proposals| && s'.proposals[j].decision == Pending
      ensures IsFresh(codes, h, Active(s'), s'.proposals[j].changes)
    {
      PendingFieldsDiffer(codes, h, s, i, j);
      AppliedEdit(codes, Active(s), changes);
    }
  }

  // Only proposals changed; the accepted ones did not, and what is pending is fresh.
  ghost predicate Quiet(codes: Codes, h: History, s: Store, s': Store)
    requires HasVersion(s)
  {
    && s'.versions == s.versions && AllFresh(codes, h, s')
    && forall weights :: Accepts(s'.proposals, weights) == Accepts(s.proposals, weights)
  }

  lemma AppendFresh(codes: Codes, h: History, s: Store, added: seq<Proposal>)
    requires HasVersion(s) && AllFresh(codes, h, s)
    requires forall k :: 0 <= k < |added| ==> added[k].decision == Pending
    requires FreshFor(codes, h, Active(s), added)
    ensures Quiet(codes, h, s, s.(proposals := s.proposals + added))
  {
    AppendingPending(s.proposals, added, false);
    AppendingPending(s.proposals, added, true);
  }

  lemma GeneratedFrom(s: Store, h: History, claims: seq<Signature>, i: nat, p: Payload)
    requires ActiveIndex(s.versions) == Some(i) && p == s.versions[i].payload
    ensures Generated(s, h, claims) == Appending(s, Added(s, p, h, claims))
  {
  }

  lemma AddedProposals(codes: Codes, h: History, s: Store, claims: seq<Signature>)
    requires GoodVersions(codes, s.versions) && HasVersion(s)
    ensures FreshFor(codes, h, Active(s), Added(s, Active(s), h, claims))
    ensures forall k :: 0 <= k < |Added(s, Active(s), h, claims)| ==>
              Added(s, Active(s), h, claims)[k].decision == Pending
  {
    ActiveIsLast(codes, s.versions);
    var detected := DetectCandidates(h, Active(s));
    if detected.Ok? {
      AddedAreFresh(codes, h, Active(s), claims, HistoryOf(s.proposals));
      AllSurvivorsPending(HistoryOf(s.proposals), Gate(WithClaims(detected.value, claims)));
    }
  }

  lemma GenerateStep(codes: Codes, h: History, s: Store, claims: seq<Signature>, s': Store)
    requires LoopInv(codes, h, s) && s' == Generated(s, h, claims)
    ensures Quiet(codes, h, s, s')
  {
    ActiveIsLast(codes, s.versions);
    GeneratedFrom(s, h, claims, |s.versions| - 1, Active(s));
    AddedProposals(codes, h, s, claims);
    AppendFresh(codes, h, s, Added(s, Active(s), h, claims));
  }

  lemma RejectStep(codes: Codes, h: History, s: Store, i: nat, reason: Option<string>)
    requires HasVersion(s) && AllFresh(codes, h, s) && RejectedAt(s, i, reason).Some?
    ensures Quiet(codes, h, s, RejectedAt(s, i, reason).value)
  {
    var rejected := Rejected(Normalised(reason));
    DecidingOne(s.proposals, i, rejected, false);
    DecidingOne(s.proposals, i, rejected, true);
    StillFresh(codes, h, s, i, rejected);
  }

  lemma StillFresh(codes: Codes, h: History, s: Store, i: nat, decision: Decision)
    requires HasVersion(s) && AllFresh(codes, h, s) && i < |s.proposals| && decision != Pending
    ensures AllFresh(codes, h, s.(proposals := s.proposals[i := s.proposals[i].(decision := decision)]))
  {
  }

  // Not more accepted edits than room was used up.
  ghost predicate Spends(h: History, s: Store, s': Store)
    requires HasVersion(s) && HasVersion(s')
  {
    Accepts(s'.proposals, false) + Room(h, s') <= Accepts(s.proposals, false) + Room(h, s)
  }

  lemma AcceptOutcome(codes: Codes, h: History, s: Store, i: nat, s': Store)
    requires LoopInv(codes, h, s) && s' == if AcceptedAt(codes, s, i).Some? then AcceptedAt(codes, s, i).value else s
    ensures HasVersion(s') && AllFresh(codes, h, s') && Spends(h, s, s')
  {
    if AcceptedAt(codes, s, i).Some? {
      AcceptStep(codes, h, s, i);
    }
  }

  lemma RejectOutcome(codes: Codes, h: History, s: Store, i: nat, reason: Option<string>, s': Store)
    requires LoopInv(codes, h, s) && s' == if RejectedAt(s, i, reason).Some? then RejectedAt(s, i, reason).value else s
    ensures Quiet(codes, h, s, s')
  {
    if RejectedAt(s, i, reason).Some? {
      RejectStep(codes, h, s, i, reason);
    }
  }

  lemma QuietSpends(codes: Codes, h: History, s: Store, s': Store)
    requires HasVersion(s) && Quiet(codes, h, s, s')
    ensures HasVersion(s') && AllFresh(codes, h, s') && Spends(h, s, s')
  {
    assert Active(s') == Active(s);
  }

  lemma StepOutcome(codes: Codes, h: History, s: Store, step: Step, s': Store)
    requires LoopInv(codes, h, s) && LoopStep(h, step) && s' == After(codes, s, step)
    ensures HasVersion(s') && AllFresh(codes, h, s') && Spends(h, s, s')
  {
    match step
    case Generate(history, claims) =>
      GenerateStep(codes, h, s, claims, s');
      QuietSpends(codes, h, s, s');
    case Accept(i) =>
      AcceptOutcome(codes, h, s, i, s');
    case Reject(i, reason) =>
      RejectOutcome(codes, h, s, i, reason, s');
      QuietSpends(codes, h, s, s');
    case Save(payload, source) =>
  }

  lemma LoopInvStep(codes: Codes, h: History, s: Store, step: Step)
    requires LoopInv(codes, h, s) && LoopStep(h, step)
    ensures var s' := After(codes, s, step); LoopInv(codes, h, s') && Spends(h, s, s')
  {
    GoodStep(codes, s, step);
    StepOutcome(codes, h, s, step, After(codes, s, step));
  }

  // In every run of the loop over a fixed history, whatever is left pending,
  // accepted late or rejected, only so many edits other than weight edits are
  // ever accepted: each makes the measure of the active payload smaller.
  lemma {:induction false} LoopTerminates(codes: Codes, h: History, s: Store, steps: seq<Step>)
    requires LoopInv(codes, h, s) && forall k :: 0 <= k < |steps| ==> LoopStep(h, steps[k])
    ensures var s' := Exec(codes, s, steps);
            && LoopInv(codes, h, s')
            && Accepts(s'.proposals, false) + Room(h, s') <= Accepts(s.proposals, false) + Room(h, s)
  {
    if steps != [] {
      var init, last := steps[..|steps| - 1], steps[|steps| - 1];
      assert forall k :: 0 <= k < |init| ==> init[k] == steps[k];
      LoopTerminates(codes, h, s, init);
      LoopInvStep(codes, h, Exec(codes, s, init), last);
    }
  }

  // --- when the loop ends --------------------------------------------------------------------------------------

  predicate QuotesAtMost(step: Step, k: nat) {
    step.Generate? ==> ClaimsFor(step.claims, WEIGHT_EDIT) <= k
  }

  ghost predicate NoPendingWeights(ps: seq<Proposal>) {
    forall i :: 0 <= i < |ps| && ps[i].decision == Pending ==> ps[i].changes.field != DimensionWeights
  }

  lemma {:induction false} AddedAreNoWeights(codes: Codes, h: History, s: Store, claims: seq<Signature>, k: nat)
    requires GoodVersions(codes, s.versions) && HasVersion(s)
    requires ClaimsFor(claims, WEIGHT_EDIT) <= k && !EnoughEvidence(h.fast, k)
    ensures NoPendingWeights(Added(s, Active(s), h, claims))
  {
    ActiveIsLast(codes, s.versions);
    WeightEditIsOfferedExactly(codes, h, Active(s), claims);
    assert EnoughEvidence(h.fast, ClaimsFor(claims, WEIGHT_EDIT)) ==> EnoughEvidence(h.fast, k);
    var offered := Offered(h, Active(s), claims);
    if DetectCandidates(h, Active(s)).Ok? {
      NoneOfTheField(HistoryOf(s.proposals), offered);
    }
  }

  lemma {:induction false} NoneOfTheField(known: StoredHistory, gated: seq<Candidate>)
    requires forall c :: c in gated ==> c.field != DimensionWeights
    ensures NoPendingWeights(Surviving(known, gated))
  {
    var added := Surviving(known, gated);
    SurvivorsAreGated(known, gated);
    forall i | 0 <= i < |added|
      ensures added[i].changes.field != DimensionWeights
    {
      assert FromOneOf(gated, added[i]);
      var j :| 0 <= j < |gated| && ChangesOf(gated[j]) == added[i].changes;
      assert gated[j] in gated;
    }
  }

  // No weight edit is pending, and as many as before are accepted.
  ghost predicate NoNewWeights(s: Store, s': Store) {
    NoPendingWeights(s'.proposals) && Accepts(s'.proposals, true) == Accepts(s.proposals, true)
  }

  lemma AddedArePending(s: Store, p: Payload, h: History, claims: seq<Signature>)
    ensures forall k :: 0 <= k < |Added(s, p, h, claims)| ==> Added(s, p, h, claims)[k].decision == Pending
  {
    var detected := DetectCandidates(h, p);
    if detected.Ok? {
      AllSurvivorsPending(HistoryOf(s.proposals), Gate(WithClaims(detected.value, claims)));
    }
  }

  lemma AppendNoWeights(s: Store, added: seq<Proposal>)
    requires NoPendingWeights(s.proposals) && NoPendingWeights(added)
    requires forall k :: 0 <= k < |added| ==> added[k].decision == Pending
    ensures NoNewWeights(s, Appending(s, added))
  {
    AppendingPending(s.proposals, added, true);
  }

  lemma WhatIsAdded(codes: Codes, h: History, s: Store, claims: seq<Signature>) returns (added: seq<Proposal>)
    requires GoodVersions(codes, s.versions) && HasVersion(s)
    ensures Generated(s, h, claims) == Appending(s, added) && added == Added(s, Active(s), h, claims)
  {
    ActiveIsLast(codes, s.versions);
    added := Added(s, Active(s), h, claims);
    GeneratedFrom(s, h, claims, |s.versions| - 1, Active(s));
  }

  lemma {:induction false} NoWeightsAmong(codes: Codes, h: History, s: Store, claims: seq<Signature>, k: nat,
                                          added: seq<Proposal>)
    requires GoodVersions(codes, s.versions) && HasVersion(s) && added == Added(s, Active(s), h, claims)
    requires ClaimsFor(claims, WEIGHT_EDIT) <= k && !EnoughEvidence(h.fast, k)
    ensures NoPendingWeights(added) && forall i :: 0 <= i < |added| ==> added[i].decision == Pending
  {
    AddedAreNoWeights(codes, h, s, claims, k);
    AddedArePending(s, Active(s), h, claims);
  }

  lemma {:induction false} NoWeightsGenerated(codes: Codes, h: History, s: Store, claims: seq<Signature>, k: nat,
                                              s': Store)
    requires GoodVersions(codes, s.versions) && HasVersion(s) && NoPendingWeights(s.proposals)
    requires ClaimsFor(claims, WEIGHT_EDIT) <= k && !EnoughEvidence(h.fast, k) && s' == Generated(s, h, claims)
    ensures NoNewWeights(s, s')
  {
    var added := WhatIsAdded(codes, h, s, claims);
    NoWeightsAmong(codes, h, s, claims, k, added);
    AppendNoWeights(s, added);
  }

  lemma NoWeightsAccepted(codes: Codes, s: Store, i: nat, s': Store)
    requires Good(codes, s) && HasVersion(s) && NoPendingWeights(s.proposals)
    requires s' == if AcceptedAt(codes, s, i).Some? then AcceptedAt(codes, s, i).value else s
    ensures NoNewWeights(s, s')
  {
    if AcceptedAt(codes, s, i).Some? {
      AcceptedPayload(codes, s, i);
      DecidingOne(s.proposals, i, s'.proposals[i].decision, true);
    }
  }

  lemma NoWeightsRejected(s: Store, i: nat, reason: Option<string>, s': Store)
    requires NoPendingWeights(s.proposals)
    requires s' == if RejectedAt(s, i, reason).Some? then RejectedAt(s, i, reason).value else s
    ensures NoNewWeights(s, s')
  {
    if RejectedAt(s, i, reason).Some? {
      DecidingOne(s.proposals, i, Rejected(Normalised(reason)), true);
    }
  }

  lemma NoWeightsStep(codes: Codes, h: History, s: Store, step: Step, k: nat, s': Store)
    requires LoopInv(codes, h, s) && LoopStep(h, step) && QuotesAtMost(step, k) && !EnoughEvidence(h.fast, k)
    requires NoPendingWeights(s.proposals) && s' == After(codes, s, step)
    ensures NoNewWeights(s, s')
  {
    match step
    case Generate(history, claims) => NoWeightsGenerated(codes, h, s, claims, k, s');
    case Accept(i) => NoWeightsAccepted(codes, s, i, s');
    case Reject(i, reason) => NoWeightsRejected(s, i, reason, s');
    case Save(payload, source) =>
  }

  ghost predicate LoopRun(h: History, steps: seq<Step>, k: nat) {
    forall i :: 0 <= i < |steps| ==> LoopStep(h, steps[i]) && QuotesAtMost(steps[i], k)
  }

  lemma {:induction false} NoWeightsEver(codes: Codes, h: History, s: Store, steps: seq<Step>, k: nat)
    requires LoopInv(codes, h, s) && LoopRun(h, steps, k) && !EnoughEvidence(h.fast, k)
    requires NoPendingWeights(s.proposals)
    ensures NoNewWeights(s, Exec(codes, s, steps))
  {
    if steps != [] {
      var init, last := steps[..|steps| - 1], steps[|steps| - 1];
      assert forall i :: 0 <= i < |init| ==> init[i] == steps[i];
      NoWeightsEver(codes, h, s, init, k);
      LoopTerminates(codes, h, s, init);
      NoWeightsStep(codes, h, Exec(codes, s, init), last, k, Exec(codes, s, steps));
    }
  }

  // A weight edit is neither pending nor was ever rejected.
  ghost predicate WeightsOpen(ps: seq<Proposal>) {
    forall i :: 0 <= i < |ps| && SignatureOf(ps[i].changes) == WEIGHT_EDIT ==> ps[i].decision.Accepted?
  }

  lemma {:induction false} OpenIsUnblocked(ps: seq<Proposal>)
    requires WeightsOpen(ps)
    ensures WEIGHT_EDIT !in HistoryOf(ps).pending && WEIGHT_EDIT !in HistoryOf(ps).rejected
  {
    if ps != [] {
      assert ps[|ps| - 1].decision.Accepted? || SignatureOf(ps[|ps| - 1].changes) != WEIGHT_EDIT;
      OpenIsUnblocked(ps[..|ps| - 1]);
    }
  }

  // With enough evidence a pass proposes a weight edit that can be accepted.
  lemma WeightEditIsProposed(codes: Codes, h: History, s: Store, claims: seq<Signature>) returns (j: nat)
    requires LoopInv(codes, h, s) && WeightsOpen(s.proposals)
    requires EnoughEvidence(h.fast, ClaimsFor(claims, WEIGHT_EDIT))
    ensures var added := Added(s, Active(s), h, claims);
            && j < |added| && SignatureOf(added[j].changes) == WEIGHT_EDIT
            && ApplyProposedChange(codes, Active(s), added[j].changes).Ok?
  {
    ActiveIsLast(codes, s.versions);
    var p := Active(s);
    WeightEditIsOfferedExactly(codes, h, p, claims);
    WeightEditStrength(codes, h.fast, p);
    var d := TrackA(h.fast, p).value.value;
    var c := Corroborated(d, claims);
    assert ChangesOf(c) == ChangesOf(d);
    TrackAApplies(codes, h, p);
    OpenIsUnblocked(s.proposals);
    j := UnblockedIsAdded(HistoryOf(s.proposals), Offered(h, p, claims), c);
  }

  lemma UnblockedIsAdded(known: StoredHistory, gated: seq<Candidate>, c: Candidate) returns (j: nat)
    requires c in gated && !Blocks(known, SignatureOf(ChangesOf(c)), ObservationCount(c))
    ensures j < |Surviving(known, gated)| && Surviving(known, gated)[j] == NewProposal(c)
  {
    var i :| 0 <= i < |gated| && gated[i] == c;
    ProposesExactlyTheUnblocked(known, gated, NewProposal(c));
    j :| 0 <= j < |Surviving(known, gated)| && Surviving(known, gated)[j] == NewProposal(c);
  }

  // The same, except for proposal i.
  ghost predicate OthersOpen(ps: seq<Proposal>, i: nat) {
    forall j :: 0 <= j < |ps| && j != i && SignatureOf(ps[j].changes) == WEIGHT_EDIT ==> ps[j].decision.Accepted?
  }

  lemma {:induction false} OpenAfter(ps: seq<Proposal>, after: seq<Proposal>, i: nat)
    requires i < |ps| && ps[i].decision == Pending && OthersOpen(ps, i)
    requires SignatureOf(ps[i].changes) == WEIGHT_EDIT
    requires |after| == |ps| && after == ps[i := after[i]]
    requires after[i] == ps[i].(decision := after[i].decision) && after[i].decision.Accepted?
    ensures WeightsOpen(after) && Accepts(after, true) == Accepts(ps, true) + 1
  {
    DecidingOne(ps, i, after[i].decision, true);
  }

  lemma OthersStayOpen(ps: seq<Proposal>, added: seq<Proposal>, j: nat)
    requires WeightsOpen(ps) && GoodProposals(ps + added) && j < |added|
    requires SignatureOf(added[j].changes) == WEIGHT_EDIT
    requires forall k :: 0 <= k < |added| ==> added[k].decision == Pending
    ensures OthersOpen(ps + added, |ps| + j)
  {
    var all := ps + added;
    assert forall m :: |ps| <= m < |all| ==> all[m] == added[m - |ps|];
    assert all[|ps| + j] == added[j];
    assert forall m :: 0 <= m < |ps| ==> all[m] == ps[m];
  }

  lemma AcceptingTheWeights(codes: Codes, s: Store, i: nat)
    requires Good(codes, s) && HasVersion(s) && i < |s.proposals| && s.proposals[i].decision == Pending
    requires SignatureOf(s.proposals[i].changes) == WEIGHT_EDIT
    requires ApplyProposedChange(codes, Active(s), s.proposals[i].changes).Ok?
    requires OthersOpen(s.proposals, i)
    ensures var s' := AcceptedAt(codes, s, i);
            s'.Some? && WeightsOpen(s'.value.proposals)
            && Accepts(s'.value.proposals, true) == Accepts(s.proposals, true) + 1
  {
    ActiveIsLast(codes, s.versions);
    CanAccept(codes, s, i, |s.versions| - 1);
    AcceptedPayload(codes, s, i);
    OpenAfter(s.proposals, AcceptedAt(codes, s, i).value.proposals, i);
  }

  lemma CanAccept(codes: Codes, s: Store, i: nat, active: nat)
    requires ActiveIndex(s.versions) == Some(active) && i < |s.proposals| && s.proposals[i].decision == Pending
    requires ApplyProposedChange(codes, s.versions[active].payload, s.proposals[i].changes).Ok?
    ensures AcceptedAt(codes, s, i).Some?
  {
  }

  lemma AfterGenerate(codes: Codes, s: Store, h: History, claims: seq<Signature>)
    ensures After(codes, s, Generate(h, claims)) == Generated(s, h, claims)
  {
  }

  lemma AfterAccept(codes: Codes, s: Store, i: nat)
    requires AcceptedAt(codes, s, i).Some?
    ensures After(codes, s, Accept(i)) == AcceptedAt(codes, s, i).value
  {
  }

  lemma WeightIsAdded(codes: Codes, h: History, s: Store, claims: seq<Signature>)
    returns (added: seq<Proposal>, j: nat)
    requires LoopInv(codes, h, s) && WeightsOpen(s.proposals)
    requires EnoughEvidence(h.fast, ClaimsFor(claims, WEIGHT_EDIT))
    ensures Generated(s, h, claims) == Appending(s, added)
    ensures forall k :: 0 <= k < |added| ==> added[k].decision == Pending
    ensures j < |added| && SignatureOf(added[j].changes) == WEIGHT_EDIT
    ensures ApplyProposedChange(codes, Active(s), added[j].changes).Ok?
  {
    added := WhatIsAdded(codes, h, s, claims);
    AddedArePending(s, Active(s), h, claims);
    j := WeightEditIsProposed(codes, h, s, claims);
  }

  lemma AppendedWeight(s: Store, added: seq<Proposal>, j: nat)
    requires WeightsOpen(s.proposals) && GoodProposals(Appending(s, added).proposals) && j < |added|
    requires SignatureOf(added[j].changes) == WEIGHT_EDIT
    requires forall k :: 0 <= k < |added| ==> added[k].decision == Pending
    ensures var ps, i := Appending(s, added).proposals, |s.proposals| + j;
            && i < |ps| && ps[i] == added[j] && ps[i].decision == Pending && OthersOpen(ps, i)
            && Accepts(ps, true) == Accepts(s.proposals, true)
  {
    AppendingPending(s.proposals, added, true);
    OthersStayOpen(s.proposals, added, j);
  }

  // One pass ...
  lemma WeightIsPending(codes: Codes, h: History, s: Store, claims: seq<Signature>) returns (i: nat, mid: Store)
    requires LoopInv(codes, h, s) && WeightsOpen(s.proposals)
    requires EnoughEvidence(h.fast, ClaimsFor(claims, WEIGHT_EDIT))
    ensures mid == After(codes, s, Generate(h, claims)) && LoopInv(codes, h, mid) && Active(mid) == Active(s)
    ensures i < |mid.proposals| && mid.proposals[i].decision == Pending && OthersOpen(mid.proposals, i)
    ensures SignatureOf(mid.proposals[i].changes) == WEIGHT_EDIT
    ensures ApplyProposedChange(codes, Active(s), mid.proposals[i].changes).Ok?
    ensures Accepts(mid.proposals, true) == Accepts(s.proposals, true)
  {
    var added, j := WeightIsAdded(codes, h, s, claims);
    i, mid := |s.proposals| + j, Appending(s, added);
    AfterPass(codes, h, s, claims, mid);
    AppendedWeight(s, added, j);
  }

  lemma AfterPass(codes: Codes, h: History, s: Store, claims: seq<Signature>, mid: Store)
    requires LoopInv(codes, h, s) && mid == Generated(s, h, claims)
    ensures mid == After(codes, s, Generate(h, claims)) && LoopInv(codes, h, mid)
  {
    LoopInvStep(codes, h, s, Generate(h, claims));
    AfterGenerate(codes, s, h, claims);
  }

  // ... and one acceptance, and the store is open for the next weight edit.
  lemma WeightRound(codes: Codes, h: History, s: Store, claims: seq<Signature>) returns (i: nat, s': Store)
    requires LoopInv(codes, h, s) && WeightsOpen(s.proposals)
    requires EnoughEvidence(h.fast, ClaimsFor(claims, WEIGHT_EDIT))
    ensures s' == After(codes, After(codes, s, Generate(h, claims)), Accept(i))
    ensures LoopInv(codes, h, s') && WeightsOpen(s'.proposals)
    ensures Accepts(s'.proposals, true) == Accepts(s.proposals, true) + 1
  {
    var mid;
    i, mid := WeightIsPending(codes, h, s, claims);
    s' := AcceptWeight(codes, h, mid, i);
  }

  lemma AcceptWeight(codes: Codes, h: History, mid: Store, i: nat) returns (s': Store)
    requires LoopInv(codes, h, mid) && i < |mid.proposals| && mid.proposals[i].decision == Pending
    requires SignatureOf(mid.proposals[i].changes) == WEIGHT_EDIT && OthersOpen(mid.proposals, i)
    requires ApplyProposedChange(codes, Active(mid), mid.proposals[i].changes).Ok?
    ensures s' == After(codes, mid, Accept(i)) && LoopInv(codes, h, s') && WeightsOpen(s'.proposals)
    ensures Accepts(s'.proposals, true) == Accepts(mid.proposals, true) + 1
  {
    s' := After(codes, mid, Accept(i));
    LoopInvStep(codes, h, mid, Accept(i));
    AcceptingTheWeights(codes, mid, i);
    AfterAccept(codes, mid, i);
  }

  lemma {:induction false} ExecTwo(codes: Codes, s: Store, before: seq<Step>, a: Step, b: Step)
    ensures Exec(codes, s, before + [a] + [b]) == After(codes, After(codes, Exec(codes, s, before), a), b)
  {
    assert (before + [a] + [b])[..|before| + 1] == before + [a];
    assert (before + [a])[..|before|] == before;
  }

  lemma {:induction false} LoopRunMore(h: History, before: seq<Step>, claims: seq<Signature>, i: nat)
    requires LoopRun(h, before, ClaimsFor(claims, WEIGHT_EDIT))
    ensures LoopRun(h, before + [Generate(h, claims)] + [Accept(i)], ClaimsFor(claims, WEIGHT_EDIT))
  {
  }

  lemma {:induction false} WeightsWithoutEnd(codes: Codes, h: History, s: Store, claims: seq<Signature>, n: nat)
    returns (steps: seq<Step>, s': Store)
    requires LoopInv(codes, h, s) && WeightsOpen(s.proposals)
    requires EnoughEvidence(h.fast, ClaimsFor(claims, WEIGHT_EDIT))
    ensures LoopRun(h, steps, ClaimsFor(claims, WEIGHT_EDIT)) && s' == Exec(codes, s, steps)
    ensures LoopInv(codes, h, s') && WeightsOpen(s'.proposals)
    ensures Accepts(s'.proposals, true) == Accepts(s.proposals, true) + n
  {
    if n == 0 {
      steps, s' := [], s;
    } else {
      var before, mid := WeightsWithoutEnd(codes, h, s, claims, n - 1);
      var i;
      i, s' := WeightRound(codes, h, mid, claims);
      steps := before + [Generate(h, claims)] + [Accept(i)];
      LoopRunMore(h, before, claims, i);
      ExecTwo(codes, s, before, Generate(h, claims), Accept(i));
    }
  }

  // However the loop runs, no more proposals are accepted than there is room for.
  ghost predicate LoopIsBounded(codes: Codes, h: History, s: Store, k: nat)
    requires HasVersion(s)
  {
    forall steps :: LoopRun(h, steps, k) ==>
      var ps := Exec(codes, s, steps).proposals;
      Accepts(ps, false) + Accepts(ps, true) <= Accepts(s.proposals, false) + Accepts(s.proposals, true) + Room(h, s)
  }

  // Over a fixed history, with at most k matching claims a pass, the loop accepts
  // a bounded number of proposals exactly when no rubric dimension has both a
  // majority and, with those claims, the eight observations of a weight edit.
  lemma LoopEndsExactly(codes: Codes, h: History, s: Store, k: nat)
    requires LoopInv(codes, h, s) && WeightsOpen(s.proposals)
    ensures LoopIsBounded(codes, h, s, k) <==> !EnoughEvidence(h.fast, k)
  {
    if EnoughEvidence(h.fast, k) {
      RepeatedClaims(k);
      var n := Room(h, s) + Accepts(s.proposals, false) + 1;
      var steps, s' := WeightsWithoutEnd(codes, h, s, seq(k, _ => WEIGHT_EDIT), n);
      assert LoopRun(h, steps, k);
    } else {
      OpenMeansNonePending(codes, h, s);
      forall steps | LoopRun(h, steps, k)
        ensures var ps := Exec(codes, s, steps).proposals;
                Accepts(ps, false) + Accepts(ps, true)
                <= Accepts(s.proposals, false) + Accepts(s.proposals, true) + Room(h, s)
      {
        NoWeightsEver(codes, h, s, steps, k);
        LoopTerminates(codes, h, s, steps);
      }
    }
  }

  lemma OpenMeansNonePending(codes: Codes, h: History, s: Store)
    requires LoopInv(codes, h, s) && WeightsOpen(s.proposals)
    ensures NoPendingWeights(s.proposals)
  {
    forall i | 0 <= i < |s.proposals| && s.proposals[i].decision == Pending
      ensures s.proposals[i].changes.field != DimensionWeights
    {
      assert IsFresh(codes, h, Active(s), s.proposals[i].changes);
    }
  }

  // A store with one valid version and no proposals is where the loop starts.
  lemma NewStoreStartsTheLoop(codes: Codes, h: History, p: Payload)
    requires Valid(codes, p)
    ensures var s := Store(Saved([], p, Initial), []); LoopInv(codes, h, s) && WeightsOpen(s.proposals)
  {
    SavedIsGood(codes, [], p, Initial);
  }
}
