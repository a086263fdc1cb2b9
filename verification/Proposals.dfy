// Criteria versions and proposals: generation, acceptance, rejection, and
// manual saves, as one store and as a state machine over it.
module Proposals {
  import opened Common
  import opened Criteria
  import opened Detect
  import opened Sorting

  datatype CriteriaSource = Initial | ManualEdit | ProposalAccepted

  datatype Version = Version(number: nat, active: bool, payload: Payload, source: CriteriaSource)

  datatype Decision = Pending | Accepted(version: nat) | Rejected(reason: Option<string>)

  // `count` is the observation count stored with the evidence.
  datatype Proposal = Proposal(changes: Changes, count: nat, decision: Decision)

  type Signature = (Field, Direction)

  function SignatureOf(changes: Changes): Signature {
    (changes.field, changes.direction)
  }

  // Both tables in insertion order.
  datatype Store = Store(versions: seq<Version>, proposals: seq<Proposal>)

  // --- criteria versions ---------------------------------------------------------------------------

  function MaxNumber(versions: seq<Version>): nat {
    if versions == [] then 0
    else
      var rest, last := MaxNumber(versions[..|versions| - 1]), versions[|versions| - 1].number;
      if rest < last then last else rest
  }

  function Deactivated(versions: seq<Version>): seq<Version> {
    seq(|versions|, i requires 0 <= i < |versions| => versions[i].(active := false))
  }

  function Saved(versions: seq<Version>, payload: Payload, source: CriteriaSource): seq<Version> {
    Deactivated(versions) + [Version(MaxNumber(versions) + 1, true, payload, source)]
  }

  // The active version, as an index.
  function ActiveIndex(versions: seq<Version>): (i: Option<nat>)
    ensures i.Some? ==> i.value < |versions| && versions[i.value].active
    ensures i.None? ==> forall k :: 0 <= k < |versions| ==> !versions[k].active
  {
    if versions == [] then None
    else if versions[|versions| - 1].active then Some(|versions| - 1)
    else ActiveIndex(versions[..|versions| - 1])
  }

  // --- deduplication against history --------------------------------------------------------------------

  // What the store already knows, by edit signature.
  datatype StoredHistory = StoredHistory(pending: set<Signature>, rejected: map<Signature, nat>)

  function HistoryOf(proposals: seq<Proposal>): StoredHistory {
    if proposals == [] then StoredHistory({}, map[])
    else
      var h, p := HistoryOf(proposals[..|proposals| - 1]), proposals[|proposals| - 1];
      var signature := SignatureOf(p.changes);
      if p.changes.field.Unpermitted? then h
      else
        match p.decision
        case Pending => h.(pending := h.pending + {signature})
        case Rejected(_) => h.(rejected := h.rejected[signature := p.count])
        case Accepted(_) => h
  }

  predicate Blocks(h: StoredHistory, signature: Signature, count: nat) {
    signature in h.pending || (signature in h.rejected && count <= h.rejected[signature])
  }

  // --- one generation pass --------------------------------------------------------------------------------

  function ClaimsFor(claims: seq<Signature>, signature: Signature): nat {
    if claims == [] then 0
    else ClaimsFor(claims[..|claims| - 1], signature) + if claims[|claims| - 1] == signature then 1 else 0
  }

  // Each claim corroborates the candidates of its signature; others are dropped.
  function Corroborated(c: Candidate, claims: seq<Signature>): Candidate {
    c.(quotes := c.quotes + ClaimsFor(claims, SignatureOf(ChangesOf(c))))
  }

  function WithClaims(candidates: seq<Candidate>, claims: seq<Signature>): seq<Candidate> {
    seq(|candidates|, i requires 0 <= i < |candidates| => Corroborated(candidates[i], claims))
  }

  method FoldClaims(candidates: seq<Candidate>, claims: seq<Signature>) returns (folded: seq<Candidate>)
    ensures folded == WithClaims(candidates, claims)
  {
    folded := candidates;
    assert WithClaims(candidates, []) == candidates;
    for i := 0 to |claims|
      invariant folded == WithClaims(candidates, claims[..i])
    {
      assert claims[..i + 1][..i] == claims[..i];
      folded := seq(|folded|, k requires 0 <= k < |folded| =>
        if SignatureOf(ChangesOf(folded[k])) == claims[i] then folded[k].(quotes := folded[k].quotes + 1)
        else folded[k]);
    }
    assert claims[..|claims|] == claims;
  }

  // Alphabetical position of a field name.
  function FieldOrder(field: Field): nat {
    match field
    case CompensationFloor => 0
    case DimensionWeights => 1
    case Employers => 2
    case TitleKeywords => 3
    case LocationsField => 4
    case PostingAgeDays => 5
    case SeniorityMax => 6
    case SeniorityMin => 7
    case WorkAuthorizationField => 8
    case Unpermitted(_) => 9
  }

  predicate Stronger(a: Candidate, b: Candidate) {
    ObservationCount(a) > ObservationCount(b)
    || (ObservationCount(a) == ObservationCount(b) && FieldOrder(a.field) < FieldOrder(b.field))
  }

  function Earned(candidates: seq<Candidate>): seq<Candidate> {
    if candidates == [] then []
    else
      Earned(candidates[..|candidates| - 1])
      + if MeetsThreshold(candidates[|candidates| - 1]) then [candidates[|candidates| - 1]] else []
  }

  // The candidates that meet their threshold, strongest evidence first.
  function Gate(candidates: seq<Candidate>): seq<Candidate> {
    SortBy(Stronger, Earned(candidates))
  }

  function CandidateSignature(c: Candidate): Signature {
    SignatureOf(ChangesOf(c))
  }

  ghost predicate DistinctSignatures(cs: seq<Candidate>) {
    forall i, j :: 0 <= i < j < |cs| ==> SignatureOf(ChangesOf(cs[i])) != SignatureOf(ChangesOf(cs[j]))
  }

  ghost predicate StrongestFirst(cs: seq<Candidate>) {
    forall i, j :: 0 <= i < j < |cs| ==> !Stronger(cs[j], cs[i])
  }

  lemma {:induction false} EarnedExactly(cs: seq<Candidate>)
    ensures forall c :: c in Earned(cs) <==> c in cs && MeetsThreshold(c)
    ensures DistinctSignatures(cs) ==> DistinctSignatures(Earned(cs))
  {
    if cs != [] {
      var init, last := cs[..|cs| - 1], cs[|cs| - 1];
      assert cs == init + [last];
      EarnedExactly(init);
      if DistinctSignatures(cs) {
        forall x | x in Earned(init)
          ensures SignatureOf(ChangesOf(x)) != SignatureOf(ChangesOf(last))
        {
          assert x in init;
          var k :| 0 <= k < |init| && init[k] == x;
          assert cs[k] == x;
        }
      }
    }
  }

  lemma StrengthIsAnOrder()
    ensures WeakOrder(Stronger)
  {
  }

  // The gate keeps exactly the candidates that earned their own threshold.
  lemma GateKeepsExactly(cs: seq<Candidate>)
    ensures forall c :: c in Gate(cs) <==> c in cs && MeetsThreshold(c)
    ensures StrongestFirst(Gate(cs))
    ensures DistinctSignatures(cs) ==> DistinctSignatures(Gate(cs))
  {
    EarnedExactly(cs);
    SameElements(Gate(cs), Earned(cs));
    StrengthIsAnOrder();
    SortOrders(Stronger, Earned(cs));
    var gated := Gate(cs);
    assert forall i, j :: 0 <= i < j < |gated| ==> !Stronger(gated[j], gated[i]);
    if DistinctSignatures(cs) {
      var earned := Earned(cs);
      assert forall i, j :: 0 <= i < j < |earned| ==> CandidateSignature(earned[i]) != CandidateSignature(earned[j]);
      SortKeepsApart(Stronger, CandidateSignature, earned);
      assert forall i, j :: 0 <= i < j < |gated| ==> CandidateSignature(gated[i]) != CandidateSignature(gated[j]);
    }
  }

  function NewProposal(c: Candidate): Proposal {
    Proposal(ChangesOf(c), ObservationCount(c), Pending)
  }

  // The proposals a pass adds: the gated candidates the history does not block.
  function Surviving(h: StoredHistory, gated: seq<Candidate>): seq<Proposal> {
    if gated == [] then []
    else
      var c := gated[|gated| - 1];
      Surviving(h, gated[..|gated| - 1])
      + if Blocks(h, SignatureOf(ChangesOf(c)), ObservationCount(c)) then [] else [NewProposal(c)]
  }

  method SelectSurvivors(h: StoredHistory, gated: seq<Candidate>) returns (added: seq<Proposal>)
    ensures added == Surviving(h, gated)
  {
    added := [];
    for i := 0 to |gated|
      invariant added == Surviving(h, gated[..i])
    {
      assert gated[..i + 1][..i] == gated[..i];
      var c := gated[i];
      if !Blocks(h, SignatureOf(ChangesOf(c)), ObservationCount(c)) {
        added := added + [NewProposal(c)];
      }
    }
    assert gated[..|gated|] == gated;
  }

  // The proposals a pass over payload p appends.
  function Added(s: Store, p: Payload, history: History, claims: seq<Signature>): seq<Proposal> {
    var detected := DetectCandidates(history, p);
    if detected.Err? then [] else Surviving(HistoryOf(s.proposals), Gate(WithClaims(detected.value, claims)))
  }

  function Appending(s: Store, added: seq<Proposal>): Store {
    s.(proposals := s.proposals + added)
  }

  function Generated(s: Store, history: History, claims: seq<Signature>): Store {
    var active := ActiveIndex(s.versions);
    if active.None? then s else Appending(s, Added(s, s.versions[active.value].payload, history, claims))
  }

  function AcceptedAt(codes: Codes, s: Store, i: nat): Option<Store> {
    var active := ActiveIndex(s.versions);
    if i >= |s.proposals| || s.proposals[i].decision != Pending || active.None? then None
    else
      var edited := ApplyProposedChange(codes, s.versions[active.value].payload, s.proposals[i].changes);
      if edited.Err? then None
      else
        var versions := Saved(s.versions, edited.value, ProposalAccepted);
        Some(Store(versions, s.proposals[i := s.proposals[i].(decision := Accepted(versions[|versions| - 1].number))]))
  }

  // An empty reason is no reason.
  function Normalised(reason: Option<string>): Option<string> {
    if reason == Some("") then None else reason
  }

  function RejectedAt(s: Store, i: nat, reason: Option<string>): Option<Store> {
    if i >= |s.proposals| || s.proposals[i].decision != Pending then None
    else Some(s.(proposals := s.proposals[i := s.proposals[i].(decision := Rejected(Normalised(reason)))]))
  }

  // --- the store as a session sees it ----------------------------------------------------------------------

  class CriteriaStore {
    var versions: seq<Version>
    var proposals: seq<Proposal>

    function Value(): Store
      reads this
    {
      Store(versions, proposals)
    }

    constructor (s: Store)
      ensures Value() == s
    {
      versions, proposals := s.versions, s.proposals;
    }

    method SaveNewCriteriaVersion(payload: Payload, source: CriteriaSource) returns (number: nat)
      modifies this`versions
      ensures versions == Saved(old(versions), payload, source)
      ensures number == MaxNumber(old(versions)) + 1
    {
      number := MaxNumber(versions) + 1;
      var stored := versions;
      var inactive := seq(|stored|, i requires 0 <= i < |stored| => stored[i].(active := false));
      versions := inactive + [Version(number, true, payload, source)];
    }

    // A refused accept (None) writes nothing.
    method AcceptProposal(codes: Codes, i: nat) returns (number: Option<nat>)
      modifies this
      ensures number.Some? <==> AcceptedAt(codes, old(Value()), i).Some?
      ensures number.Some? ==> Some(Value()) == AcceptedAt(codes, old(Value()), i)
      ensures number.None? ==> Value() == old(Value())
      ensures number.Some? ==>
                && i < |old(proposals)| == |proposals| && old(proposals)[i].decision == Pending
                && proposals[i] == old(proposals)[i].(decision := Accepted(number.value))
                && (forall j :: 0 <= j < |proposals| && j != i ==> proposals[j] == old(proposals)[j])
                && |versions| == |old(versions)| + 1
                && versions[|versions| - 1].number == number.value && versions[|versions| - 1].active
                && versions[|versions| - 1].source == ProposalAccepted
                && forall v :: 0 <= v < |old(versions)| ==>
                     !versions[v].active && versions[v] == old(versions)[v].(active := false)
    {
      if i >= |proposals| || proposals[i].decision != Pending {
        return None;
      }
      var active := ActiveIndex(versions);
      if active.None? {
        return None;
      }
      var edited := ApplyProposedChange(codes, versions[active.value].payload, proposals[i].changes);
      if edited.Err? {
        return None;
      }
      var n := SaveNewCriteriaVersion(edited.value, ProposalAccepted);
      proposals := proposals[i := proposals[i].(decision := Accepted(n))];
      return Some(n);
    }

    method RejectProposal(i: nat, reason: Option<string>) returns (rejected: bool)
      modifies this`proposals
      ensures rejected <==> RejectedAt(old(Value()), i, reason).Some?
      ensures Value() == if rejected then RejectedAt(old(Value()), i, reason).value else old(Value())
      ensures rejected <==> i < |old(proposals)| && old(proposals)[i].decision == Pending
      ensures rejected ==>
                && |proposals| == |old(proposals)|
                && proposals[i] == old(proposals)[i].(decision := Rejected(if reason == Some("") then None else reason))
                && forall j :: 0 <= j < |proposals| && j != i ==> proposals[j] == old(proposals)[j]
    {
      if i >= |proposals| || proposals[i].decision != Pending {
        return false;
      }
      proposals := proposals[i := proposals[i].(decision := Rejected(Normalised(reason)))];
      return true;
    }

    method LoadHistory() returns (h: StoredHistory)
      ensures h == HistoryOf(proposals)
    {
      var pending: set<Signature> := {};
      var rejected: map<Signature, nat> := map[];
      for i := 0 to |proposals|
        invariant StoredHistory(pending, rejected) == HistoryOf(proposals[..i])
      {
        assert proposals[..i + 1][..i] == proposals[..i];
        var p := proposals[i];
        if p.changes.field.Unpermitted? {
          continue;
        }
        var signature := SignatureOf(p.changes);
        if p.decision == Pending {
          pending := pending + {signature};
        } else if p.decision.Rejected? {
          rejected := rejected[signature := p.count];
        }
      }
      assert proposals[..|proposals|] == proposals;
      h := StoredHistory(pending, rejected);
    }

    method GenerateProposals(history: History, claims: seq<Signature>) returns (created: nat)
      modifies this`proposals
      ensures Value() == Generated(old(Value()), history, claims)
      ensures created == |proposals| - |old(proposals)|
    {
      var active := ActiveIndex(versions);
      if active.None? {
        return 0;
      }
      var detected := DetectCandidates(history, versions[active.value].payload);
      if detected.Err? {
        return 0;
      }
      var folded := FoldClaims(detected.value, claims);
      var gated := Gate(folded);
      var h := LoadHistory();
      var added := SelectSurvivors(h, gated);
      proposals := proposals + added;
      return |added|;
    }
  }

  // --- the state machine --------------------------------------------------------------------------------------

  datatype Step =
    | Save(payload: Payload, source: CriteriaSource)
    | Generate(history: History, claims: seq<Signature>)
    | Accept(index: nat)
    | Reject(index: nat, reason: Option<string>)

  // A manual save carries a validated payload; refused decisions change nothing.
  predicate Allowed(codes: Codes, step: Step) {
    step.Save? ==> Valid(codes, step.payload) && step.source != ProposalAccepted
  }

  function After(codes: Codes, s: Store, step: Step): Store {
    match step
    case Save(payload, source) => s.(versions := Saved(s.versions, payload, source))
    case Generate(history, claims) => Generated(s, history, claims)
    case Accept(i) => var r := AcceptedAt(codes, s, i); if r.Some? then r.value else s
    case Reject(i, reason) => var r := RejectedAt(s, i, reason); if r.Some? then r.value else s
  }

  function Exec(codes: Codes, s: Store, steps: seq<Step>): Store {
    if steps == [] then s else After(codes, Exec(codes, s, steps[..|steps| - 1]), steps[|steps| - 1])
  }

  const EMPTY := Store([], [])

  // --- versions ---------------------------------------------------------------------------------------------------

  // Versions are numbered 1..n, only the last is active, every payload is valid.
  ghost predicate GoodVersions(codes: Codes, versions: seq<Version>) {
    forall i :: 0 <= i < |versions| ==>
      && versions[i].number == i + 1
      && (versions[i].active <==> i == |versions| - 1)
      && Valid(codes, versions[i].payload)
  }

  ghost predicate Consecutive(versions: seq<Version>) {
    forall i :: 0 <= i < |versions| ==> versions[i].number == i + 1
  }

  lemma {:induction false} MaxIsLength(versions: seq<Version>)
    requires Consecutive(versions)
    ensures MaxNumber(versions) == |versions|
  {
    if versions != [] {
      MaxIsLength(versions[..|versions| - 1]);
    }
  }

  // Nothing already stored changes but the active mark.
  ghost predicate VersionsKept(before: seq<Version>, after: seq<Version>) {
    && |before| <= |after|
    && forall i :: 0 <= i < |before| ==>
         && after[i].number == before[i].number
         && after[i].payload == before[i].payload
         && after[i].source == before[i].source
  }

  lemma SavedIsGood(codes: Codes, versions: seq<Version>, payload: Payload, source: CriteriaSource)
    requires GoodVersions(codes, versions) && Valid(codes, payload)
    ensures GoodVersions(codes, Saved(versions, payload, source))
    ensures VersionsKept(versions, Saved(versions, payload, source))
  {
    MaxIsLength(versions);
  }

  lemma VersionStep(codes: Codes, s: Store, step: Step)
    requires GoodVersions(codes, s.versions) && Allowed(codes, step)
    ensures var s' := After(codes, s, step);
            GoodVersions(codes, s'.versions) && VersionsKept(s.versions, s'.versions)
  {
    match step
    case Save(payload, source) => SavedIsGood(codes, s.versions, payload, source);
    case Accept(i) =>
      var active := ActiveIndex(s.versions);
      if AcceptedAt(codes, s, i).Some? {
        var edited := ApplyProposedChange(codes, s.versions[active.value].payload, s.proposals[i].changes).value;
        SavedIsGood(codes, s.versions, edited, ProposalAccepted);
      }
    case Generate(history, claims) =>
    case Reject(i, reason) =>
  }

  // --- proposals ----------------------------------------------------------------------------------------------------

  // Of two proposals with one signature the earlier one is decided, and if it
  // was rejected the later one has strictly more evidence.
  ghost predicate GoodProposals(ps: seq<Proposal>) {
    && (forall i :: 0 <= i < |ps| ==> !ps[i].changes.field.Unpermitted?)
    && forall i, j :: 0 <= i < j < |ps| && SignatureOf(ps[i].changes) == SignatureOf(ps[j].changes) ==>
         && ps[i].decision != Pending
         && (ps[i].decision.Rejected? ==> ps[i].count < ps[j].count)
  }

  lemma {:induction false} HistoryKnows(ps: seq<Proposal>)
    requires GoodProposals(ps)
    ensures forall i :: 0 <= i < |ps| && ps[i].decision == Pending ==>
              SignatureOf(ps[i].changes) in HistoryOf(ps).pending
    ensures forall i :: 0 <= i < |ps| && ps[i].decision.Rejected? ==>
              && SignatureOf(ps[i].changes) in HistoryOf(ps).rejected
              && ps[i].count <= HistoryOf(ps).rejected[SignatureOf(ps[i].changes)]
  {
    if ps != [] {
      HistoryKnows(ps[..|ps| - 1]);
    }
  }

  ghost predicate IsPendingAt(ps: seq<Proposal>, i: int, signature: Signature) {
    0 <= i < |ps| && ps[i].decision == Pending && SignatureOf(ps[i].changes) == signature
  }

  ghost predicate IsRejectedAt(ps: seq<Proposal>, i: int, signature: Signature) {
    0 <= i < |ps| && ps[i].decision.Rejected? && SignatureOf(ps[i].changes) == signature
  }

  // The index lists the pending signatures, and for each rejected one the count of
  // its newest rejection.
  lemma {:induction false} HistoryIsExact(ps: seq<Proposal>, signature: Signature)
    requires !signature.0.Unpermitted?
    ensures signature in HistoryOf(ps).pending <==> exists i :: IsPendingAt(ps, i, signature)
    ensures signature in HistoryOf(ps).rejected <==> exists i :: IsRejectedAt(ps, i, signature)
    ensures signature in HistoryOf(ps).rejected ==>
              exists i :: IsRejectedAt(ps, i, signature) && ps[i].count == HistoryOf(ps).rejected[signature]
                          && forall j :: IsRejectedAt(ps, j, signature) ==> j <= i
  {
    if ps != [] {
      var n := |ps| - 1;
      var init := ps[..n];
      HistoryIsExact(init, signature);
      assert forall i :: i != n ==> (IsPendingAt(ps, i, signature) <==> IsPendingAt(init, i, signature));
      assert forall i :: i != n ==> (IsRejectedAt(ps, i, signature) <==> IsRejectedAt(init, i, signature));
      assert !IsRejectedAt(init, n, signature) && !IsPendingAt(init, n, signature);
      assert IsRejectedAt(ps, n, signature) <==> ps[n].decision.Rejected? && SignatureOf(ps[n].changes) == signature;
      assert IsPendingAt(ps, n, signature) <==> ps[n].decision == Pending && SignatureOf(ps[n].changes) == signature;
      if signature in HistoryOf(init).rejected && !IsRejectedAt(ps, n, signature) {
        var i :| IsRejectedAt(init, i, signature) && init[i].count == HistoryOf(init).rejected[signature]
                 && forall j :: IsRejectedAt(init, j, signature) ==> j <= i;
        assert IsRejectedAt(ps, i, signature) && ps[i].count == HistoryOf(ps).rejected[signature];
      }
    }
  }

  lemma {:induction false} UnpermittedIsUnknown(ps: seq<Proposal>, signature: Signature)
    requires signature.0.Unpermitted?
    ensures signature !in HistoryOf(ps).pending && signature !in HistoryOf(ps).rejected
  {
    if ps != [] {
      UnpermittedIsUnknown(ps[..|ps| - 1], signature);
    }
  }

  // A stored proposal that keeps a candidate from being proposed.
  predicate StandsAgainst(p: Proposal, signature: Signature, count: nat) {
    SignatureOf(p.changes) == signature && (p.decision == Pending || (p.decision.Rejected? && count <= p.count))
  }

  lemma {:induction false} BlockedExactly(ps: seq<Proposal>, signature: Signature, count: nat)
    requires GoodProposals(ps)
    ensures Blocks(HistoryOf(ps), signature, count) <==> exists p :: p in ps && StandsAgainst(p, signature, count)
  {
    if signature.0.Unpermitted? {
      UnpermittedIsUnknown(ps, signature);
    } else {
      HistoryIsExact(ps, signature);
    }
    HistoryKnows(ps);
    if signature in HistoryOf(ps).pending {
      var i :| IsPendingAt(ps, i, signature);
      assert ps[i] in ps && StandsAgainst(ps[i], signature, count);
    } else if signature in HistoryOf(ps).rejected && count <= HistoryOf(ps).rejected[signature] {
      var i :| IsRejectedAt(ps, i, signature) && ps[i].count == HistoryOf(ps).rejected[signature];
      assert ps[i] in ps && StandsAgainst(ps[i], signature, count);
    }
  }

  // A gated candidate becomes a proposal exactly when none of its signature is
  // pending and each rejected one had fewer observations.
  lemma {:induction false} ProposedExactly(ps: seq<Proposal>, gated: seq<Candidate>, c: Candidate)
    requires GoodProposals(ps) && c in gated
    ensures NewProposal(c) in Surviving(HistoryOf(ps), gated) <==>
            forall p :: p in ps ==> !StandsAgainst(p, CandidateSignature(c), ObservationCount(c))
  {
    var h, signature := HistoryOf(ps), SignatureOf(ChangesOf(c));
    BlockedExactly(ps, signature, ObservationCount(c));
    ProposesExactlyTheUnblocked(h, gated, NewProposal(c));
    var k :| 0 <= k < |gated| && gated[k] == c;
    assert NewProposal(c) in Surviving(h, gated) <==> !Blocks(h, signature, ObservationCount(c));
  }

  // What a candidate below its threshold would propose no gated one proposes either.
  lemma {:induction false} NotProposed(h: StoredHistory, candidates: seq<Candidate>, c: Candidate)
    requires !MeetsThreshold(c)
    ensures NewProposal(c) !in Surviving(h, Gate(candidates))
  {
    var gated := Gate(candidates);
    GateKeepsExactly(candidates);
    ProposesExactlyTheUnblocked(h, gated, NewProposal(c));
    forall d | d in gated
      ensures NewProposal(c) != NewProposal(d)
    {
      if NewProposal(c) == NewProposal(d) {
        SameThreshold(c, d);
      }
    }
  }

  lemma SameThreshold(c: Candidate, d: Candidate)
    requires NewProposal(c) == NewProposal(d)
    ensures MeetsThreshold(c) <==> MeetsThreshold(d)
  {
  }

  lemma {:induction false} AddedExactly(ps: seq<Proposal>, candidates: seq<Candidate>, c: Candidate)
    requires GoodProposals(ps) && c in candidates
    ensures NewProposal(c) in Surviving(HistoryOf(ps), Gate(candidates)) <==>
            && MeetsThreshold(c)
            && forall p :: p in ps ==> !StandsAgainst(p, CandidateSignature(c), ObservationCount(c))
  {
    GateKeepsExactly(candidates);
    if MeetsThreshold(c) {
      ProposedExactly(ps, Gate(candidates), c);
    } else {
      NotProposed(HistoryOf(ps), candidates, c);
    }
  }

  // One pass over the active payload leaves versions and older proposals alone, and
  // adds a detected candidate exactly when its listings and quotes meet its
  // threshold and no stored proposal of its signature stands against it.
  lemma {:induction false} PassProposesExactly(s: Store, history: History, claims: seq<Signature>, active: Payload,
                                               detected: seq<Candidate>, c: Candidate)
    requires GoodProposals(s.proposals) && ActiveIndex(s.versions).Some?
    requires s.versions[ActiveIndex(s.versions).value].payload == active
    requires DetectCandidates(history, active) == Ok(detected) && c in WithClaims(detected, claims)
    ensures var after := Generated(s, history, claims);
            && after.versions == s.versions && s.proposals <= after.proposals
            && (NewProposal(c) in after.proposals[|s.proposals|..] <==>
                  && |c.observations| + c.quotes >= MinObservations(c.field)
                  && forall p :: p in s.proposals ==>
                       !StandsAgainst(p, CandidateSignature(c), |c.observations| + c.quotes))
  {
    AddedExactly(s.proposals, WithClaims(detected, claims), c);
    var added := Surviving(HistoryOf(s.proposals), Gate(WithClaims(detected, claims)));
    assert Generated(s, history, claims) == Appending(s, added);
    assert (s.proposals + added)[|s.proposals|..] == added;
  }

  // The name of a field in stored proposals.
  function FieldName(field: Field): string {
    match field
    case CompensationFloor => "compensation_floor"
    case DimensionWeights => "dimension_weights"
    case Employers => "exclusions.employers"
    case TitleKeywords => "exclusions.title_keywords"
    case LocationsField => "locations"
    case PostingAgeDays => "posting_age_days"
    case SeniorityMax => "seniority_max"
    case SeniorityMin => "seniority_min"
    case WorkAuthorizationField => "work_authorization"
    case Unpermitted(name) => name
  }

  const ALPHABETICAL := [CompensationFloor, DimensionWeights, Employers, TitleKeywords, LocationsField,
                         PostingAgeDays, SeniorityMax, SeniorityMin, WorkAuthorizationField]

  lemma NextFieldName(i: nat)
    requires i < 8
    ensures LexLess(FieldName(ALPHABETICAL[i]), FieldName(ALPHABETICAL[i + 1]))
  {
    var a, b := FieldName(ALPHABETICAL[i]), FieldName(ALPHABETICAL[i + 1]);
    var n := if i == 2 || i == 6 then 11 else 0;
    assert a[..n] == b[..n];
    assert DivergesAt(a, b, n);
    LexLessExactly(a, b);
  }

  lemma {:induction false} FieldNamesAscend(i: nat, j: nat)
    requires i < j < 9
    ensures LexLess(FieldName(ALPHABETICAL[i]), FieldName(ALPHABETICAL[j]))
  {
    NextFieldName(j - 1);
    if i < j - 1 {
      var a, b, c := FieldName(ALPHABETICAL[i]), FieldName(ALPHABETICAL[j - 1]), FieldName(ALPHABETICAL[j]);
      FieldNamesAscend(i, j - 1);
      LexAsymmetric(b, c);
      if !LexLess(a, c) {
        LexNegativelyTransitive(a, c, b);
      }
    }
  }

  lemma FieldOrderIsAlphabetical(a: Field, b: Field)
    requires !a.Unpermitted? && !b.Unpermitted?
    ensures FieldOrder(a) < FieldOrder(b) <==> LexLess(FieldName(a), FieldName(b))
  {
    assert ALPHABETICAL[FieldOrder(a)] == a && ALPHABETICAL[FieldOrder(b)] == b;
    if FieldOrder(a) < FieldOrder(b) {
      FieldNamesAscend(FieldOrder(a), FieldOrder(b));
    } else if FieldOrder(b) < FieldOrder(a) {
      FieldNamesAscend(FieldOrder(b), FieldOrder(a));
      LexAsymmetric(FieldName(b), FieldName(a));
    } else if LexLess(FieldName(a), FieldName(b)) {
      LexAsymmetric(FieldName(a), FieldName(b));
    }
  }

  // Gated candidates stand in the order of their observation counts, those with
  // as many in the order of their field names.
  lemma StrongestStandFirst(cs: seq<Candidate>, i: nat, j: nat)
    requires i < j < |Gate(cs)|
    ensures var a, b := Gate(cs)[i], Gate(cs)[j];
            && ObservationCount(a) >= ObservationCount(b)
            && (ObservationCount(a) == ObservationCount(b) && !a.field.Unpermitted? && !b.field.Unpermitted? ==>
                  !LexLess(FieldName(b.field), FieldName(a.field)))
  {
    GateKeepsExactly(cs);
    var a, b := Gate(cs)[i], Gate(cs)[j];
    assert !Stronger(b, a);
    if !a.field.Unpermitted? && !b.field.Unpermitted? {
      FieldOrderIsAlphabetical(b.field, a.field);
    }
  }

  ghost predicate Unblocked(h: StoredHistory, p: Proposal) {
    && !p.changes.field.Unpermitted? && p.decision == Pending
    && !Blocks(h, SignatureOf(p.changes), p.count)
  }

  ghost predicate FromOneOf(gated: seq<Candidate>, p: Proposal) {
    exists i :: 0 <= i < |gated| && ChangesOf(gated[i]) == p.changes
  }

  lemma {:induction false} SurvivorsAreGated(h: StoredHistory, gated: seq<Candidate>)
    ensures forall k :: 0 <= k < |Surviving(h, gated)| ==> FromOneOf(gated, Surviving(h, gated)[k])
  {
    if gated != [] {
      var init, last := gated[..|gated| - 1], gated[|gated| - 1];
      SurvivorsAreGated(h, init);
      var before := Surviving(h, init);
      forall k | 0 <= k < |before|
        ensures FromOneOf(gated, before[k])
      {
        var i :| 0 <= i < |init| && ChangesOf(init[i]) == before[k].changes;
        assert ChangesOf(gated[i]) == before[k].changes;
      }
      assert ChangesOf(gated[|gated| - 1]) == NewProposal(last).changes;
    }
  }

  // A pass proposes exactly the gated candidates that history does not block.
  lemma {:induction false} ProposesExactlyTheUnblocked(h: StoredHistory, gated: seq<Candidate>, p: Proposal)
    ensures p in Surviving(h, gated) <==>
            exists i :: 0 <= i < |gated| && p == NewProposal(gated[i])
                        && !Blocks(h, SignatureOf(ChangesOf(gated[i])), ObservationCount(gated[i]))
  {
    if gated != [] {
      var init, last := gated[..|gated| - 1], gated[|gated| - 1];
      ProposesExactlyTheUnblocked(h, init, p);
      if i :| 0 <= i < |init| && p == NewProposal(init[i])
              && !Blocks(h, SignatureOf(ChangesOf(init[i])), ObservationCount(init[i])) {
        assert gated[i] == init[i];
      }
      if i :| 0 <= i < |gated| && p == NewProposal(gated[i])
              && !Blocks(h, SignatureOf(ChangesOf(gated[i])), ObservationCount(gated[i])) {
        assert i == |init| || init[i] == gated[i];
      }
    }
  }

  lemma {:induction false} SurvivorsAreUnblocked(h: StoredHistory, gated: seq<Candidate>)
    requires forall i :: 0 <= i < |gated| ==> !gated[i].field.Unpermitted?
    ensures forall k :: 0 <= k < |Surviving(h, gated)| ==> Unblocked(h, Surviving(h, gated)[k])
  {
    if gated != [] {
      SurvivorsAreUnblocked(h, gated[..|gated| - 1]);
    }
  }

  lemma {:induction false} SurvivorsAreDistinct(h: StoredHistory, gated: seq<Candidate>)
    requires DistinctSignatures(gated)
    ensures forall k, m :: 0 <= k < m < |Surviving(h, gated)| ==>
              SignatureOf(Surviving(h, gated)[k].changes) != SignatureOf(Surviving(h, gated)[m].changes)
  {
    if gated != [] {
      var init, last := gated[..|gated| - 1], gated[|gated| - 1];
      SurvivorsAreDistinct(h, init);
      SurvivorsAreGated(h, init);
      var before := Surviving(h, init);
      forall k | 0 <= k < |before|
        ensures SignatureOf(before[k].changes) != SignatureOf(ChangesOf(last))
      {
        assert FromOneOf(init, before[k]);
        var i :| 0 <= i < |init| && ChangesOf(init[i]) == before[k].changes;
        assert gated[i] == init[i] && gated[|gated| - 1] == last;
      }
    }
  }

  // What is appended neither repeats a pending signature nor re-proposes a
  // rejected one on no stronger evidence.
  lemma {:induction false} AppendedIsGood(ps: seq<Proposal>, added: seq<Proposal>)
    requires GoodProposals(ps)
    requires forall k :: 0 <= k < |added| ==> Unblocked(HistoryOf(ps), added[k])
    requires forall k, m :: 0 <= k < m < |added| ==> SignatureOf(added[k].changes) != SignatureOf(added[m].changes)
    ensures GoodProposals(ps + added)
  {
    HistoryKnows(ps);
    var all := ps + added;
    forall i, j | 0 <= i < j < |all| && SignatureOf(all[i].changes) == SignatureOf(all[j].changes)
      ensures all[i].decision != Pending
      ensures all[i].decision.Rejected? ==> all[i].count < all[j].count
    {
      if j >= |ps| {
        assert Unblocked(HistoryOf(ps), added[j - |ps|]);
        assert i < |ps|;
      }
    }
  }

  // Pairwise different, permitted fields: what detection hands on.
  ghost predicate CleanFields(cs: seq<Candidate>) {
    && (forall i :: 0 <= i < |cs| ==> !cs[i].field.Unpermitted?)
    && (forall i, j :: 0 <= i < j < |cs| ==> cs[i].field != cs[j].field)
  }

  lemma CorroborationKeepsFields(candidates: seq<Candidate>, claims: seq<Signature>)
    requires CleanFields(candidates)
    ensures CleanFields(WithClaims(candidates, claims)) && DistinctSignatures(WithClaims(candidates, claims))
  {
    var folded := WithClaims(candidates, claims);
    assert forall i :: 0 <= i < |folded| ==> folded[i].field == candidates[i].field;
  }

  lemma {:induction false} PassIsGood(ps: seq<Proposal>, folded: seq<Candidate>)
    requires GoodProposals(ps) && CleanFields(folded) && DistinctSignatures(folded)
    ensures GoodProposals(ps + Surviving(HistoryOf(ps), Gate(folded)))
  {
    var gated := Gate(folded);
    GateKeepsExactly(folded);
    forall k | 0 <= k < |gated|
      ensures !gated[k].field.Unpermitted?
    {
      assert gated[k] in folded;
    }
    SurvivorsAreUnblocked(HistoryOf(ps), gated);
    SurvivorsAreDistinct(HistoryOf(ps), gated);
    AppendedIsGood(ps, Surviving(HistoryOf(ps), gated));
  }

  lemma DetectedIsClean(codes: Codes, history: History, p: Payload)
    requires Valid(codes, p) && DetectCandidates(history, p).Ok?
    ensures CleanFields(DetectCandidates(history, p).value)
  {
    var detected := DetectCandidates(history, p).value;
    FieldsAreDistinct(history, p);
    forall i | 0 <= i < |detected|
      ensures !detected[i].field.Unpermitted?
    {
      DetectedCandidatesApply(codes, history, p, detected[i]);
    }
  }

  lemma GeneratedIsGood(codes: Codes, s: Store, history: History, claims: seq<Signature>)
    requires GoodVersions(codes, s.versions) && GoodProposals(s.proposals)
    ensures GoodProposals(Generated(s, history, claims).proposals)
  {
    var active := ActiveIndex(s.versions);
    if active.Some? {
      var detected := DetectCandidates(history, s.versions[active.value].payload);
      if detected.Ok? {
        DetectedIsClean(codes, history, s.versions[active.value].payload);
        CorroborationKeepsFields(detected.value, claims);
        PassIsGood(s.proposals, WithClaims(detected.value, claims));
      }
    }
  }

  // --- a pass that commits late ---------------------------------------------------------------------------

  ghost predicate OnePendingEach(ps: seq<Proposal>) {
    forall i, j :: 0 <= i < j < |ps| && ps[i].decision == Pending && ps[j].decision == Pending ==>
      SignatureOf(ps[i].changes) != SignatureOf(ps[j].changes)
  }

  ghost predicate PendingIn(ps: seq<Proposal>, signature: Signature) {
    exists i :: 0 <= i < |ps| && ps[i].decision == Pending && SignatureOf(ps[i].changes) == signature
  }

  // A pass selects its proposals from one reading of the store and commits them
  // after its model calls. The committed store has two pending proposals of one
  // signature exactly when one of the selected signatures is pending by then.
  lemma {:induction false} LateCommitCollidesExactly(read: Store, now: Store, gated: seq<Candidate>)
    requires DistinctSignatures(gated) && OnePendingEach(now.proposals)
    ensures var added := Surviving(HistoryOf(read.proposals), gated);
            OnePendingEach(now.proposals + added) <==>
            forall k :: 0 <= k < |added| ==> !PendingIn(now.proposals, SignatureOf(added[k].changes))
  {
    var h := HistoryOf(read.proposals);
    var ps, added := now.proposals, Surviving(h, gated);
    SurvivorsAreDistinct(h, gated);
    AllSurvivorsPending(h, gated);
    var all := ps + added;
    assert forall k :: 0 <= k < |added| ==> all[|ps| + k] == added[k];
    assert forall i :: 0 <= i < |ps| ==> all[i] == ps[i];
    if k :| 0 <= k < |added| && PendingIn(ps, SignatureOf(added[k].changes)) {
      var i :| 0 <= i < |ps| && ps[i].decision == Pending
               && SignatureOf(ps[i].changes) == SignatureOf(added[k].changes);
      assert all[i] == ps[i] && all[|ps| + k] == added[k];
    }
  }

  // Two passes over one reading: the second collides with the first as soon as
  // there is anything to propose.
  lemma {:induction false} TwoPassesCollideExactly(read: Store, gated: seq<Candidate>)
    requires DistinctSignatures(gated) && OnePendingEach(read.proposals)
    requires OnePendingEach(read.proposals + Surviving(HistoryOf(read.proposals), gated))
    ensures var added := Surviving(HistoryOf(read.proposals), gated);
            OnePendingEach(read.proposals + added + added) <==> added == []
  {
    var h := HistoryOf(read.proposals);
    var added := Surviving(h, gated);
    var once := read.(proposals := read.proposals + added);
    LateCommitCollidesExactly(read, once, gated);
    AllSurvivorsPending(h, gated);
    if added != [] {
      assert once.proposals[|read.proposals|] == added[0];
      assert PendingIn(once.proposals, SignatureOf(added[0].changes));
    }
  }

  // Proposals are never removed or edited, and a decision is never revisited.
  ghost predicate ProposalsKept(before: seq<Proposal>, after: seq<Proposal>) {
    && |before| <= |after|
    && forall i :: 0 <= i < |before| ==>
         && after[i].changes == before[i].changes
         && after[i].count == before[i].count
         && (before[i].decision != Pending ==> after[i].decision == before[i].decision)
  }

  lemma ProposalStep(codes: Codes, s: Store, step: Step)
    requires GoodVersions(codes, s.versions) && GoodProposals(s.proposals)
    ensures var s' := After(codes, s, step);
            GoodProposals(s'.proposals) && ProposalsKept(s.proposals, s'.proposals)
  {
    if step.Generate? {
      GeneratedIsGood(codes, s, step.history, step.claims);
    }
  }

  // --- accepted proposals and the versions they made -----------------------------------------------------------------

  // Every accepted proposal names a version that was made by an accept ...
  ghost predicate AcceptedHaveVersions(versions: seq<Version>, ps: seq<Proposal>) {
    forall i :: 0 <= i < |ps| && ps[i].decision.Accepted? ==>
      && 1 <= ps[i].decision.version <= |versions|
      && versions[ps[i].decision.version - 1].source == ProposalAccepted
  }

  // ... no two name the same one ...
  ghost predicate VersionsAreDistinct(ps: seq<Proposal>) {
    forall i, j :: 0 <= i < j < |ps| && ps[i].decision.Accepted? && ps[j].decision.Accepted? ==>
      ps[i].decision.version != ps[j].decision.version
  }

  ghost predicate IsMakerOf(ps: seq<Proposal>, i: nat, v: nat) {
    i < |ps| && ps[i].decision == Accepted(v + 1)
  }

  // ... and every such version is named.
  ghost predicate VersionsAreNamed(versions: seq<Version>, ps: seq<Proposal>) {
    forall v :: 0 <= v < |versions| && versions[v].source == ProposalAccepted ==> exists i: nat :: IsMakerOf(ps, i, v)
  }

  ghost predicate Bijection(s: Store) {
    && AcceptedHaveVersions(s.versions, s.proposals)
    && VersionsAreDistinct(s.proposals)
    && VersionsAreNamed(s.versions, s.proposals)
  }

  // One pending proposal becomes the maker of one new version.
  ghost predicate OneAccepted(s: Store, s': Store, i: nat) {
    && i < |s.proposals| == |s'.proposals|
    && s.proposals[i].decision == Pending && s'.proposals[i].decision == Accepted(|s.versions| + 1)
    && (forall k :: 0 <= k < |s.proposals| && k != i ==> s'.proposals[k].decision == s.proposals[k].decision)
    && |s'.versions| == |s.versions| + 1 && s'.versions[|s.versions|].source == ProposalAccepted
    && (forall v :: 0 <= v < |s.versions| ==> s'.versions[v].source == s.versions[v].source)
  }

  lemma NewVersionHasMaker(s: Store, s': Store, i: nat)
    requires VersionsAreNamed(s.versions, s.proposals) && OneAccepted(s, s', i)
    ensures VersionsAreNamed(s'.versions, s'.proposals)
  {
    forall v | 0 <= v < |s'.versions| && s'.versions[v].source == ProposalAccepted
      ensures exists k: nat :: IsMakerOf(s'.proposals, k, v)
    {
      if v < |s.versions| {
        var k: nat :| IsMakerOf(s.proposals, k, v);
        assert IsMakerOf(s'.proposals, k, v);
      } else {
        assert IsMakerOf(s'.proposals, i, v);
      }
    }
  }

  lemma NewVersionIsDistinct(s: Store, s': Store, i: nat)
    requires AcceptedHaveVersions(s.versions, s.proposals) && VersionsAreDistinct(s.proposals) && OneAccepted(s, s', i)
    ensures AcceptedHaveVersions(s'.versions, s'.proposals) && VersionsAreDistinct(s'.proposals)
  {
    forall k | 0 <= k < |s'.proposals| && s'.proposals[k].decision.Accepted? && k != i
      ensures 1 <= s'.proposals[k].decision.version <= |s.versions|
      ensures s'.versions[s'.proposals[k].decision.version - 1].source == ProposalAccepted
    {
      assert s'.proposals[k].decision == s.proposals[k].decision;
    }
  }

  lemma AcceptIsOneAccepted(codes: Codes, s: Store, i: nat)
    requires GoodVersions(codes, s.versions) && AcceptedAt(codes, s, i).Some?
    ensures OneAccepted(s, AcceptedAt(codes, s, i).value, i)
  {
    MaxIsLength(s.versions);
  }

  lemma AcceptKeepsBijection(codes: Codes, s: Store, i: nat)
    requires GoodVersions(codes, s.versions) && Bijection(s) && AcceptedAt(codes, s, i).Some?
    ensures Bijection(AcceptedAt(codes, s, i).value)
  {
    AcceptIsOneAccepted(codes, s, i);
    var s' := AcceptedAt(codes, s, i).value;
    NewVersionHasMaker(s, s', i);
    NewVersionIsDistinct(s, s', i);
  }

  // Nothing is accepted: undecided proposals are added or rejected, and a new
  // version is not an accepted one.
  ghost predicate NoneAccepted(s: Store, s': Store) {
    && |s.versions| <= |s'.versions| && |s.proposals| <= |s'.proposals|
    && (forall v :: 0 <= v < |s.versions| ==> s'.versions[v].source == s.versions[v].source)
    && (forall v :: |s.versions| <= v < |s'.versions| ==> s'.versions[v].source != ProposalAccepted)
    && (forall i :: 0 <= i < |s'.proposals| && s'.proposals[i].decision.Accepted? ==>
          i < |s.proposals| && s.proposals[i].decision == s'.proposals[i].decision)
    && (forall i :: 0 <= i < |s.proposals| && s.proposals[i].decision.Accepted? ==>
          s.proposals[i].decision == s'.proposals[i].decision)
  }

  lemma NothingAccepted(s: Store, s': Store)
    requires Bijection(s) && NoneAccepted(s, s')
    ensures Bijection(s')
  {
    OldMakersRemain(s, s');
    OldVersionsRemain(s, s');
  }

  lemma OldVersionsRemain(s: Store, s': Store)
    requires AcceptedHaveVersions(s.versions, s.proposals) && VersionsAreDistinct(s.proposals) && NoneAccepted(s, s')
    ensures AcceptedHaveVersions(s'.versions, s'.proposals) && VersionsAreDistinct(s'.proposals)
  {
    forall i | 0 <= i < |s'.proposals| && s'.proposals[i].decision.Accepted?
      ensures 1 <= s'.proposals[i].decision.version <= |s'.versions|
      ensures s'.versions[s'.proposals[i].decision.version - 1].source == ProposalAccepted
    {
      assert s.proposals[i].decision == s'.proposals[i].decision;
    }
  }

  lemma OldMakersRemain(s: Store, s': Store)
    requires VersionsAreNamed(s.versions, s.proposals) && NoneAccepted(s, s')
    ensures VersionsAreNamed(s'.versions, s'.proposals)
  {
    forall v | 0 <= v < |s'.versions| && s'.versions[v].source == ProposalAccepted
      ensures exists k: nat :: IsMakerOf(s'.proposals, k, v)
    {
      assert s.versions[v].source == ProposalAccepted;
      var k: nat :| IsMakerOf(s.proposals, k, v);
      assert IsMakerOf(s'.proposals, k, v);
    }
  }

  lemma OthersKeepBijection(codes: Codes, s: Store, step: Step)
    requires GoodVersions(codes, s.versions) && Bijection(s) && Allowed(codes, step) && !step.Accept?
    ensures Bijection(After(codes, s, step))
  {
    VersionStep(codes, s, step);
    match step
    case Save(payload, source) =>
      NothingAccepted(s, After(codes, s, step));
    case Generate(history, claims) =>
      NewOnesArePending(codes, s, history, claims);
      NothingAccepted(s, Generated(s, history, claims));
    case Reject(i, reason) =>
      if RejectedAt(s, i, reason).Some? {
        NothingAccepted(s, RejectedAt(s, i, reason).value);
      }
  }

  lemma {:induction false} AllSurvivorsPending(h: StoredHistory, gated: seq<Candidate>)
    ensures forall k :: 0 <= k < |Surviving(h, gated)| ==> Surviving(h, gated)[k].decision == Pending
  {
    if gated != [] {
      AllSurvivorsPending(h, gated[..|gated| - 1]);
    }
  }

  lemma NewOnesArePending(codes: Codes, s: Store, history: History, claims: seq<Signature>)
    ensures var after := Generated(s, history, claims).proposals;
            s.proposals <= after && forall k :: |s.proposals| <= k < |after| ==> after[k].decision == Pending
  {
    var active := ActiveIndex(s.versions);
    if active.Some? {
      var detected := DetectCandidates(history, s.versions[active.value].payload);
      if detected.Ok? {
        AllSurvivorsPending(HistoryOf(s.proposals), Gate(WithClaims(detected.value, claims)));
      }
    }
  }

  // --- every reachable store ----------------------------------------------------------------------

  ghost predicate Good(codes: Codes, s: Store) {
    GoodVersions(codes, s.versions) && GoodProposals(s.proposals) && Bijection(s)
  }

  lemma GoodStep(codes: Codes, s: Store, step: Step)
    requires Good(codes, s) && Allowed(codes, step)
    ensures var s' := After(codes, s, step);
            Good(codes, s') && VersionsKept(s.versions, s'.versions) && ProposalsKept(s.proposals, s'.proposals)
  {
    VersionStep(codes, s, step);
    ProposalStep(codes, s, step);
    if step.Accept? {
      if AcceptedAt(codes, s, step.index).Some? {
        AcceptKeepsBijection(codes, s, step.index);
      }
    } else {
      OthersKeepBijection(codes, s, step);
    }
  }

  // Whatever sequence of saves, generation passes, accepts and rejects happens:
  // versions stay 1..n with the last active and every payload valid; old
  // payloads never change; decisions are final; at most one proposal per
  // signature is pending and re-proposals need strictly more evidence; accepted
  // proposals and accepted versions correspond one to one.
  lemma {:induction false} EveryHistoryIsGood(codes: Codes, s: Store, steps: seq<Step>)
    requires Good(codes, s) && forall k :: 0 <= k < |steps| ==> Allowed(codes, steps[k])
    ensures var s' := Exec(codes, s, steps);
            Good(codes, s') && VersionsKept(s.versions, s'.versions) && ProposalsKept(s.proposals, s'.proposals)
  {
    if steps != [] {
      var init, last := steps[..|steps| - 1], steps[|steps| - 1];
      assert forall k :: 0 <= k < |init| ==> init[k] == steps[k];
      EveryHistoryIsGood(codes, s, init);
      GoodStep(codes, Exec(codes, s, init), last);
    }
  }

  // Read off for a store that started empty.
  lemma {:induction false} PendingAndRejectedProposals(codes: Codes, steps: seq<Step>, i: nat, j: nat)
    requires forall k :: 0 <= k < |steps| ==> Allowed(codes, steps[k])
    requires var ps := Exec(codes, EMPTY, steps).proposals;
             i < j < |ps| && SignatureOf(ps[i].changes) == SignatureOf(ps[j].changes)
    ensures var ps := Exec(codes, EMPTY, steps).proposals;
            && !(ps[i].decision == Pending && ps[j].decision == Pending)
            && (ps[i].decision.Rejected? && ps[j].decision.Rejected? ==> ps[i].count < ps[j].count)
  {
    EveryHistoryIsGood(codes, EMPTY, steps);
  }
}
