// Probing the candidate job boards of an employer, and what the probes decide.
module Resolve {
  import opened Common
  import opened Sorting

  datatype Source = StaticHtml | RenderedHtml | NameGuess

  // A weak signature names a platform without a slug.
  datatype Candidate = Candidate(platform: string, slug: Option<string>, source: Source)

  datatype Probe = Probe(platform: string, slug: string, verified: bool)

  // The board APIs: which (platform, slug) pairs are real boards.
  type Boards = (string, string) -> bool

  const MAX_PROBES := 12

  function Rank(source: Source): nat {
    match source
    case StaticHtml => 0
    case RenderedHtml => 1
    case NameGuess => 2
  }

  // --- evidence order -------------------------------------------------------------------------------

  function SlugText(c: Candidate): string {
    if c.slug.Some? then c.slug.value else ""
  }

  // Stronger sources first, then slugs alphabetically.
  predicate Before(a: Candidate, b: Candidate) {
    Rank(a.source) < Rank(b.source) || (Rank(a.source) == Rank(b.source) && LexLess(SlugText(a), SlugText(b)))
  }

  lemma BeforeIsAnOrder()
    ensures WeakOrder(Before)
  {
    forall a, b | Before(a, b)
      ensures !Before(b, a)
    {
      if LexLess(SlugText(a), SlugText(b)) {
        LexAsymmetric(SlugText(a), SlugText(b));
      }
    }
    forall a, b, c | !Before(a, b) && !Before(b, c)
      ensures !Before(a, c)
    {
      if !LexLess(SlugText(a), SlugText(b)) && !LexLess(SlugText(b), SlugText(c)) {
        LexNegativelyTransitive(SlugText(a), SlugText(b), SlugText(c));
      }
    }
  }

  predicate Slugged(cs: seq<Candidate>) {
    forall i :: 0 <= i < |cs| ==> cs[i].slug.Some?
  }

  function WithSlug(cs: seq<Candidate>): (r: seq<Candidate>)
    ensures forall c :: c in r <==> c in cs && c.slug.Some?
  {
    if cs == [] then []
    else
      var last := cs[|cs| - 1];
      assert cs == cs[..|cs| - 1] + [last];
      WithSlug(cs[..|cs| - 1]) + if last.slug.Some? then [last] else []
  }

  // The candidates that have a slug, stably sorted into evidence order.
  function EvidenceOrder(cs: seq<Candidate>): (r: seq<Candidate>)
    ensures Slugged(r)
  {
    var r := SortBy(Before, WithSlug(cs));
    SameElements(r, WithSlug(cs));
    assert forall i :: 0 <= i < |r| ==> r[i] in r;
    r
  }

  ghost predicate InEvidenceOrder(cs: seq<Candidate>) {
    forall i, j :: 0 <= i < j < |cs| ==> !Before(cs[j], cs[i])
  }

  lemma EvidenceOrderSorts(cs: seq<Candidate>)
    ensures InEvidenceOrder(EvidenceOrder(cs))
    ensures forall c :: c in EvidenceOrder(cs) <==> c in cs && c.slug.Some?
  {
    BeforeIsAnOrder();
    SortOrders(Before, WithSlug(cs));
    SameElements(EvidenceOrder(cs), WithSlug(cs));
    var sorted := EvidenceOrder(cs);
    assert forall i, j :: 0 <= i < j < |sorted| ==> !Before(sorted[j], sorted[i]);
  }

  // --- one pass of probes ------------------------------------------------------------------------------

  ghost predicate IsBoard(boards: Boards, c: Candidate) {
    c.slug.Some? && boards(c.platform, c.slug.value)
  }

  // The k-th candidate is the first real board of its platform.
  ghost predicate FirstBoard(boards: Boards, cs: seq<Candidate>, k: int) {
    && 0 <= k < |cs| && IsBoard(boards, cs[k])
    && forall j :: 0 <= j < k && cs[j].platform == cs[k].platform ==> !IsBoard(boards, cs[j])
  }

  // `p` reports the first real board of its platform.
  ghost predicate ReportsFirstBoard(boards: Boards, cs: seq<Candidate>, p: Probe) {
    exists k :: FirstBoard(boards, cs, k) && cs[k].platform == p.platform && cs[k].slug == Some(p.slug)
  }

  ghost predicate WasProbed(probed: seq<Probe>, platform: string, slug: string) {
    exists m :: 0 <= m < |probed| && probed[m].platform == platform && probed[m].slug == slug
  }

  ghost predicate PlatformVerified(probed: seq<Probe>, platform: string) {
    exists m :: 0 <= m < |probed| && probed[m].platform == platform && probed[m].verified
  }

  // The pass is done with this pair.
  ghost predicate Settled(probed: seq<Probe>, platform: string, slug: string) {
    WasProbed(probed, platform, slug) || PlatformVerified(probed, platform)
  }

  ghost predicate Honest(boards: Boards, probed: seq<Probe>) {
    forall m :: 0 <= m < |probed| ==> probed[m].verified == boards(probed[m].platform, probed[m].slug)
  }

  ghost predicate NoPairTwice(probed: seq<Probe>) {
    forall m, n :: 0 <= m < n < |probed| ==>
      probed[m].platform != probed[n].platform || probed[m].slug != probed[n].slug
  }

  ghost predicate NoPlatformVerifiedTwice(probed: seq<Probe>) {
    forall m, n :: 0 <= m < n < |probed| && probed[m].verified && probed[n].verified ==>
      probed[m].platform != probed[n].platform
  }

  ghost predicate VerifiesFirstBoards(boards: Boards, cs: seq<Candidate>, probed: seq<Probe>) {
    forall m :: 0 <= m < |probed| && probed[m].verified ==> ReportsFirstBoard(boards, cs, probed[m])
  }

  // What holds of the probes of a pass, and of every prefix of it.
  ghost predicate GoodPass(boards: Boards, cs: seq<Candidate>, probed: seq<Probe>) {
    && |probed| <= MAX_PROBES
    && Honest(boards, probed)
    && NoPairTwice(probed)
    && NoPlatformVerifiedTwice(probed)
    && VerifiesFirstBoards(boards, cs, probed)
  }

  // Each of the first i candidates was probed, or its platform was already
  // verified; a platform that is not verified has shown no real board among them.
  ghost predicate CoveredTo(boards: Boards, cs: seq<Candidate>, i: nat, probed: seq<Probe>)
    requires i <= |cs| && Slugged(cs)
  {
    forall k :: 0 <= k < i ==>
      && Settled(probed, cs[k].platform, cs[k].slug.value)
      && (!PlatformVerified(probed, cs[k].platform) ==> !IsBoard(boards, cs[k]))
  }

  lemma ProbedMore(probed: seq<Probe>, p: Probe, platform: string, slug: string)
    ensures WasProbed(probed + [p], platform, slug) <==>
            WasProbed(probed, platform, slug) || (p.platform == platform && p.slug == slug)
    ensures PlatformVerified(probed + [p], platform) <==>
            PlatformVerified(probed, platform) || (p.platform == platform && p.verified)
  {
    var all := probed + [p];
    if m :| 0 <= m < |probed| && probed[m].platform == platform && probed[m].slug == slug {
      assert all[m] == probed[m];
    }
    if m :| 0 <= m < |probed| && probed[m].platform == platform && probed[m].verified {
      assert all[m] == probed[m];
    }
    assert all[|probed|] == p;
  }

  lemma GoodPassMore(boards: Boards, cs: seq<Candidate>, i: nat, probed: seq<Probe>, p: Probe)
    requires i < |cs| && Slugged(cs) && |probed| < MAX_PROBES
    requires p == Probe(cs[i].platform, cs[i].slug.value, boards(cs[i].platform, cs[i].slug.value))
    requires GoodPass(boards, cs, probed) && CoveredTo(boards, cs, i, probed)
    requires !Settled(probed, p.platform, p.slug)
    ensures GoodPass(boards, cs, probed + [p])
  {
    if p.verified {
      assert FirstBoard(boards, cs, i);
      assert ReportsFirstBoard(boards, cs, p);
    }
  }

  lemma CoveredMore(boards: Boards, cs: seq<Candidate>, i: nat, probed: seq<Probe>, p: Probe)
    requires i < |cs| && Slugged(cs)
    requires p == Probe(cs[i].platform, cs[i].slug.value, boards(cs[i].platform, cs[i].slug.value))
    requires CoveredTo(boards, cs, i, probed)
    ensures CoveredTo(boards, cs, i + 1, probed + [p])
  {
    forall k | 0 <= k < i + 1
      ensures Settled(probed + [p], cs[k].platform, cs[k].slug.value)
      ensures !PlatformVerified(probed + [p], cs[k].platform) ==> !IsBoard(boards, cs[k])
    {
      ProbedMore(probed, p, cs[k].platform, cs[k].slug.value);
    }
  }

  lemma SettledSkip(boards: Boards, cs: seq<Candidate>, i: nat, probed: seq<Probe>)
    requires i < |cs| && Slugged(cs) && Honest(boards, probed)
    requires CoveredTo(boards, cs, i, probed) && Settled(probed, cs[i].platform, cs[i].slug.value)
    ensures CoveredTo(boards, cs, i + 1, probed)
  {
  }

  // The bookkeeping sets of the loop against the probes made so far.
  ghost predicate Tracks(seen: set<(string, string)>, verified: set<string>, probed: seq<Probe>) {
    && (forall key :: key in seen ==> Settled(probed, key.0, key.1))
    && (forall m :: 0 <= m < |probed| ==> (probed[m].platform, probed[m].slug) in seen)
    && (forall platform :: platform in verified <==> PlatformVerified(probed, platform))
  }

  lemma TracksMore(seen: set<(string, string)>, verified: set<string>, probed: seq<Probe>, p: Probe)
    requires Tracks(seen, verified, probed)
    ensures Tracks(seen + {(p.platform, p.slug)}, if p.verified then verified + {p.platform} else verified,
                   probed + [p])
  {
    forall platform: string, slug: string
      ensures Settled(probed, platform, slug) ==> Settled(probed + [p], platform, slug)
    {
      ProbedMore(probed, p, platform, slug);
    }
    forall platform: string
      ensures PlatformVerified(probed + [p], platform) <==>
              PlatformVerified(probed, platform) || (p.platform == platform && p.verified)
    {
      ProbedMore(probed, p, platform, "");
    }
    ProbedMore(probed, p, p.platform, p.slug);
  }

  // A finished pass: short of the cap it left no candidate out.
  ghost predicate PassOver(boards: Boards, candidates: seq<Candidate>, probed: seq<Probe>) {
    var cs := EvidenceOrder(candidates);
    GoodPass(boards, cs, probed) && (|probed| < MAX_PROBES ==> CoveredTo(boards, cs, |cs|, probed))
  }

  method ProbeCandidates(candidates: seq<Candidate>, boards: Boards) returns (probed: seq<Probe>)
    ensures PassOver(boards, candidates, probed)
  {
    var ordered := EvidenceOrder(candidates);
    var seen: set<(string, string)> := {};
    var verifiedPlatforms: set<string> := {};
    probed := [];
    var i := 0;
    while i < |ordered|
      invariant 0 <= i <= |ordered|
      invariant GoodPass(boards, ordered, probed)
      invariant CoveredTo(boards, ordered, i, probed)
      invariant Tracks(seen, verifiedPlatforms, probed)
    {
      if |probed| >= MAX_PROBES {
        break;
      }
      var c := ordered[i];
      var key := (c.platform, c.slug.value);
      if key in seen {
        SettledSkip(boards, ordered, i, probed);
        i := i + 1;
        continue;
      }
      if c.platform in verifiedPlatforms {
        seen := seen + {key};
        SettledSkip(boards, ordered, i, probed);
        i := i + 1;
        continue;
      }
      var result := Probe(c.platform, c.slug.value, boards(c.platform, c.slug.value));
      GoodPassMore(boards, ordered, i, probed, result);
      CoveredMore(boards, ordered, i, probed, result);
      TracksMore(seen, verifiedPlatforms, probed, result);
      seen := seen + {key};
      probed := probed + [result];
      if result.verified {
        verifiedPlatforms := verifiedPlatforms + {c.platform};
      }
      i := i + 1;
    }
  }

  // The loop refines "take the first real board of each platform in evidence
  // order": short of the cap, the verified probes are exactly those boards.
  lemma PassPicksFirstBoards(boards: Boards, cs: seq<Candidate>, probed: seq<Probe>, p: Probe)
    requires Slugged(cs) && GoodPass(boards, cs, probed) && CoveredTo(boards, cs, |cs|, probed) && p.verified
    ensures p in probed <==> ReportsFirstBoard(boards, cs, p)
  {
    if k :| FirstBoard(boards, cs, k) && cs[k].platform == p.platform && cs[k].slug == Some(p.slug) {
      assert PlatformVerified(probed, p.platform);
      var m :| 0 <= m < |probed| && probed[m].platform == p.platform && probed[m].verified;
      assert ReportsFirstBoard(boards, cs, probed[m]);
      var k' :| FirstBoard(boards, cs, k') && cs[k'].platform == p.platform && cs[k'].slug == Some(probed[m].slug);
      assert k == k';
      assert probed[m] == p;
    }
  }

  // Short of the cap a platform is verified exactly when some candidate of it is
  // a real board.
  lemma UncappedPassVerifiesExactly(boards: Boards, candidates: seq<Candidate>, probed: seq<Probe>, platform: string)
    requires PassOver(boards, candidates, probed) && |probed| < MAX_PROBES
    ensures PlatformVerified(probed, platform) <==>
            exists c :: c in candidates && c.platform == platform && IsBoard(boards, c)
  {
    var cs := EvidenceOrder(candidates);
    EvidenceOrderSorts(candidates);
    if c :| c in candidates && c.platform == platform && IsBoard(boards, c) {
      assert c in cs;
      var k :| 0 <= k < |cs| && cs[k] == c;
      assert PlatformVerified(probed, cs[k].platform);
    }
    if m :| 0 <= m < |probed| && probed[m].platform == platform && probed[m].verified {
      assert ReportsFirstBoard(boards, cs, probed[m]);
      var k :| FirstBoard(boards, cs, k) && cs[k].platform == platform && cs[k].slug == Some(probed[m].slug);
      assert cs[k] in cs;
    }
  }

  // `w` stands for a probed board: no real board of its platform has stronger
  // evidence, and none with the same evidence comes alphabetically before.
  predicate NotWeaker(w: Candidate, c: Candidate) {
    && (c.source == StaticHtml ==> w.source == StaticHtml)
    && (c.source == RenderedHtml ==> w.source != NameGuess)
    && (c.source == w.source ==> !LexLess(SlugText(c), SlugText(w)))
  }

  // Short of the cap the board verified for a platform is the one in the page
  // rather than a rendered or a guessed one.
  lemma StrongestBoardIsVerified(boards: Boards, candidates: seq<Candidate>, probed: seq<Probe>, p: Probe)
    returns (w: Candidate)
    requires PassOver(boards, candidates, probed) && |probed| < MAX_PROBES && p in probed && p.verified
    ensures w in candidates && w.platform == p.platform && w.slug == Some(p.slug)
    ensures forall c :: c in candidates && c.platform == p.platform && IsBoard(boards, c) ==> NotWeaker(w, c)
  {
    var cs := EvidenceOrder(candidates);
    EvidenceOrderSorts(candidates);
    PassPicksFirstBoards(boards, cs, probed, p);
    var k :| FirstBoard(boards, cs, k) && cs[k].platform == p.platform && cs[k].slug == Some(p.slug);
    w := cs[k];
    assert w in cs;
    forall c | c in candidates && c.platform == p.platform && IsBoard(boards, c)
      ensures NotWeaker(w, c)
    {
      assert c in cs;
      var j :| 0 <= j < |cs| && cs[j] == c;
      assert j >= k;
      assert j > k ==> !Before(c, w);
      if j == k && LexLess(SlugText(c), SlugText(w)) {
        LexAsymmetric(SlugText(c), SlugText(w));
      }
    }
  }

  // --- the decision ------------------------------------------------------------------------------------------

  datatype Decision = Unresolved | Resolved(platform: string, slug: string) | Ambiguous

  method VerifiedPairs(probes: seq<Probe>) returns (pairs: seq<(string, string)>)
    ensures forall pair :: pair in pairs <==> Probe(pair.0, pair.1, true) in probes
    ensures forall i, j :: 0 <= i < j < |pairs| ==> pairs[i] != pairs[j]
  {
    pairs := [];
    var seen: set<(string, string)> := {};
    for i := 0 to |probes|
      invariant forall pair :: pair in pairs <==> Probe(pair.0, pair.1, true) in probes[..i]
      invariant forall pair :: pair in pairs <==> pair in seen
      invariant forall i, j :: 0 <= i < j < |pairs| ==> pairs[i] != pairs[j]
    {
      assert probes[..i + 1] == probes[..i] + [probes[i]];
      var pair := (probes[i].platform, probes[i].slug);
      if probes[i].verified {
        assert probes[i] == Probe(pair.0, pair.1, true);
        if pair !in seen {
          seen := seen + {pair};
          pairs := pairs + [pair];
        }
      }
    }
    assert probes[..|probes|] == probes;
  }

  lemma PairsCover(probes: seq<Probe>, pairs: seq<(string, string)>)
    requires forall pair :: pair in pairs <==> Probe(pair.0, pair.1, true) in probes
    ensures forall p :: p in probes && p.verified ==> (p.platform, p.slug) in pairs
  {
    forall p | p in probes && p.verified
      ensures (p.platform, p.slug) in pairs
    {
      assert p == Probe(p.platform, p.slug, true);
    }
  }

  ghost predicate AtMostOnePerPlatform(probes: seq<Probe>) {
    forall p, q :: p in probes && q in probes && p.verified && q.verified && p.platform == q.platform ==>
      p.slug == q.slug
  }

  method Decide(ghost probes: seq<Probe>, pairs: seq<(string, string)>) returns (decision: Decision)
    requires AtMostOnePerPlatform(probes)
    requires forall pair :: pair in pairs <==> Probe(pair.0, pair.1, true) in probes
    requires forall p :: p in probes && p.verified ==> (p.platform, p.slug) in pairs
    requires forall i, j :: 0 <= i < j < |pairs| ==> pairs[i] != pairs[j]
    ensures decision == Ambiguous <==>
              exists p, q :: p in probes && q in probes && p.verified && q.verified && p.platform != q.platform
    ensures decision == Unresolved <==> forall p :: p in probes ==> !p.verified
    ensures decision.Resolved? ==>
              && Probe(decision.platform, decision.slug, true) in probes
              && forall p :: p in probes && p.verified ==> p == Probe(decision.platform, decision.slug, true)
  {
    if |pairs| == 0 {
      return Unresolved;
    }
    assert pairs[0] in pairs;
    if |pairs| > 1 {
      assert pairs[1] in pairs && pairs[0] != pairs[1];
      ghost var p, q := Probe(pairs[0].0, pairs[0].1, true), Probe(pairs[1].0, pairs[1].1, true);
      assert p in probes && q in probes && p.platform != q.platform;
      return Ambiguous;
    }
    return Resolved(pairs[0].0, pairs[0].1);
  }

  // Static candidates and guesses are probed first; the rendered page only when
  // none of them is a real board.
  method ResolveEmployer(candidates: seq<Candidate>, rendered: Option<seq<Candidate>>, boards: Boards)
    returns (decision: Decision, probes: seq<Probe>, ghost first: nat)
    ensures first <= |probes| && PassOver(boards, candidates, probes[..first])
    ensures rendered.Some? && (forall p :: p in probes[..first] ==> !p.verified) ==>
              PassOver(boards, rendered.value, probes[first..])
    ensures rendered.None? || (exists p :: p in probes[..first] && p.verified) ==> first == |probes|
    ensures AtMostOnePerPlatform(probes)
    ensures forall p :: p in probes ==> p.verified == boards(p.platform, p.slug)
    ensures |probes| <= 24
    ensures decision == Ambiguous <==>
              exists p, q :: p in probes && q in probes && p.verified && q.verified && p.platform != q.platform
    ensures decision == Unresolved <==> forall p :: p in probes ==> !p.verified
    ensures decision.Resolved? ==>
              && Probe(decision.platform, decision.slug, true) in probes
              && forall p :: p in probes && p.verified ==> p == Probe(decision.platform, decision.slug, true)
  {
    probes := ProbeCandidates(candidates, boards);
    first := |probes|;
    ghost var statics := probes;
    assert statics[..first] == statics;
    PassIsUnambiguous(boards, EvidenceOrder(candidates), probes);
    var pairs := VerifiedPairs(probes);
    PairsCover(probes, pairs);
    assert |pairs| > 0 ==> pairs[0] in pairs && Probe(pairs[0].0, pairs[0].1, true) in probes;
    if |pairs| == 0 && rendered.Some? {
      var extra := ProbeCandidates(rendered.value, boards);
      PassIsUnambiguous(boards, EvidenceOrder(rendered.value), extra);
      probes := probes + extra;
      assert probes[..first] == statics && probes[first..] == extra;
      pairs := VerifiedPairs(probes);
      PairsCover(probes, pairs);
    }
    decision := Decide(probes, pairs);
  }

  lemma PassIsUnambiguous(boards: Boards, cs: seq<Candidate>, probed: seq<Probe>)
    requires GoodPass(boards, cs, probed)
    ensures AtMostOnePerPlatform(probed)
    ensures forall p :: p in probed ==> p.verified == boards(p.platform, p.slug)
  {
  }
}
