// Classification of a job's stored status history into one feedback signal.
module Signals {
  import opened Common
  import opened Jobs
  import opened Sorting

  datatype Kind = FastReject | LateReject | Progressed | Neutral

  // `dwell` is in hundredths of a day.
  datatype JobSignal = JobSignal(
    kind: Kind, dwell: Option<int>, depth: nat, terminal: JobStatus, transitions: seq<StatusEvent>)

  const FAST_REJECT_DWELL_DAYS := 10
  const PROGRESSION_MIN_DEPTH := 2

  function Depth(status: JobStatus): nat {
    match status
    case Shortlisted => 1
    case Applied => 2
    case Interviewing => 3
    case Offer => 4
    case _ => 0
  }

  function MaxDepth(events: seq<StatusEvent>): nat {
    if events == [] then 0
    else
      var rest, last := MaxDepth(events[..|events| - 1]), Depth(events[|events| - 1].to);
      if rest < last then last else rest
  }

  // Days between the anchor and the rejection, rounded to two places.
  function DwellDays(rejectedAt: Time, anchor: Option<Time>): Option<int> {
    if anchor.None? then None else Some(RoundHalfEven((rejectedAt - anchor.value) * 100, DAY))
  }

  predicate Earlier(a: StatusEvent, b: StatusEvent) {
    a.at < b.at
  }

  function ClassifyOrdered(ordered: seq<StatusEvent>, firstSeen: Option<Time>, status: JobStatus): (signal: JobSignal)
    ensures signal.transitions == ordered
  {
    if ordered == [] || status == Withdrawn then JobSignal(Neutral, None, 0, status, ordered)
    else
      var last := ordered[|ordered| - 1];
      if last.to == Rejected then
        var anchor := if |ordered| >= 2 then Some(ordered[|ordered| - 2].at) else firstSeen;
        var dwell := DwellDays(last.at, anchor);
        if last.from in {Applied, Interviewing} then JobSignal(LateReject, dwell, 0, status, ordered)
        else if last.from in {New, Shortlisted} && dwell.Some? && dwell.value <= FAST_REJECT_DWELL_DAYS * 100 then
          JobSignal(FastReject, dwell, 0, status, ordered)
        else JobSignal(Neutral, dwell, 0, status, ordered)
      else
        var depth := MaxDepth(ordered);
        JobSignal(if depth >= PROGRESSION_MIN_DEPTH then Progressed else Neutral, None, depth, status, ordered)
  }

  function ClassifyTransitions(events: seq<StatusEvent>, firstSeen: Option<Time>, status: JobStatus)
    : (signal: JobSignal)
    ensures signal.transitions == SortBy(Earlier, events)
  {
    ClassifyOrdered(SortBy(Earlier, events), firstSeen, status)
  }

  // --- the supplied order does not matter --------------------------------------------------------

  ghost predicate Ordered(events: seq<StatusEvent>) {
    forall i, j :: 0 <= i < j < |events| ==> events[i].at <= events[j].at
  }

  ghost predicate Increasing(events: seq<StatusEvent>) {
    forall i, j :: 0 <= i < j < |events| ==> events[i].at < events[j].at
  }

  lemma {:induction false} SortOrdered(events: seq<StatusEvent>)
    ensures Ordered(SortBy(Earlier, events)) && multiset(SortBy(Earlier, events)) == multiset(events)
  {
    SortOrders(Earlier, events);
    var sorted := SortBy(Earlier, events);
    assert forall i, j :: 0 <= i < j < |sorted| ==> !Earlier(sorted[j], sorted[i]);
  }

  // Events at one instant are the same event.
  ghost predicate TiesAreEqual(events: seq<StatusEvent>) {
    forall i, j :: 0 <= i < |events| && 0 <= j < |events| && events[i].at == events[j].at ==> events[i] == events[j]
  }

  lemma SameLast(a: seq<StatusEvent>, b: seq<StatusEvent>)
    requires Ordered(a) && Ordered(b) && TiesAreEqual(b) && b != []
    requires |a| == |b| && (forall e :: e in a <==> e in b)
    ensures a[|a| - 1] == b[|b| - 1]
  {
    var n := |b| - 1;
    assert a[n] in b && b[n] in a;
    var k :| 0 <= k < |b| && b[k] == a[n];
    var m :| 0 <= m < |a| && a[m] == b[n];
    assert b[n].at <= a[n].at;
  }

  lemma WithoutLast(a: seq<StatusEvent>)
    requires a != []
    ensures multiset(a[..|a| - 1]) == multiset(a) - multiset{a[|a| - 1]}
  {
    assert a == a[..|a| - 1] + [a[|a| - 1]];
  }

  lemma EqualByLast(a: seq<StatusEvent>, b: seq<StatusEvent>)
    requires |a| == |b| > 0
    requires a[..|a| - 1] == b[..|b| - 1] && a[|a| - 1] == b[|b| - 1]
    ensures a == b
  {
    forall i | 0 <= i < |a|
      ensures a[i] == b[i]
    {
      assert i < |a| - 1 ==> a[i] == a[..|a| - 1][i] && b[i] == b[..|b| - 1][i];
    }
  }

  lemma {:induction false} OrderedUnique(a: seq<StatusEvent>, b: seq<StatusEvent>)
    requires Ordered(a) && Ordered(b) && TiesAreEqual(b) && multiset(a) == multiset(b)
    ensures a == b
    decreases |b|
  {
    SameElements(a, b);
    if |b| > 0 {
      SameLast(a, b);
      WithoutLast(a);
      WithoutLast(b);
      var a', b' := a[..|a| - 1], b[..|b| - 1];
      assert multiset(a') == multiset(b');
      OrderedUnique(a', b');
      EqualByLast(a, b);
    }
  }

  lemma ClassificationIgnoresOrder(history: seq<StatusEvent>, supplied: seq<StatusEvent>,
                                   firstSeen: Option<Time>, status: JobStatus)
    requires Ordered(history) && TiesAreEqual(history) && multiset(supplied) == multiset(history)
    ensures ClassifyTransitions(supplied, firstSeen, status) == ClassifyOrdered(history, firstSeen, status)
  {
    SortOrdered(supplied);
    OrderedUnique(SortBy(Earlier, supplied), history);
  }

  // However the events are supplied they are classified the same.
  ghost predicate OrderIsIgnored(events: seq<StatusEvent>, firstSeen: Option<Time>, status: JobStatus) {
    forall supplied :: multiset(supplied) == multiset(events) ==>
      ClassifyTransitions(supplied, firstSeen, status) == ClassifyTransitions(events, firstSeen, status)
  }

  lemma EqualTiesIgnoreOrder(events: seq<StatusEvent>, firstSeen: Option<Time>, status: JobStatus)
    requires TiesAreEqual(events)
    ensures OrderIsIgnored(events, firstSeen, status)
  {
    var sorted := SortBy(Earlier, events);
    SortOrdered(events);
    SameElements(sorted, events);
    TiesOfPermutation(events, sorted);
    forall supplied | multiset(supplied) == multiset(events)
      ensures ClassifyTransitions(supplied, firstSeen, status) == ClassifyTransitions(events, firstSeen, status)
    {
      ClassificationIgnoresOrder(sorted, supplied, firstSeen, status);
    }
  }

  lemma DifferentTiesShow(events: seq<StatusEvent>, firstSeen: Option<Time>, status: JobStatus)
    returns (supplied: seq<StatusEvent>)
    requires !TiesAreEqual(events)
    ensures multiset(supplied) == multiset(events)
    ensures ClassifyTransitions(supplied, firstSeen, status) != ClassifyTransitions(events, firstSeen, status)
  {
    var sorted := SortBy(Earlier, events);
    SortOrdered(events);
    SameElements(sorted, events);
    supplied := SwapTies(sorted, events);
    OrderedStays(supplied);
  }

  // The order of the supplied events can matter exactly when two different ones
  // carry the same time.
  lemma OrderIsIgnoredExactly(events: seq<StatusEvent>, firstSeen: Option<Time>, status: JobStatus)
    ensures OrderIsIgnored(events, firstSeen, status) <==> TiesAreEqual(events)
  {
    if TiesAreEqual(events) {
      EqualTiesIgnoreOrder(events, firstSeen, status);
    } else {
      var supplied := DifferentTiesShow(events, firstSeen, status);
    }
  }

  lemma {:induction false} OrderedStays(events: seq<StatusEvent>)
    requires Ordered(events)
    ensures SortBy(Earlier, events) == events
  {
    assert forall i, j :: 0 <= i < j < |events| ==> !Earlier(events[j], events[i]);
    SortKeepsOrdered(Earlier, events);
  }

  lemma TiesOfPermutation(events: seq<StatusEvent>, sorted: seq<StatusEvent>)
    requires TiesAreEqual(events) && forall e :: e in sorted ==> e in events
    ensures TiesAreEqual(sorted)
  {
    forall i, j | 0 <= i < |sorted| && 0 <= j < |sorted| && sorted[i].at == sorted[j].at
      ensures sorted[i] == sorted[j]
    {
      assert sorted[i] in events && sorted[j] in events;
    }
  }

  lemma SwapTies(sorted: seq<StatusEvent>, events: seq<StatusEvent>) returns (swapped: seq<StatusEvent>)
    requires Ordered(sorted) && !TiesAreEqual(events) && forall e :: e in events ==> e in sorted
    ensures Ordered(swapped) && multiset(swapped) == multiset(sorted) && swapped != sorted
  {
    var i, j :| 0 <= i < |events| && 0 <= j < |events| && events[i].at == events[j].at && events[i] != events[j];
    assert events[i] in sorted && events[j] in sorted;
    var p :| 0 <= p < |sorted| && sorted[p] == events[i];
    var q :| 0 <= q < |sorted| && sorted[q] == events[j];
    swapped := sorted[p := sorted[q]][q := sorted[p]];
    assert swapped[p] != sorted[p];
  }

  // --- when the order decides the signal itself ------------------------------------------------------------

  // A signal without the listed transitions.
  datatype Verdict = Verdict(kind: Kind, dwell: Option<int>, depth: nat)

  function VerdictOf(signal: JobSignal): Verdict {
    Verdict(signal.kind, signal.dwell, signal.depth)
  }

  // The verdict when `last` is the last event, `anchor` the time before it and
  // `depth` the greatest depth of all events.
  function LastVerdict(last: StatusEvent, anchor: Option<Time>, depth: nat, status: JobStatus): Verdict {
    if status == Withdrawn then Verdict(Neutral, None, 0)
    else if last.to == Rejected then
      var dwell := DwellDays(last.at, anchor);
      if last.from in {Applied, Interviewing} then Verdict(LateReject, dwell, 0)
      else if last.from in {New, Shortlisted} && dwell.Some? && dwell.value <= FAST_REJECT_DWELL_DAYS * 100 then
        Verdict(FastReject, dwell, 0)
      else Verdict(Neutral, dwell, 0)
    else Verdict(if depth >= PROGRESSION_MIN_DEPTH then Progressed else Neutral, None, depth)
  }

  function AnchorOf(ordered: seq<StatusEvent>, firstSeen: Option<Time>): Option<Time> {
    if |ordered| >= 2 then Some(ordered[|ordered| - 2].at) else firstSeen
  }

  lemma {:induction false} VerdictByLast(ordered: seq<StatusEvent>, firstSeen: Option<Time>, status: JobStatus)
    requires ordered != []
    ensures VerdictOf(ClassifyOrdered(ordered, firstSeen, status)) ==
            LastVerdict(ordered[|ordered| - 1], AnchorOf(ordered, firstSeen), MaxDepth(ordered), status)
  {
  }

  lemma {:induction false} MaxDepthIsGreatest(events: seq<StatusEvent>)
    ensures forall e :: e in events ==> Depth(e.to) <= MaxDepth(events)
    ensures MaxDepth(events) == 0 || exists e :: e in events && Depth(e.to) == MaxDepth(events)
  {
    if events != [] {
      var init, last := events[..|events| - 1], events[|events| - 1];
      assert events == init + [last];
      MaxDepthIsGreatest(init);
    }
  }

  lemma {:induction false} SameDepth(a: seq<StatusEvent>, b: seq<StatusEvent>)
    requires forall e :: e in a <==> e in b
    ensures MaxDepth(a) == MaxDepth(b)
  {
    MaxDepthIsGreatest(a);
    MaxDepthIsGreatest(b);
  }

  // One of the last two elements of b is not the last one of a.
  lemma OneOfTheLastTwo(a: seq<StatusEvent>, b: seq<StatusEvent>)
    requires multiset(a) == multiset(b) && |a| == |b| >= 2
    ensures b[|b| - 2] in a[..|a| - 1] || b[|b| - 1] in a[..|a| - 1]
  {
    var n := |a| - 1;
    var x, y := b[n - 1], b[n];
    assert a == a[..n] + [a[n]] && b == b[..n - 1] + [x, y];
    assert multiset(a) == multiset(a[..n]) + multiset{a[n]};
    assert multiset(b) == multiset(b[..n - 1]) + multiset{x, y};
    if x == y {
      assert multiset(a[..n])[x] >= 1;
      assert x in multiset(a[..n]);
    } else if x != a[n] {
      assert x in multiset(a) && x in multiset(a[..n]);
    } else {
      assert y in multiset(a) && y in multiset(a[..n]);
    }
  }

  // However ties are ordered, the time before the last one is the same.
  lemma NotEarlierAnchor(a: seq<StatusEvent>, b: seq<StatusEvent>)
    requires Ordered(a) && Ordered(b) && multiset(a) == multiset(b) && |a| == |b| >= 2
    ensures b[|b| - 2].at <= a[|a| - 2].at
  {
    OneOfTheLastTwo(a, b);
    var n := |a| - 1;
    assert b[n - 1].at <= b[n].at;
    assert forall e :: e in a[..n] ==> e.at <= a[n - 1].at;
  }

  lemma SameAnchor(a: seq<StatusEvent>, b: seq<StatusEvent>, firstSeen: Option<Time>)
    requires Ordered(a) && Ordered(b) && multiset(a) == multiset(b)
    ensures |a| == |b| && AnchorOf(a, firstSeen) == AnchorOf(b, firstSeen)
  {
    SameElements(a, b);
    if |a| >= 2 {
      NotEarlierAnchor(a, b);
      NotEarlierAnchor(b, a);
    }
  }

  predicate IsLatest(events: seq<StatusEvent>, e: StatusEvent) {
    e in events && forall f :: f in events ==> f.at <= e.at
  }

  // The latest events all lead to one verdict.
  ghost predicate LatestAgree(events: seq<StatusEvent>, firstSeen: Option<Time>, status: JobStatus) {
    var sorted := SortBy(Earlier, events);
    forall e, f :: IsLatest(events, e) && IsLatest(events, f) ==>
      LastVerdict(e, AnchorOf(sorted, firstSeen), MaxDepth(sorted), status)
      == LastVerdict(f, AnchorOf(sorted, firstSeen), MaxDepth(sorted), status)
  }

  ghost predicate VerdictIgnoresOrder(events: seq<StatusEvent>, firstSeen: Option<Time>, status: JobStatus) {
    forall supplied :: multiset(supplied) == multiset(events) ==>
      VerdictOf(ClassifyTransitions(supplied, firstSeen, status))
      == VerdictOf(ClassifyTransitions(events, firstSeen, status))
  }

  lemma LastIsLatest(events: seq<StatusEvent>, sorted: seq<StatusEvent>)
    requires Ordered(sorted) && sorted != [] && forall e :: e in events <==> e in sorted
    ensures IsLatest(events, sorted[|sorted| - 1])
  {
    assert sorted[|sorted| - 1] in sorted;
  }

  lemma {:induction false} OrderedVerdict(a: seq<StatusEvent>, b: seq<StatusEvent>, firstSeen: Option<Time>,
                                          status: JobStatus)
    requires Ordered(a) && Ordered(b) && multiset(a) == multiset(b) && b != []
    ensures VerdictOf(ClassifyOrdered(b, firstSeen, status)) ==
            LastVerdict(b[|b| - 1], AnchorOf(a, firstSeen), MaxDepth(a), status)
  {
    SameElements(a, b);
    SameAnchor(a, b, firstSeen);
    SameDepth(a, b);
    VerdictByLast(b, firstSeen, status);
  }

  lemma {:induction false} SuppliedVerdict(events: seq<StatusEvent>, supplied: seq<StatusEvent>,
                                           firstSeen: Option<Time>, status: JobStatus)
    requires multiset(supplied) == multiset(events) && events != []
    ensures var sorted, other := SortBy(Earlier, events), SortBy(Earlier, supplied);
            && |other| == |events| && IsLatest(events, other[|other| - 1])
            && VerdictOf(ClassifyTransitions(supplied, firstSeen, status)) ==
               LastVerdict(other[|other| - 1], AnchorOf(sorted, firstSeen), MaxDepth(sorted), status)
  {
    var sorted, other := SortBy(Earlier, events), SortBy(Earlier, supplied);
    SortOrdered(events);
    SortOrdered(supplied);
    SameElements(other, events);
    LastIsLatest(events, other);
    OrderedVerdict(sorted, other, firstSeen, status);
  }

  lemma AgreeingLatest(events: seq<StatusEvent>, firstSeen: Option<Time>, status: JobStatus)
    requires events != [] && LatestAgree(events, firstSeen, status)
    ensures VerdictIgnoresOrder(events, firstSeen, status)
  {
    SuppliedVerdict(events, events, firstSeen, status);
    forall supplied | multiset(supplied) == multiset(events)
      ensures VerdictOf(ClassifyTransitions(supplied, firstSeen, status))
              == VerdictOf(ClassifyTransitions(events, firstSeen, status))
    {
      SuppliedVerdict(events, supplied, firstSeen, status);
    }
  }

  lemma SwapToEnd(sorted: seq<StatusEvent>, p: nat)
    requires p < |sorted| && Ordered(sorted) && sorted[p].at == sorted[|sorted| - 1].at
    ensures var swapped := sorted[p := sorted[|sorted| - 1]][|sorted| - 1 := sorted[p]];
            Ordered(swapped) && multiset(swapped) == multiset(sorted)
  {
  }

  lemma OrderedEndingWith(sorted: seq<StatusEvent>, e: StatusEvent) returns (swapped: seq<StatusEvent>)
    requires Ordered(sorted) && IsLatest(sorted, e)
    ensures Ordered(swapped) && multiset(swapped) == multiset(sorted)
    ensures swapped != [] && swapped[|swapped| - 1] == e
  {
    var p :| 0 <= p < |sorted| && sorted[p] == e;
    assert sorted[|sorted| - 1] in sorted;
    SwapToEnd(sorted, p);
    swapped := sorted[p := sorted[|sorted| - 1]][|sorted| - 1 := sorted[p]];
  }

  // Any latest event can be made the last one.
  lemma EndingWith(events: seq<StatusEvent>, e: StatusEvent) returns (supplied: seq<StatusEvent>)
    requires IsLatest(events, e)
    ensures multiset(supplied) == multiset(events) && supplied != []
    ensures SortBy(Earlier, supplied) == supplied && supplied[|supplied| - 1] == e
  {
    var sorted := SortBy(Earlier, events);
    SortOrdered(events);
    SameElements(sorted, events);
    supplied := OrderedEndingWith(sorted, e);
    OrderedStays(supplied);
  }

  lemma VerdictEndingWith(events: seq<StatusEvent>, e: StatusEvent, firstSeen: Option<Time>, status: JobStatus)
    returns (supplied: seq<StatusEvent>)
    requires IsLatest(events, e)
    ensures multiset(supplied) == multiset(events)
    ensures var sorted := SortBy(Earlier, events);
            VerdictOf(ClassifyTransitions(supplied, firstSeen, status)) ==
            LastVerdict(e, AnchorOf(sorted, firstSeen), MaxDepth(sorted), status)
  {
    supplied := EndingWith(events, e);
    SuppliedVerdict(events, supplied, firstSeen, status);
  }

  // Kind, dwell and depth can depend on the order of the supplied events exactly
  // when two latest events lead to different verdicts.
  lemma VerdictIgnoresOrderExactly(events: seq<StatusEvent>, firstSeen: Option<Time>, status: JobStatus)
    requires events != []
    ensures VerdictIgnoresOrder(events, firstSeen, status) <==> LatestAgree(events, firstSeen, status)
  {
    if LatestAgree(events, firstSeen, status) {
      AgreeingLatest(events, firstSeen, status);
    } else {
      var sorted := SortBy(Earlier, events);
      var e, f :| IsLatest(events, e) && IsLatest(events, f)
                  && LastVerdict(e, AnchorOf(sorted, firstSeen), MaxDepth(sorted), status)
                     != LastVerdict(f, AnchorOf(sorted, firstSeen), MaxDepth(sorted), status);
      var a := VerdictEndingWith(events, e, firstSeen, status);
      var b := VerdictEndingWith(events, f, firstSeen, status);
    }
  }

  // --- what the two-place rounding admits -------------------------------------------------------------

  // A dwell counts as at most ten days up to 10.005 days.
  const FAST_LIMIT := 864_432 * SECOND

  lemma RoundedDwell(elapsed: Time)
    ensures RoundHalfEven(elapsed * 100, DAY) <= FAST_REJECT_DWELL_DAYS * 100 <==> elapsed <= FAST_LIMIT
  {
  }

  // A rejection six minutes after the tenth day still counts as fast.
  lemma FastRejectAfterTenDays()
    ensures var rejected := StatusEvent(0, New, Rejected, 10 * DAY + 360 * SECOND);
            rejected.at - 0 > FAST_REJECT_DWELL_DAYS * DAY
            && ClassifyTransitions([rejected], Some(0), Rejected).kind == FastReject
  {
    var rejected := StatusEvent(0, New, Rejected, 10 * DAY + 360 * SECOND);
    OrderedStays([rejected]);
    RoundedDwell(rejected.at);
  }

  // --- histories made by status calls -------------------------------------------------------------------

  // Every status call is later than all stored events.
  ghost predicate CallsInTimeOrder(t: Table, ops: seq<Op>) {
    ops != [] ==>
      var init, last := ops[..|ops| - 1], ops[|ops| - 1];
      && CallsInTimeOrder(t, init)
      && (last.SetStatus? ==> forall e :: e in Exec(t, init).events ==> e.at < last.at)
  }

  lemma {:induction false} HistoryIsIncreasing(t: Table, ops: seq<Op>)
    requires Increasing(t.events) && CallsInTimeOrder(t, ops)
    ensures Increasing(Exec(t, ops).events)
  {
    if ops != [] {
      HistoryIsIncreasing(t, ops[..|ops| - 1]);
    }
  }

  lemma {:induction false} JobHistoryIsIncreasing(events: seq<StatusEvent>, job: nat)
    requires Increasing(events)
    ensures Increasing(EventsOf(events, job))
    ensures forall e :: e in EventsOf(events, job) ==> e in events
  {
    if events != [] {
      var init := events[..|events| - 1];
      JobHistoryIsIncreasing(init, job);
      assert forall e :: e in EventsOf(init, job) ==> e in events && e.at < events[|events| - 1].at;
    }
  }

  // When the job reached its current status's predecessor, or was first seen.
  function Anchor(history: seq<StatusEvent>, firstSeen: Time): Time {
    if |history| >= 2 then history[|history| - 2].at else firstSeen
  }

  // Each signal holds exactly under its rule.
  ghost predicate FollowsTheRules(signal: JobSignal, history: seq<StatusEvent>, firstSeen: Time, status: JobStatus) {
    && signal.transitions == history
    && (signal.kind == FastReject <==>
          && status == Rejected && history != []
          && history[|history| - 1].from in {New, Shortlisted}
          && history[|history| - 1].at - Anchor(history, firstSeen) <= FAST_LIMIT)
    && (signal.kind == LateReject <==>
          && status == Rejected && history != []
          && history[|history| - 1].from in {Applied, Interviewing})
    && (signal.kind == Progressed <==>
          && status !in {Rejected, Withdrawn}
          && exists e :: e in history && e.to in {Applied, Interviewing, Offer})
    && signal.terminal == status
    && (signal.dwell.Some? <==> status == Rejected && history != [])
    && (signal.dwell.Some? ==>
          NearestHundredth(signal.dwell.value, history[|history| - 1].at - Anchor(history, firstSeen)))
    && (status == Rejected || status == Withdrawn || history == [] ==> signal.depth == 0)
    && (status != Rejected && status != Withdrawn ==>
          && (forall e :: e in history ==> Depth(e.to) <= signal.depth)
          && (signal.depth == 0 || exists e :: e in history && Depth(e.to) == signal.depth))
  }

  // n hundredths of a day are within half a hundredth of the elapsed time.
  predicate NearestHundredth(n: int, elapsed: Time) {
    -DAY <= 2 * (n * DAY - elapsed * 100) <= DAY
  }

  lemma DwellIsNearest(elapsed: Time)
    ensures NearestHundredth(RoundHalfEven(elapsed * 100, DAY), elapsed)
  {
  }

  // How far along a status is.
  lemma DepthExactly(a: JobStatus, b: JobStatus)
    ensures Depth(a) < Depth(b) <==>
            || (a in {New, Rejected, Withdrawn} && b in {Shortlisted, Applied, Interviewing, Offer})
            || (a == Shortlisted && b in {Applied, Interviewing, Offer})
            || (a == Applied && b in {Interviewing, Offer})
            || (a == Interviewing && b == Offer)
  {
  }

  lemma ChainFollowsTheRules(history: seq<StatusEvent>, firstSeen: Time, status: JobStatus)
    requires Chain(history, New, status)
    ensures FollowsTheRules(ClassifyOrdered(history, Some(firstSeen), status), history, firstSeen, status)
  {
    MaxDepthReached(history);
    MaxDepthIsGreatest(history);
    if history != [] {
      DwellIsNearest(history[|history| - 1].at - Anchor(history, firstSeen));
      RoundedDwell(history[|history| - 1].at - Anchor(history, firstSeen));
    }
  }

  // For a job whose history was made by status calls in time order, whatever
  // else happened to the tables and in whatever order its events are supplied.
  lemma {:induction false} SignalOfHistory(t: Table, ops: seq<Op>, i: nat, supplied: seq<StatusEvent>)
    requires Consistent(t) && Chained(t) && Increasing(t.events) && CallsInTimeOrder(t, ops)
    requires i < |Exec(t, ops).rows|
    requires multiset(supplied) == multiset(EventsOf(Exec(t, ops).events, i))
    ensures var job := Exec(t, ops).rows[i];
            FollowsTheRules(ClassifyTransitions(supplied, Some(job.firstSeen), job.status),
                            EventsOf(Exec(t, ops).events, i), job.firstSeen, job.status)
  {
    var job := Exec(t, ops).rows[i];
    var history := EventsOf(Exec(t, ops).events, i);
    HistoryIsChained(t, ops);
    HistoryIsIncreasing(t, ops);
    JobHistoryIsIncreasing(Exec(t, ops).events, i);
    ClassificationIgnoresOrder(history, supplied, Some(job.firstSeen), job.status);
    ChainFollowsTheRules(history, job.firstSeen, job.status);
  }

  lemma {:induction false} MaxDepthReached(events: seq<StatusEvent>)
    ensures MaxDepth(events) >= PROGRESSION_MIN_DEPTH <==>
            exists e :: e in events && e.to in {Applied, Interviewing, Offer}
  {
    if events != [] {
      var init, last := events[..|events| - 1], events[|events| - 1];
      MaxDepthReached(init);
      assert events == init + [last];
      assert forall e :: e in events <==> e in init || e == last;
    }
  }
}
