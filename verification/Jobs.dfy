// The `jobs` and `status_events` tables and the write paths into them:
// discovery, scoring, rescoring, and the user.
module Jobs {
  import opened Common
  import opened Pricing
  import opened Scoring
  import opened Counting

  datatype JobStatus = New | Shortlisted | Applied | Interviewing | Offer | Rejected | Withdrawn

  datatype Tier = Deterministic | Triage | Full

  // What a fetched listing says about the posting.
  datatype Facts = Facts(company: nat, title: string, url: string, other: string)

  // `key` is the dedup key; None is a listing with neither external id nor URL.
  datatype Raw = Raw(key: Option<string>, facts: Facts)

  datatype Score = Score(overall: Option<int>, dims: Dims, detail: string, criteriaVersion: nat)

  datatype ScoredListing = ScoredListing(
    listing: Raw, score: Option<Score>, tier: Tier, dropped: bool, error: bool, usage: seq<Usage>)

  datatype Job = Job(
    id: nat, key: string,
    facts: Facts, tier: Tier, sourceRun: nat, lastSeen: Time,  // owned by discovery
    firstSeen: Time,                                           // set on insertion
    score: Option<Score>,                                      // owned by scoring
    status: JobStatus, notes: string)                          // owned by the user

  datatype StatusEvent = StatusEvent(job: nat, from: JobStatus, to: JobStatus, at: Time)

  datatype Table = Table(rows: seq<Job>, events: seq<StatusEvent>)

  datatype WriteOutcome = WriteOutcome(inserted: nat, updated: nat, failed: nat)

  // --- operations on the value of the tables -------------------------------------------------

  // The row with this dedup key, as an index; |rows| when there is none.
  function Find(rows: seq<Job>, key: string): (i: nat)
    ensures i <= |rows|
    ensures i < |rows| ==> rows[i].key == key
    ensures forall j :: 0 <= j < i ==> rows[j].key != key
  {
    if rows == [] then 0
    else if rows[0].key == key then 0
    else 1 + Find(rows[1..], key)
  }

  predicate Has(rows: seq<Job>, key: string) {
    Find(rows, key) < |rows|
  }

  // INSERT ... ON CONFLICT (dedup_key) DO UPDATE of the columns passed.
  function Upserted(rows: seq<Job>, key: string, facts: Facts, tier: Tier, run: nat, now: Time,
                    firstSeen: Option<Time>): seq<Job> {
    var i := Find(rows, key);
    if i < |rows| then
      rows[i := rows[i].(facts := facts, tier := tier, sourceRun := run, lastSeen := now,
                         firstSeen := if firstSeen.Some? then firstSeen.value else rows[i].firstSeen)]
    else
      rows + [Job(|rows|, key, facts, tier, run, now,
                  if firstSeen.Some? then firstSeen.value else now, None, New, "")]
  }

  function MarkedScored(rows: seq<Job>, i: nat, score: Score, tier: Tier): seq<Job> {
    if i < |rows| then rows[i := rows[i].(score := Some(score), tier := tier)] else rows
  }

  // One listing: the table after the write and whether the row is new.
  function Written(rows: seq<Job>, s: ScoredListing, run: nat, now: Time): seq<Job>
    requires s.listing.key.Some?
  {
    var key := s.listing.key.value;
    var firstSeen := if Has(rows, key) then None else Some(now);
    var stored := Upserted(rows, key, s.listing.facts, s.tier, run, now, firstSeen);
    if s.score.Some? then MarkedScored(stored, Find(stored, key), s.score.value, s.tier) else stored
  }

  function WrittenIfKeyed(rows: seq<Job>, s: ScoredListing, run: nat, now: Time): seq<Job> {
    if s.listing.key.Some? then Written(rows, s, run, now) else rows
  }

  function BatchWritten(rows: seq<Job>, batch: seq<ScoredListing>, run: nat, now: Time): seq<Job> {
    if batch == [] then rows
    else WrittenIfKeyed(BatchWritten(rows, batch[..|batch| - 1], run, now), batch[|batch| - 1], run, now)
  }

  // The rescorer reads the stored dimensions and writes the overall score only.
  function RescoredRow(row: Job, weights: Weights): Job {
    if row.score.None? then row
    else
      var score := row.score.value;
      row.(score := Some(score.(overall := NewOverall(score.dims, weights, score.overall))))
  }

  predicate Unrescorable(row: Job, weights: Weights) {
    row.score.Some? && BreaksRescoring(row.score.value.dims, weights)
  }

  function RescoredRows(rows: seq<Job>, weights: Weights): seq<Job> {
    seq(|rows|, i requires 0 <= i < |rows| => RescoredRow(rows[i], weights))
  }

  // One unusable row aborts the pass, which then commits nothing.
  function RescoredTable(t: Table, weights: Weights): Table {
    if exists i :: 0 <= i < |t.rows| && Unrescorable(t.rows[i], weights) then t
    else t.(rows := RescoredRows(t.rows, weights))
  }

  predicate IsRescored(row: Job, weights: Weights) {
    row.score.Some? && ComputeOverall(RescorerScores(row.score.value.dims), weights).Scored?
  }

  function CountRescored(rows: seq<Job>, weights: Weights): nat {
    if rows == [] then 0
    else CountRescored(rows[..|rows| - 1], weights) + if IsRescored(rows[|rows| - 1], weights) then 1 else 0
  }

  function StatusSet(t: Table, i: nat, to: JobStatus, at: Time): Table
    requires i < |t.rows|
  {
    Table(t.rows[i := t.rows[i].(status := to)], t.events + [StatusEvent(t.rows[i].id, t.rows[i].status, to, at)])
  }

  // --- what a write stores, column by column -------------------------------------------------------

  predicate Discovered(row: Job, key: string, facts: Facts, tier: Tier, run: nat, now: Time) {
    row.key == key && row.facts == facts && row.tier == tier && row.sourceRun == run && row.lastSeen == now
  }

  predicate SameUserColumns(before: Job, after: Job) {
    after.id == before.id && after.firstSeen == before.firstSeen && after.status == before.status
    && after.notes == before.notes
  }

  // Row i is refreshed, or is a new last row; no other row changes.
  predicate OnlyRow(before: seq<Job>, after: seq<Job>, i: nat) {
    && i < |after| && i <= |before| && |after| == (if i < |before| then |before| else |before| + 1)
    && forall j :: 0 <= j < |before| && j != i ==> after[j] == before[j]
  }

  predicate IsNewRow(row: Job, id: nat, firstSeen: Time) {
    row.id == id && row.firstSeen == firstSeen && row.status == New && row.notes == ""
  }

  // The listing is stored in row i.
  predicate StoredAt(before: seq<Job>, after: seq<Job>, s: ScoredListing, run: nat, now: Time, i: nat) {
    && s.listing.key.Some? && OnlyRow(before, after, i)
    && Discovered(after[i], s.listing.key.value, s.listing.facts, s.tier, run, now)
    && (i < |before| ==>
          && before[i].key == s.listing.key.value && SameUserColumns(before[i], after[i])
          && after[i].score == if s.score.Some? then s.score else before[i].score)
    && (i == |before| ==>
          && (forall j :: 0 <= j < |before| ==> before[j].key != s.listing.key.value)
          && IsNewRow(after[i], i, now) && after[i].score == s.score)
  }

  lemma {:induction false} WrittenIsStored(rows: seq<Job>, s: ScoredListing, run: nat, now: Time)
    requires s.listing.key.Some?
    ensures StoredAt(rows, WrittenIfKeyed(rows, s, run, now), s, run, now, Find(rows, s.listing.key.value))
  {
    var key := s.listing.key.value;
    UpsertedHas(rows, key, s.listing.facts, s.tier, run, now, if Has(rows, key) then None else Some(now));
  }

  // --- the tables as a session sees them -------------------------------------------------------

  class JobTable {
    var rows: seq<Job>
    var events: seq<StatusEvent>

    function Value(): Table
      reads this
    {
      Table(rows, events)
    }

    constructor (t: Table)
      ensures Value() == t
    {
      rows, events := t.rows, t.events;
    }

    method UpsertDiscovered(key: string, facts: Facts, tier: Tier, run: nat, now: Time, firstSeen: Option<Time>)
      modifies this`rows
      ensures rows == Upserted(old(rows), key, facts, tier, run, now, firstSeen)
      ensures var i := Find(old(rows), key);
              && OnlyRow(old(rows), rows, i) && Discovered(rows[i], key, facts, tier, run, now)
              && (i < |old(rows)| ==> rows[i].score == old(rows)[i].score && rows[i].status == old(rows)[i].status
                                      && rows[i].notes == old(rows)[i].notes && rows[i].id == old(rows)[i].id
                                      && rows[i].firstSeen == firstSeen.GetOr(old(rows)[i].firstSeen))
              && (i == |old(rows)| ==> IsNewRow(rows[i], i, firstSeen.GetOr(now)) && rows[i].score == None)
    {
      var i := Find(rows, key);
      if i < |rows| {
        var job := rows[i].(facts := facts, tier := tier, sourceRun := run, lastSeen := now);
        if firstSeen.Some? {
          job := job.(firstSeen := firstSeen.value);
        }
        rows := rows[i := job];
      } else {
        var seen := if firstSeen.Some? then firstSeen.value else now;
        rows := rows + [Job(|rows|, key, facts, tier, run, now, seen, None, New, "")];
      }
    }

    method MarkScored(i: nat, score: Score, tier: Tier)
      requires i < |rows|
      modifies this`rows
      ensures rows == MarkedScored(old(rows), i, score, tier)
      ensures |rows| == |old(rows)| && forall j :: 0 <= j < |rows| && j != i ==> rows[j] == old(rows)[j]
      ensures rows[i].score == Some(score) && rows[i].tier == tier
      ensures SameUserColumns(old(rows)[i], rows[i]) && rows[i].key == old(rows)[i].key
      ensures rows[i].facts == old(rows)[i].facts && rows[i].sourceRun == old(rows)[i].sourceRun
              && rows[i].lastSeen == old(rows)[i].lastSeen
    {
      rows := rows[i := rows[i].(score := Some(score), tier := tier)];
    }

    // The status and its paired event, together.
    method SetStatus(i: nat, to: JobStatus, at: Time)
      requires i < |rows|
      modifies this
      ensures Value() == StatusSet(old(Value()), i, to, at)
      ensures |rows| == |old(rows)| && rows[i] == old(rows)[i].(status := to)
      ensures forall j :: 0 <= j < |rows| && j != i ==> rows[j] == old(rows)[j]
      ensures events == old(events) + [StatusEvent(old(rows)[i].id, old(rows)[i].status, to, at)]
    {
      var job := rows[i];
      rows := rows[i := job.(status := to)];
      events := events + [StatusEvent(job.id, job.status, to, at)];
    }

    // One row of the pass: whether it got a score, None when it raises.
    method RescoreRow(i: nat, weights: Weights) returns (scored: Option<bool>)
      requires i < |rows|
      modifies this`rows
      ensures scored == if Unrescorable(old(rows)[i], weights) then None else Some(IsRescored(old(rows)[i], weights))
      ensures scored.None? ==> rows == old(rows)
      ensures scored.Some? ==> rows == old(rows)[i := RescoredRow(old(rows)[i], weights)]
    {
      var row := rows[i];
      if row.score.None? {
        return Some(false);
      }
      var overall := ComputeOverall(RescorerScores(row.score.value.dims), weights);
      if overall.NotNumeric? {
        return None;
      }
      if overall.Scored? {
        rows := rows[i := row.(score := Some(row.score.value.(overall := Some(overall.hundredths))))];
      }
      return Some(overall.Scored?);
    }

    // How many rows got a score; None when a row made the pass raise.
    method Recompute(weights: Weights) returns (updated: Option<nat>)
      modifies this`rows
      ensures Value() == RescoredTable(old(Value()), weights)
      ensures updated.None? <==> exists i :: 0 <= i < |old(rows)| && Unrescorable(old(rows)[i], weights)
      ensures updated.Some? ==> updated.value == CountRescored(old(rows), weights)
    {
      var before := rows;
      var n, i := 0, 0;
      RescoringBegins(before, weights);
      while i < |before|
        invariant Rescoring(before, i, weights, rows, n)
      {
        RescoringMore(before, i, weights, rows, n);
        var scored := RescoreRow(i, weights);
        if scored.None? {
          rows := before;
          return None;
        }
        if scored.value {
          n := n + 1;
        }
        i := i + 1;
      }
      RescoringEnds(before, weights, rows, n);
      return Some(n);
    }

    // Raises (returns None) for a listing that has no dedup key, before any write.
    method WriteListing(s: ScoredListing, run: nat, now: Time) returns (inserted: Option<bool>)
      modifies this`rows
      ensures rows == WrittenIfKeyed(old(rows), s, run, now)
      ensures inserted == if s.listing.key.None? then None else Some(!Has(old(rows), s.listing.key.value))
      ensures inserted.None? ==> rows == old(rows)
      ensures inserted.Some? ==> exists i :: StoredAt(old(rows), rows, s, run, now, i)
                                             && inserted.value == (i == |old(rows)|)
    {
      if s.listing.key.None? {
        return None;
      }
      var key := s.listing.key.value;
      var existing := Find(rows, key) < |rows|;
      var firstSeen := if existing then None else Some(now);
      UpsertDiscovered(key, s.listing.facts, s.tier, run, now, firstSeen);
      UpsertedHas(old(rows), key, s.listing.facts, s.tier, run, now, firstSeen);
      var i := Find(rows, key);
      if s.score.Some? {
        MarkScored(i, s.score.value, s.tier);
      }
      WrittenIsStored(old(rows), s, run, now);
      assert StoredAt(old(rows), rows, s, run, now, Find(old(rows), key));
      return Some(!existing);
    }

    method WriteBatch(batch: seq<ScoredListing>, run: nat, now: Time) returns (outcome: WriteOutcome)
      modifies this`rows
      ensures rows == BatchWritten(old(rows), batch, run, now)
      ensures outcome.inserted + outcome.updated + outcome.failed == |batch|
      ensures outcome.inserted == |rows| - |old(rows)|
      ensures outcome.failed == Unkeyed(batch)
    {
      var inserted, updated, failed := 0, 0, 0;
      var i := 0;
      while i < |batch|
        invariant 0 <= i <= |batch|
        invariant rows == BatchWritten(old(rows), batch[..i], run, now)
        invariant inserted + updated + failed == i
        invariant inserted == |rows| - |old(rows)|
        invariant failed == Unkeyed(batch[..i])
      {
        assert batch[..i + 1][..i] == batch[..i];
        WrittenGrows(rows, batch[i], run, now);
        var result := WriteListing(batch[i], run, now);
        if result.None? {
          failed := failed + 1;
        } else if result.value {
          inserted := inserted + 1;
        } else {
          updated := updated + 1;
        }
        i := i + 1;
      }
      assert batch[..|batch|] == batch;
      return WriteOutcome(inserted, updated, failed);
    }
  }

  // The first i rows are rescored, n of them with a new score.
  ghost predicate Rescoring(before: seq<Job>, i: nat, weights: Weights, rows: seq<Job>, n: nat) {
    && i <= |before| && rows == RescoredRows(before[..i], weights) + before[i..]
    && (forall k :: 0 <= k < i ==> !Unrescorable(before[k], weights))
    && n == CountRescored(before[..i], weights)
  }

  lemma RescoringBegins(before: seq<Job>, weights: Weights)
    ensures Rescoring(before, 0, weights, before, 0)
  {
    assert before[..0] == [] && before[0..] == before;
  }

  lemma RescoringMore(before: seq<Job>, i: nat, weights: Weights, rows: seq<Job>, n: nat)
    requires Rescoring(before, i, weights, rows, n) && i < |before|
    ensures |rows| == |before| && rows[i] == before[i]
    ensures !Unrescorable(before[i], weights) ==>
              Rescoring(before, i + 1, weights, rows[i := RescoredRow(before[i], weights)],
                        n + if IsRescored(before[i], weights) then 1 else 0)
  {
    assert before[..i + 1][..i] == before[..i];
    assert RescoredRows(before[..i + 1], weights)
           == RescoredRows(before[..i], weights) + [RescoredRow(before[i], weights)];
  }

  lemma {:induction false} RescoringEnds(before: seq<Job>, weights: Weights, rows: seq<Job>, n: nat)
    requires Rescoring(before, |before|, weights, rows, n)
    ensures rows == RescoredRows(before, weights) && n == CountRescored(before, weights)
    ensures !exists i :: 0 <= i < |before| && Unrescorable(before[i], weights)
  {
    assert before[..|before|] == before;
  }

  function Unkeyed(batch: seq<ScoredListing>): nat {
    if batch == [] then 0
    else Unkeyed(batch[..|batch| - 1]) + if batch[|batch| - 1].listing.key.None? then 1 else 0
  }

  // The listings without a key, and the rows a rescoring gives a score, counted by
  // position.
  lemma {:induction false} UnkeyedExactly(batch: seq<ScoredListing>, p: ScoredListing -> bool)
    requires forall s :: p(s) <==> s.listing.key.None?
    ensures Unkeyed(batch) == |Keep(batch, p)| == |Positions(batch, p)|
  {
    KeepExactly(batch, p);
    if batch != [] {
      UnkeyedExactly(batch[..|batch| - 1], p);
    }
  }

  lemma {:induction false} CountRescoredExactly(rows: seq<Job>, weights: Weights, p: Job -> bool)
    requires forall row :: p(row) <==> IsRescored(row, weights)
    ensures CountRescored(rows, weights) == |Keep(rows, p)| == |Positions(rows, p)|
  {
    KeepExactly(rows, p);
    if rows != [] {
      CountRescoredExactly(rows[..|rows| - 1], weights, p);
    }
  }

  // --- one write ---------------------------------------------------------------------------------

  lemma {:induction false} FindIs(rows: seq<Job>, key: string, i: nat)
    requires i < |rows| && rows[i].key == key && forall j :: 0 <= j < i ==> rows[j].key != key
    ensures Find(rows, key) == i
  {
    assert Find(rows, key) <= i;
  }

  lemma {:induction false} UpsertedHas(rows: seq<Job>, key: string, facts: Facts, tier: Tier, run: nat, now: Time,
                                       firstSeen: Option<Time>)
    ensures var stored := Upserted(rows, key, facts, tier, run, now, firstSeen);
            Find(stored, key) == Find(rows, key) < |stored|
  {
    FindIs(Upserted(rows, key, facts, tier, run, now, firstSeen), key, Find(rows, key));
  }

  lemma WrittenGrows(rows: seq<Job>, s: ScoredListing, run: nat, now: Time)
    ensures |WrittenIfKeyed(rows, s, run, now)| ==
            |rows| + if s.listing.key.Some? && !Has(rows, s.listing.key.value) then 1 else 0
  {
  }

  ghost predicate UniqueKeys(rows: seq<Job>) {
    forall i, j :: 0 <= i < j < |rows| ==> rows[i].key != rows[j].key
  }

  ghost predicate IdsAreIndices(rows: seq<Job>) {
    forall i :: 0 <= i < |rows| ==> rows[i].id == i
  }

  // What discovery may do to a stored row: identity, first sight, status and
  // notes stay; the score stays unless the listing itself was scored.
  ghost predicate Preserved(before: Job, after: Job) {
    && after.id == before.id && after.key == before.key && after.firstSeen == before.firstSeen
    && after.status == before.status && after.notes == before.notes
  }

  lemma WrittenPreserves(rows: seq<Job>, s: ScoredListing, run: nat, now: Time)
    requires UniqueKeys(rows) && IdsAreIndices(rows)
    ensures var after := WrittenIfKeyed(rows, s, run, now);
            && UniqueKeys(after) && IdsAreIndices(after)
            && |rows| <= |after|
            && (forall i :: 0 <= i < |rows| ==> Preserved(rows[i], after[i]))
            && (forall i :: 0 <= i < |rows| && after[i].score != rows[i].score ==>
                  s.score.Some? && s.listing.key == Some(rows[i].key) && after[i].score == s.score)
            && (forall i :: |rows| <= i < |after| ==> after[i].firstSeen == now && after[i].status == New)
            && (s.listing.key.Some? ==> Has(after, s.listing.key.value))
  {
    if s.listing.key.Some? {
      var key := s.listing.key.value;
      var firstSeen := if Has(rows, key) then None else Some(now);
      UpsertedHas(rows, key, s.listing.facts, s.tier, run, now, firstSeen);
      FindIs(WrittenIfKeyed(rows, s, run, now), key, Find(rows, key));
    }
  }

  // --- any interleaving of discovery, scoring and the user -------------------------------------------

  datatype Op =
    | Write(batch: seq<ScoredListing>, run: nat, now: Time)
    | SetStatus(row: nat, to: JobStatus, at: Time)
    | SetNotes(row: nat, notes: string)
    | Rescore(weights: Weights)

  function Apply(t: Table, op: Op): Table {
    match op
    case Write(batch, run, now) => t.(rows := BatchWritten(t.rows, batch, run, now))
    case SetStatus(row, to, at) => if row < |t.rows| then StatusSet(t, row, to, at) else t
    case SetNotes(row, notes) => if row < |t.rows| then t.(rows := t.rows[row := t.rows[row].(notes := notes)]) else t
    case Rescore(weights) => RescoredTable(t, weights)
  }

  function Exec(t: Table, ops: seq<Op>): Table {
    if ops == [] then t else Apply(Exec(t, ops[..|ops| - 1]), ops[|ops| - 1])
  }

  ghost predicate Consistent(t: Table) {
    && UniqueKeys(t.rows) && IdsAreIndices(t.rows)
    && forall e :: e in t.events ==> e.job < |t.rows|
  }

  ghost predicate Extends(before: seq<Job>, after: seq<Job>) {
    && |before| <= |after|
    && forall i :: 0 <= i < |before| ==>
         after[i].id == before[i].id && after[i].key == before[i].key && after[i].firstSeen == before[i].firstSeen
  }

  lemma {:induction false} BatchPreserves(rows: seq<Job>, batch: seq<ScoredListing>, run: nat, now: Time)
    requires UniqueKeys(rows) && IdsAreIndices(rows)
    ensures var after := BatchWritten(rows, batch, run, now);
            && UniqueKeys(after) && IdsAreIndices(after) && |rows| <= |after|
            && (forall i :: 0 <= i < |rows| ==> Preserved(rows[i], after[i]))
            && (forall i :: |rows| <= i < |after| ==> after[i].firstSeen == now && after[i].status == New)
            && (forall i :: 0 <= i < |batch| && batch[i].listing.key.Some? ==> Has(after, batch[i].listing.key.value))
            && (forall i :: 0 <= i < |rows| && after[i].score != rows[i].score ==>
                  exists s :: s in batch && s.score.Some? && s.listing.key == Some(rows[i].key)
                              && after[i].score == s.score)
  {
    if batch != [] {
      var init, last := batch[..|batch| - 1], batch[|batch| - 1];
      var mid := BatchWritten(rows, init, run, now);
      BatchPreserves(rows, init, run, now);
      WrittenPreserves(mid, last, run, now);
      var after := BatchWritten(rows, batch, run, now);
      forall i | 0 <= i < |batch| && batch[i].listing.key.Some?
        ensures Has(after, batch[i].listing.key.value)
      {
        if i < |init| {
          KeyStays(mid, after, init[i].listing.key.value);
        }
      }
      forall i | 0 <= i < |rows| && after[i].score != rows[i].score
        ensures exists s :: s in batch && s.score.Some? && s.listing.key == Some(rows[i].key)
                            && after[i].score == s.score
      {
        if after[i].score == mid[i].score {
          var s :| s in init && s.score.Some? && s.listing.key == Some(rows[i].key) && mid[i].score == s.score;
          assert s in batch;
        } else {
          assert last in batch;
        }
      }
    }
  }

  // The last listing of a batch with this key, and the score of the last scored one.
  function LastOf(batch: seq<ScoredListing>, key: string): Option<ScoredListing> {
    if batch == [] then None
    else if batch[|batch| - 1].listing.key == Some(key) then Some(batch[|batch| - 1])
    else LastOf(batch[..|batch| - 1], key)
  }

  function LastScore(batch: seq<ScoredListing>, key: string): Option<Score> {
    if batch == [] then None
    else if batch[|batch| - 1].listing.key == Some(key) && batch[|batch| - 1].score.Some? then batch[|batch| - 1].score
    else LastScore(batch[..|batch| - 1], key)
  }

  // What the batch makes of row i.
  predicate BatchRow(rows: seq<Job>, batch: seq<ScoredListing>, run: nat, now: Time, i: nat, row: Job) {
    var last, score := LastOf(batch, row.key), LastScore(batch, row.key);
    && (last.None? ==> i < |rows| && row == rows[i])
    && (last.Some? ==>
          && Discovered(row, row.key, last.value.listing.facts, last.value.tier, run, now)
          && (i < |rows| ==>
                && rows[i].key == row.key && SameUserColumns(rows[i], row)
                && row.score == if score.Some? then score else rows[i].score)
          && (i >= |rows| ==> IsNewRow(row, i, now) && row.score == score))
  }

  // A batch stores, for each key, what its last listing says and the score of its
  // last scored one; rows of other keys stay as they were.
  lemma {:induction false} BatchIsStored(rows: seq<Job>, batch: seq<ScoredListing>, run: nat, now: Time)
    requires UniqueKeys(rows) && IdsAreIndices(rows)
    ensures var after := BatchWritten(rows, batch, run, now);
            forall i: nat :: i < |after| ==> BatchRow(rows, batch, run, now, i, after[i])
  {
    if batch != [] {
      var init, last := batch[..|batch| - 1], batch[|batch| - 1];
      var mid, after := BatchWritten(rows, init, run, now), BatchWritten(rows, batch, run, now);
      BatchIsStored(rows, init, run, now);
      BatchPreserves(rows, init, run, now);
      if last.listing.key.Some? {
        WrittenIsStored(mid, last, run, now);
        var w := Find(mid, last.listing.key.value);
        LastIsAmong(init, last.listing.key.value);
        forall i: nat | i < |after|
          ensures BatchRow(rows, batch, run, now, i, after[i])
        {
          if i < |mid| {
            assert BatchRow(rows, init, run, now, i, mid[i]);
            assert i != w ==> mid[i].key != last.listing.key.value;
          } else {
            NoneWritten(rows, init, run, now, last.listing.key.value);
          }
        }
      }
    }
  }

  // A key without a row has no listing in the batch.
  lemma {:induction false} NoneWritten(rows: seq<Job>, batch: seq<ScoredListing>, run: nat, now: Time, key: string)
    requires UniqueKeys(rows) && IdsAreIndices(rows) && !Has(BatchWritten(rows, batch, run, now), key)
    ensures LastOf(batch, key).None? && LastScore(batch, key).None?
  {
    BatchPreserves(rows, batch, run, now);
    LastIsAmong(batch, key);
  }

  lemma {:induction false} LastIsAmong(batch: seq<ScoredListing>, key: string)
    ensures LastOf(batch, key).Some? <==> exists i :: 0 <= i < |batch| && batch[i].listing.key == Some(key)
    ensures LastScore(batch, key).Some? <==>
            exists i :: 0 <= i < |batch| && batch[i].listing.key == Some(key) && batch[i].score.Some?
  {
    if batch != [] {
      var init := batch[..|batch| - 1];
      LastIsAmong(init, key);
      assert forall i :: 0 <= i < |init| ==> init[i] == batch[i];
    }
  }

  lemma KeyStays(before: seq<Job>, after: seq<Job>, key: string)
    requires |before| <= |after| && forall i :: 0 <= i < |before| ==> after[i].key == before[i].key
    requires Has(before, key)
    ensures Has(after, key)
  {
    FindIs(after, key, Find(before, key));
  }

  lemma {:induction false} HistoryPreserves(t: Table, ops: seq<Op>)
    requires Consistent(t)
    ensures Consistent(Exec(t, ops)) && Extends(t.rows, Exec(t, ops).rows)
    ensures t.events <= Exec(t, ops).events
  {
    if ops != [] {
      var init, last := ops[..|ops| - 1], ops[|ops| - 1];
      HistoryPreserves(t, init);
      if last.Write? {
        BatchPreserves(Exec(t, init).rows, last.batch, last.run, last.now);
      }
    }
  }

  ghost predicate NoScoredWrite(ops: seq<Op>, key: string) {
    forall k :: 0 <= k < |ops| ==> NoScoredWriteBy(ops[k], key)
  }

  ghost predicate NoScoredWriteBy(op: Op, key: string) {
    op.Write? ==> forall s :: s in op.batch ==> !(s.score.Some? && s.listing.key == Some(key))
  }

  predicate SameButOverall(before: Option<Score>, after: Option<Score>) {
    && (before.Some? <==> after.Some?)
    && (before.Some? ==> after.value == before.value.(overall := after.value.overall))
  }

  // `mark_scored` is not the only writer of a score: a rescoring changes it with
  // nothing written.
  lemma RescoringChangesAScore(facts: Facts)
    ensures var dims := [Entry(ROLE_FIT, Nested(Num(4.0)))];
            var row := Job(0, "k", facts, Full, 1, 0, 0, Some(Score(Some(300), dims, "", 1)), New, "");
            var even: Weights := map[ROLE_FIT := 1.0, SENIORITY_FIT := 1.0, EMPLOYER_FIT := 1.0, TRAJECTORY := 1.0];
            Apply(Table([row], []), Rescore(even)).rows[0].score != row.score
  {
    DimensionNamesDiffer();
    var dims := [Entry(ROLE_FIT, Nested(Num(4.0)))];
    var weights: Weights := map[ROLE_FIT := 1.0, SENIORITY_FIT := 1.0, EMPLOYER_FIT := 1.0, TRAJECTORY := 1.0];
    assert Lookup(dims, ROLE_FIT) == Num(4.0);
    LookupOther(dims[0], SENIORITY_FIT);
    LookupOther(dims[0], EMPLOYER_FIT);
    LookupOther(dims[0], TRAJECTORY);
    var none := Part(0.0, 0.0);
    assert Parts(weights, RescorerScores(dims)) == [Part(1.0, 4.0), none, none, none];
    SumOfFour(Part(1.0, 4.0), none, none, none);
    assert Rounded(4.0, 1.0) == 400;
  }

  // A rescoring changes the score of a row exactly when no row aborts the pass
  // and the stored dimensions give that row another overall score.
  lemma RescoringChangesExactly(t: Table, weights: Weights, i: nat)
    requires i < |t.rows|
    ensures Apply(t, Rescore(weights)).rows[i].score != t.rows[i].score <==>
            && (forall k :: 0 <= k < |t.rows| ==> !Unrescorable(t.rows[k], weights))
            && IsRescored(t.rows[i], weights)
            && ComputeOverall(RescorerScores(t.rows[i].score.value.dims), weights)
               != ScoredOr(t.rows[i].score.value.overall)
  {
  }

  function ScoredOr(overall: Option<int>): Overall {
    if overall.Some? then Scored(overall.value) else Unscoreable
  }

  // What one operation leaves of a row that it does not own.
  ghost predicate OwnersKept(before: Job, after: Job, op: Op, i: nat) {
    && after.key == before.key
    && (!(op.SetStatus? && op.row == i) ==> after.status == before.status)
    && (!(op.SetNotes? && op.row == i) ==> after.notes == before.notes)
    && (NoScoredWriteBy(op, before.key) ==> SameButOverall(before.score, after.score))
    && (NoScoredWriteBy(op, before.key) && !op.Rescore? ==> after.score == before.score)
  }

  lemma OwnersStep(t: Table, op: Op, i: nat)
    requires Consistent(t) && i < |t.rows|
    ensures i < |Apply(t, op).rows| && OwnersKept(t.rows[i], Apply(t, op).rows[i], op, i)
  {
    if op.Write? {
      BatchPreserves(t.rows, op.batch, op.run, op.now);
    }
  }

  // A row's status is moved by status calls for that row and by nothing else,
  // its notes by note edits, its score by the write of a scored listing with its
  // key or by a rescoring, which moves the overall score alone.
  lemma {:induction false} OnlyOwnersWrite(t: Table, ops: seq<Op>, i: nat)
    requires Consistent(t) && i < |t.rows|
    ensures i < |Exec(t, ops).rows| && Exec(t, ops).rows[i].key == t.rows[i].key
    ensures (forall k :: 0 <= k < |ops| ==> !(ops[k].SetStatus? && ops[k].row == i)) ==>
              Exec(t, ops).rows[i].status == t.rows[i].status
    ensures (forall k :: 0 <= k < |ops| ==> !(ops[k].SetNotes? && ops[k].row == i)) ==>
              Exec(t, ops).rows[i].notes == t.rows[i].notes
    ensures NoScoredWrite(ops, t.rows[i].key) ==> SameButOverall(t.rows[i].score, Exec(t, ops).rows[i].score)
    ensures NoScoredWrite(ops, t.rows[i].key) && (forall k :: 0 <= k < |ops| ==> !ops[k].Rescore?) ==>
              Exec(t, ops).rows[i].score == t.rows[i].score
  {
    if ops != [] {
      var init, last := ops[..|ops| - 1], ops[|ops| - 1];
      HistoryPreserves(t, init);
      OnlyOwnersWrite(t, init, i);
      OwnersStep(Exec(t, init), last, i);
      assert forall k :: 0 <= k < |init| ==> init[k] == ops[k];
      assert last == ops[|ops| - 1];
    }
  }

  // --- writing a batch again ---------------------------------------------------------------------------

  lemma {:induction false} NothingNew(rows: seq<Job>, batch: seq<ScoredListing>, run: nat, now: Time)
    requires UniqueKeys(rows) && IdsAreIndices(rows)
    requires forall i :: 0 <= i < |batch| && batch[i].listing.key.Some? ==> Has(rows, batch[i].listing.key.value)
    ensures |BatchWritten(rows, batch, run, now)| == |rows|
  {
    if batch != [] {
      var init, last := batch[..|batch| - 1], batch[|batch| - 1];
      assert forall i :: 0 <= i < |init| ==> init[i] == batch[i];
      NothingNew(rows, init, run, now);
      BatchPreserves(rows, init, run, now);
      WrittenGrows(BatchWritten(rows, init, run, now), last, run, now);
      if last.listing.key.Some? {
        assert last == batch[|batch| - 1];
        KeyStays(rows, BatchWritten(rows, init, run, now), last.listing.key.value);
      }
    }
  }

  // A batch written once inserts nothing when it is written again, in any later
  // run and whatever happened in between; every stored key stays where it was.
  lemma {:induction false} RewriteInsertsNothing(t: Table, batch: seq<ScoredListing>, run: nat, now: Time,
                                                 between: seq<Op>, run': nat, now': Time)
    requires Consistent(t)
    ensures var once := Exec(Apply(t, Write(batch, run, now)), between).rows;
            var again := BatchWritten(once, batch, run', now');
            |again| == |once| && Extends(once, again)
  {
    var written := Apply(t, Write(batch, run, now));
    BatchPreserves(t.rows, batch, run, now);
    HistoryPreserves(written, between);
    var once := Exec(written, between).rows;
    forall i | 0 <= i < |batch| && batch[i].listing.key.Some?
      ensures Has(once, batch[i].listing.key.value)
    {
      KeyStays(written.rows, once, batch[i].listing.key.value);
    }
    NothingNew(once, batch, run', now');
    BatchPreserves(once, batch, run', now');
  }

  // --- status history --------------------------------------------------------------------------------

  function EventsOf(events: seq<StatusEvent>, job: nat): seq<StatusEvent> {
    if events == [] then []
    else
      EventsOf(events[..|events| - 1], job)
      + if events[|events| - 1].job == job then [events[|events| - 1]] else []
  }

  // The events of a job lead from `start` to `end` without a gap.
  ghost predicate Chain(events: seq<StatusEvent>, start: JobStatus, end: JobStatus) {
    && (events == [] ==> start == end)
    && (events != [] ==> events[0].from == start && events[|events| - 1].to == end)
    && forall i :: 0 < i < |events| ==> events[i].from == events[i - 1].to
  }

  ghost predicate Chained(t: Table) {
    forall i :: 0 <= i < |t.rows| ==> Chain(EventsOf(t.events, i), New, t.rows[i].status)
  }

  lemma {:induction false} NoEvents(events: seq<StatusEvent>, job: nat)
    requires forall e :: e in events ==> e.job != job
    ensures EventsOf(events, job) == []
  {
    if events != [] {
      NoEvents(events[..|events| - 1], job);
      assert events[|events| - 1] in events;
    }
  }

  lemma StatusSetIsChained(t: Table, row: nat, to: JobStatus, at: Time)
    requires Consistent(t) && Chained(t) && row < |t.rows|
    ensures Chained(StatusSet(t, row, to, at))
  {
    var after := StatusSet(t, row, to, at);
    assert after.events[..|after.events| - 1] == t.events;
    forall i | 0 <= i < |after.rows|
      ensures Chain(EventsOf(after.events, i), New, after.rows[i].status)
    {
      var history := EventsOf(t.events, i);
      assert Chain(history, New, t.rows[i].status);
      if i != row {
        assert EventsOf(after.events, i) == history;
      }
    }
  }

  lemma BatchIsChained(t: Table, batch: seq<ScoredListing>, run: nat, now: Time)
    requires Consistent(t) && Chained(t)
    ensures Chained(Apply(t, Write(batch, run, now)))
  {
    var after := Apply(t, Write(batch, run, now));
    BatchPreserves(t.rows, batch, run, now);
    forall i | 0 <= i < |after.rows|
      ensures Chain(EventsOf(after.events, i), New, after.rows[i].status)
    {
      if i >= |t.rows| {
        NoEvents(t.events, i);
      } else {
        assert Chain(EventsOf(t.events, i), New, t.rows[i].status);
      }
    }
  }

  // Through any history every job's events form a chain that ends in its status.
  lemma {:induction false} HistoryIsChained(t: Table, ops: seq<Op>)
    requires Consistent(t) && Chained(t)
    ensures Chained(Exec(t, ops))
  {
    if ops != [] {
      var init, last := ops[..|ops| - 1], ops[|ops| - 1];
      var mid := Exec(t, init);
      HistoryIsChained(t, init);
      HistoryPreserves(t, init);
      match last
      case Write(batch, run, now) => BatchIsChained(mid, batch, run, now);
      case SetStatus(row, to, at) => if row < |mid.rows| { StatusSetIsChained(mid, row, to, at); }
      case Rescore(weights) =>
        assert forall i :: 0 <= i < |mid.rows| ==> Exec(t, ops).rows[i].status == mid.rows[i].status;
      case SetNotes(row, notes) =>
        assert forall i :: 0 <= i < |mid.rows| ==> Exec(t, ops).rows[i].status == mid.rows[i].status;
    }
  }
}
