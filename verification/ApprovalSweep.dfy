/** The sweep that finalizes lapsed approval requests, in bounded batches ordered by deadline. */
module ApprovalSweep {
  import opened Wrappers
  import opened Blocking

  const SWEEP_BATCH: nat := 200

  type Id = nat

  datatype Row = Row(status: Status, requestExpiresAt: Option<Instant>, requestExpired: bool)

  type Rows = map<Id, Row>

  /** A request that is still open although its deadline was at or before `now`. */
  predicate Lapsed(rows: Rows, id: Id, now: Instant) {
    id in rows && rows[id].status.Pending? && rows[id].requestExpiresAt.Some? && rows[id].requestExpiresAt.value <= now
  }

  function Deadline(rows: Rows, id: Id): Instant
    requires id in rows && rows[id].requestExpiresAt.Some?
  {
    rows[id].requestExpiresAt.value
  }

  // ---- One request ----

  /** The three outcomes of a transaction, and that of one that throws. */
  datatype Outcome = Transitioned | AlreadyExpired | NotExpirable | Threw

  function ExpireOutcome(rows: Rows, id: Id, now: Instant): Outcome {
    if id !in rows then NotExpirable
    else if rows[id].status.Cancelled? && rows[id].requestExpired then AlreadyExpired
    else if Lapsed(rows, id, now) then Transitioned
    else NotExpirable
  }

  function Finalized(row: Row): Row { row.(status := Cancelled, requestExpired := true) }

  function Expire(rows: Rows, id: Id, now: Instant): Rows {
    if Lapsed(rows, id, now) then rows[id := Finalized(rows[id])] else rows
  }

  /** The deadline itself already counts, as it does for the slot: an open request has lapsed exactly when it no longer
      blocks. */
  lemma LapsedIffNotBlocking(rows: Rows, id: Id, now: Instant)
    requires id in rows && rows[id].status.Pending?
    ensures Lapsed(rows, id, now) <==> !IsBlockingSlot(rows[id].status, rows[id].requestExpiresAt, now)
  {
  }

  /** A transition is what a lapsed request gets and nothing else does. It cancels the request, keeps its deadline and
      every other row, and is final: a later call at any instant finds it expired and changes nothing. */
  lemma TransitionIsFinal(rows: Rows, id: Id, now: Instant, later: Instant)
    ensures ExpireOutcome(rows, id, now) == Transitioned <==> Lapsed(rows, id, now)
    ensures !Lapsed(rows, id, now) ==> Expire(rows, id, now) == rows
    ensures Lapsed(rows, id, now) ==>
      var after := Expire(rows, id, now);
      && after == rows[id := rows[id].(status := after[id].status, requestExpired := after[id].requestExpired)]
      && after[id].status == Cancelled
      && ExpireOutcome(after, id, later) == AlreadyExpired && Expire(after, id, later) == after
  {
  }

  /** The outcomes of a call: nothing is expired twice, and what is gone or open is not expired at all. */
  lemma OutcomeMeans(rows: Rows, id: Id, now: Instant)
    ensures ExpireOutcome(rows, id, now) == AlreadyExpired <==>
            id in rows && rows[id].status == Cancelled && rows[id].requestExpired
    ensures id !in rows ==> ExpireOutcome(rows, id, now) == NotExpirable
    ensures id in rows && IsBlockingSlot(rows[id].status, rows[id].requestExpiresAt, now)
            ==> ExpireOutcome(rows, id, now) == NotExpirable
  {
  }

  // ---- A pass ----

  /** A result of the candidate query; rows with equal deadlines may come in any order. */
  ghost predicate IsBatch(rows: Rows, now: Instant, batch: seq<Id>) {
    && |batch| <= SWEEP_BATCH
    && (forall i, j :: 0 <= i < j < |batch| ==> batch[i] != batch[j])
    && (forall i :: 0 <= i < |batch| ==> Lapsed(rows, batch[i], now))
    && (|batch| < SWEEP_BATCH ==> forall id :: Lapsed(rows, id, now) ==> id in batch)
    && (forall id, i :: Lapsed(rows, id, now) && id !in batch && 0 <= i < |batch| ==>
        Deadline(rows, batch[i]) <= Deadline(rows, id))
  }

  /** What a pass leaves when exactly the transactions of the rows `failing` throw. */
  function AfterSweep(rows: Rows, batch: seq<Id>, now: Instant, failing: set<Id>): Rows {
    map id | id in rows ::
        if id in batch && id !in failing && Lapsed(rows, id, now) then Finalized(rows[id]) else rows[id]
  }

  /** The rows of the batch that the pass finalizes, in order. */
  function Succeeding(batch: seq<Id>, failing: set<Id>): (done: seq<Id>)
    ensures |done| <= |batch|
  {
    if batch == [] then []
    else
      Succeeding(batch[..|batch| - 1], failing) +
      (if batch[|batch| - 1] in failing then [] else [batch[|batch| - 1]])
  }

  // ---- A pass among other transactions ----

  /** What the other transactions do to the rows just before each candidate's own transaction. */
  type Others = seq<Rows -> Rows>

  /** The rows after `k` candidates of the pass. */
  function RowsAfter(rows: Rows, others: Others, batch: seq<Id>, now: Instant, failing: set<Id>, k: nat): Rows
    requires k <= |batch| <= |others|
    decreases k, 0
  {
    if k == 0 then rows
    else
      var seen := RowsSeen(rows, others, batch, now, failing, k - 1);
      if batch[k - 1] in failing then seen else Expire(seen, batch[k - 1], now)
  }

  /** The rows that the transaction of candidate `k` sees. */
  function RowsSeen(rows: Rows, others: Others, batch: seq<Id>, now: Instant, failing: set<Id>, k: nat): Rows
    requires k < |batch| <= |others|
    decreases k, 1
  {
    others[k](RowsAfter(rows, others, batch, now, failing, k))
  }

  function ResultOf(rows: Rows, others: Others, batch: seq<Id>, now: Instant, failing: set<Id>, k: nat): Outcome
    requires k < |batch| <= |others|
  {
    if batch[k] in failing then Threw else ExpireOutcome(RowsSeen(rows, others, batch, now, failing, k), batch[k], now)
  }

  /** What happened to each of the first `k` candidates. */
  function Results(rows: Rows, others: Others, batch: seq<Id>, now: Instant, failing: set<Id>,
                   k: nat): (results: seq<Outcome>)
    requires k <= |batch| <= |others|
    ensures |results| == k
  {
    if k == 0 then []
    else
      Results(rows, others, batch, now, failing, k - 1) +
      [ResultOf(rows, others, batch, now, failing, k - 1)]
  }

  /** How many candidates came out this way. */
  function CountOf(results: seq<Outcome>, result: Outcome): (n: nat)
    ensures n <= |results|
  {
    if results == [] then 0
    else CountOf(results[..|results| - 1], result) + (if results[|results| - 1] == result then 1 else 0)
  }

  /** The candidates that were finalized, in order. */
  function Finalizations(batch: seq<Id>, results: seq<Outcome>): seq<Id>
    requires |results| <= |batch|
  {
    if results == [] then []
    else
      var k := |results| - 1;
      Finalizations(batch, results[..k]) + (if results[k] == Transitioned then [batch[k]] else [])
  }

  datatype Summary = Summary(scanned: nat, expired: nat, alreadyExpired: nat, skipped: nat)

  function SummaryOf(scanned: nat, results: seq<Outcome>): Summary {
    Summary(scanned, CountOf(results, Transitioned), CountOf(results, AlreadyExpired),
            CountOf(results, NotExpirable) + CountOf(results, Threw))
  }

  /** The counters account for every candidate. */
  lemma {:induction false} CountersAddUp(results: seq<Outcome>)
    ensures var s := SummaryOf(|results|, results); s.expired + s.alreadyExpired + s.skipped == s.scanned
  {
    if results != [] {
      CountersAddUp(results[..|results| - 1]);
    }
  }

  /** Every row counted as expired got a notice, and no other. */
  lemma {:induction false} ExpiredAreNoticed(batch: seq<Id>, results: seq<Outcome>)
    requires |results| <= |batch|
    ensures |Finalizations(batch, results)| == CountOf(results, Transitioned)
  {
    if results != [] {
      ExpiredAreNoticed(batch, results[..|results| - 1]);
    }
  }

  function Tally(s: Summary, result: Outcome): Summary {
    match result
    case Transitioned => s.(expired := s.expired + 1)
    case AlreadyExpired => s.(alreadyExpired := s.alreadyExpired + 1)
    case NotExpirable | Threw => s.(skipped := s.skipped + 1)
  }

  lemma CountMore(results: seq<Outcome>, last: Outcome, result: Outcome)
    ensures CountOf(results + [last], result) == CountOf(results, result) + (if last == result then 1 else 0)
  {
    assert (results + [last])[..|results|] == results;
  }

  lemma TallyCounts(scanned: nat, results: seq<Outcome>, result: Outcome)
    ensures SummaryOf(scanned, results + [result]) == Tally(SummaryOf(scanned, results), result)
  {
    CountMore(results, result, Transitioned);
    CountMore(results, result, AlreadyExpired);
    CountMore(results, result, NotExpirable);
    CountMore(results, result, Threw);
  }

  class Sweeper {
    var rows: Rows
    /** The audit rows and notices, one per transition. */
    var notices: seq<Id>

    constructor (rows: Rows)
      ensures this.rows == rows && notices == []
    {
      this.rows, notices := rows, [];
    }

    method ExpireApprovalRequest(id: Id, now: Instant) returns (outcome: Outcome)
      modifies this
      ensures outcome == ExpireOutcome(old(rows), id, now) && rows == Expire(old(rows), id, now)
      ensures notices == old(notices) + (if outcome == Transitioned then [id] else [])
    {
      if id !in rows {
        return NotExpirable;
      }
      var locked := rows[id];
      if locked.status.Cancelled? && locked.requestExpired {
        return AlreadyExpired;
      }
      if !(locked.status.Pending? && locked.requestExpiresAt.Some? && locked.requestExpiresAt.value <= now) {
        return NotExpirable;
      }
      rows := rows[id := Finalized(locked)];
      notices := notices + [id];
      return Transitioned;
    }

    /** One candidate of the pass, whatever became of it since the query; a throwing transaction leaves it standing. */
    method SweepRow(id: Id, now: Instant, throws: bool) returns (result: Outcome)
      modifies this
      ensures result == if throws then Threw else ExpireOutcome(old(rows), id, now)
      ensures rows == if throws then old(rows) else Expire(old(rows), id, now)
      ensures notices == old(notices) + (if result == Transitioned then [id] else [])
    {
      if throws {
        return Threw;
      }
      result := ExpireApprovalRequest(id, now);
    }

    /** `batch` is what the candidate query answered, `failing` the rows whose transaction throws. */
    method SweepExpiredApprovalRequests(batch: seq<Id>, now: Instant, failing: set<Id>, others: Others)
        returns (summary: Summary)
      requires |others| == |batch|
      modifies this
      ensures rows == RowsAfter(old(rows), others, batch, now, failing, |batch|)
      ensures var results := Results(old(rows), others, batch, now, failing, |batch|);
        && summary == SummaryOf(|batch|, results)
        && summary.expired + summary.alreadyExpired + summary.skipped == summary.scanned
        && notices == old(notices) + Finalizations(batch, results)
        && |notices| == |old(notices)| + summary.expired
    {
      ghost var results: seq<Outcome> := [];
      summary := Summary(|batch|, 0, 0, 0);
      for k := 0 to |batch|
        invariant rows == RowsAfter(old(rows), others, batch, now, failing, k)
        invariant results == Results(old(rows), others, batch, now, failing, k)
        invariant summary == SummaryOf(|batch|, results)
        invariant notices == old(notices) + Finalizations(batch, results)
      {
        rows := others[k](rows);
        var result := SweepRow(batch[k], now, batch[k] in failing);
        TallyCounts(|batch|, results, result);
        FinalizationsOf(batch, results, result);
        summary, results := Tally(summary, result), results + [result];
      }
      CountersAddUp(results);
      ExpiredAreNoticed(batch, results);
    }
  }

  ghost predicate Quiet(others: Others) {
    forall i :: 0 <= i < |others| ==> forall r :: others[i](r) == r
  }

  /** Handling candidate `k` of an undisturbed pass. */
  ghost predicate OneMore(rows: Rows, batch: seq<Id>, k: nat, now: Instant, failing: set<Id>)
    requires k < |batch|
  {
    var mid := AfterSweep(rows, batch[..k], now, failing);
    AfterSweep(rows, batch[..k + 1], now, failing) == if batch[k] in failing then mid else Expire(mid, batch[k], now)
  }

  lemma {:induction false} QuietSteps(rows: Rows, others: Others, batch: seq<Id>, now: Instant, failing: set<Id>,
                                      k: nat)
    requires k <= |batch| == |others| && Quiet(others) && AfterSweep(rows, batch[..0], now, failing) == rows
    requires forall i: nat {:trigger OneMore(rows, batch, i, now, failing)} ::
               i < |batch| ==> OneMore(rows, batch, i, now, failing)
    ensures RowsAfter(rows, others, batch, now, failing, k) == AfterSweep(rows, batch[..k], now, failing)
  {
    if k > 0 {
      QuietSteps(rows, others, batch, now, failing, k - 1);
      assert OneMore(rows, batch, k - 1, now, failing);
      QuietStep(rows, others, batch, now, failing, k - 1, AfterSweep(rows, batch[..k - 1], now, failing));
    }
  }

  /** When nobody interferes, a pass leaves what `AfterSweep` says. */
  lemma QuietSweep(rows: Rows, others: Others, batch: seq<Id>, now: Instant, failing: set<Id>, k: nat)
    requires IsBatch(rows, now, batch) && k <= |batch| == |others| && Quiet(others)
    ensures RowsAfter(rows, others, batch, now, failing, k) == AfterSweep(rows, batch[..k], now, failing)
  {
    forall i: nat | i < |batch|
      ensures OneMore(rows, batch, i, now, failing)
    {
      SweepOneMore(rows, batch, i, now, failing);
    }
    NothingSwept(rows, now, failing);
    assert batch[..0] == [];
    QuietSteps(rows, others, batch, now, failing, k);
  }

  lemma QuietStep(rows: Rows, others: Others, batch: seq<Id>, now: Instant, failing: set<Id>, k: nat, mid: Rows)
    requires k < |batch| == |others| && Quiet(others) && RowsAfter(rows, others, batch, now, failing, k) == mid
    ensures RowsSeen(rows, others, batch, now, failing, k) == mid
    ensures RowsAfter(rows, others, batch, now, failing, k + 1)
         == if batch[k] in failing then mid else Expire(mid, batch[k], now)
  {
    NobodyActs(others, k, mid);
  }

  lemma NobodyActs(others: Others, k: nat, rows: Rows)
    requires Quiet(others) && k < |others|
    ensures others[k](rows) == rows
  {
  }

  lemma NothingSwept(rows: Rows, now: Instant, failing: set<Id>)
    ensures AfterSweep(rows, [], now, failing) == rows
  {
  }

  /** Then every candidate is finalized or throws. */
  lemma QuietResult(rows: Rows, others: Others, batch: seq<Id>, now: Instant, failing: set<Id>, k: nat)
    requires IsBatch(rows, now, batch) && k < |batch| == |others| && Quiet(others)
    ensures ResultOf(rows, others, batch, now, failing, k) == if batch[k] in failing then Threw else Transitioned
  {
    QuietSweep(rows, others, batch, now, failing, k);
    SweepOneMore(rows, batch, k, now, failing);
  }

  lemma {:induction false} ResultAt(rows: Rows, others: Others, batch: seq<Id>, now: Instant, failing: set<Id>, k: nat,
                                    i: nat)
    requires i < k <= |batch| <= |others|
    ensures Results(rows, others, batch, now, failing, k)[i] == ResultOf(rows, others, batch, now, failing, i)
    decreases k
  {
    if i < k - 1 {
      ResultAt(rows, others, batch, now, failing, k - 1, i);
    }
  }

  lemma {:induction false} AllFinalizedOrThrew(batch: seq<Id>, results: seq<Outcome>, failing: set<Id>)
    requires |results| <= |batch|
    requires forall i :: 0 <= i < |results| ==> results[i] == if batch[i] in failing then Threw else Transitioned
    ensures Finalizations(batch, results) == Succeeding(batch[..|results|], failing) &&
              CountOf(results, AlreadyExpired) == 0
  {
    if results != [] {
      var k := |results| - 1;
      AllFinalizedOrThrew(batch, results[..k], failing);
      assert batch[..k + 1][..k] == batch[..k];
    }
  }

  lemma QuietResults(rows: Rows, others: Others, batch: seq<Id>, now: Instant, failing: set<Id>)
    requires IsBatch(rows, now, batch) && |batch| == |others| && Quiet(others)
    ensures var results := Results(rows, others, batch, now, failing, |batch|);
      && Finalizations(batch, results) == Succeeding(batch, failing)
      && SummaryOf(|batch|, results)
         == Summary(|batch|, |Succeeding(batch, failing)|, 0, |batch| - |Succeeding(batch, failing)|)
  {
    var results := Results(rows, others, batch, now, failing, |batch|);
    forall i | 0 <= i < |batch|
      ensures results[i] == if batch[i] in failing then Threw else Transitioned
    {
      ResultAt(rows, others, batch, now, failing, |batch|, i);
      QuietResult(rows, others, batch, now, failing, i);
    }
    AllFinalizedOrThrew(batch, results, failing);
    assert batch[..|batch|] == batch;
    QuietSummary(batch, results);
  }

  lemma QuietSummary(batch: seq<Id>, results: seq<Outcome>)
    requires |results| == |batch| && CountOf(results, AlreadyExpired) == 0
    ensures var n := |Finalizations(batch, results)|;
      n <= |batch| && SummaryOf(|batch|, results) == Summary(|batch|, n, 0, |batch| - n)
  {
    ExpiredAreNoticed(batch, results);
    CountersAddUp(results);
  }

  lemma FinalizationsOf(batch: seq<Id>, results: seq<Outcome>, result: Outcome)
    requires |results| < |batch|
    ensures Finalizations(batch, results + [result])
            == Finalizations(batch, results) + (if result == Transitioned then [batch[|results|]] else [])
  {
    assert (results + [result])[..|results|] == results;
  }

  lemma SweepOneMore(rows: Rows, batch: seq<Id>, k: nat, now: Instant, failing: set<Id>)
    requires IsBatch(rows, now, batch) && k < |batch|
    ensures var mid := AfterSweep(rows, batch[..k], now, failing);
      && Lapsed(mid, batch[k], now) && ExpireOutcome(mid, batch[k], now) == Transitioned
      && AfterSweep(rows, batch[..k + 1], now, failing) == if batch[k] in failing then mid
          else Expire(mid, batch[k], now)
  {
    assert batch[..k + 1] == batch[..k] + [batch[k]];
  }

  // ---- A sweep never changes who blocks ----

  /** A transaction of a sweep changes the status of no row but its own candidate's, and cancels that one only when it
      has lapsed. */
  lemma SweepOnlyCancelsLapsed(rows: Rows, others: Others, batch: seq<Id>, now: Instant, failing: set<Id>, k: nat,
                               id: Id)
    requires k < |batch| <= |others| && id in RowsSeen(rows, others, batch, now, failing, k)
    ensures var seen, after := RowsSeen(rows, others, batch, now, failing, k),
                               RowsAfter(rows, others, batch, now, failing, k + 1);
      && id in after && after[id].requestExpiresAt == seen[id].requestExpiresAt
      && (if id == batch[k] && id !in failing && seen[id].status == Pending
             && !IsBlockingSlot(Pending, seen[id].requestExpiresAt, now)
          then after[id].status == Cancelled else after[id] == seen[id])
  {
  }

  predicate Blocks(rows: Rows, id: Id, t: Instant) {
    id in rows && IsBlockingSlot(rows[id].status, rows[id].requestExpiresAt, t)
  }

  /** From the sweep's instant on, each of its transactions leaves every row blocking exactly when it did. */
  lemma SweepKeepsBlocking(rows: Rows, others: Others, batch: seq<Id>, now: Instant, failing: set<Id>, k: nat, id: Id,
                           t: Instant)
    requires now <= t && k < |batch| <= |others|
    ensures Blocks(RowsAfter(rows, others, batch, now, failing, k + 1), id, t)
            <==> Blocks(RowsSeen(rows, others, batch, now, failing, k), id, t)
  {
  }

  /** A pass nobody interferes with changes blocking exactly before the deadlines of the rows it finalized: the sweep
      must not run with a clock ahead of its readers. */
  lemma SweepMayUnblockEarlierOnly(rows: Rows, batch: seq<Id>, now: Instant, failing: set<Id>, id: Id, t: Instant)
    ensures Blocks(rows, id, t) && !Blocks(AfterSweep(rows, batch, now, failing), id, t)
            <==> id in batch && id !in failing && Lapsed(rows, id, now) && t < Deadline(rows, id)
  {
  }

  // ---- Every lapsed request is expired in the end ----

  /**
   * One pass and whatever other transactions do up to the next one: the rows of some batch, but for
   * those that fail in it, are no longer lapsed, and no request becomes lapsed with a deadline that had
   * already passed (a new request is given a deadline in the future).
   */
  ghost predicate Pass(before: Rows, after: Rows, now: Instant, bad: set<Id>) {
    && (exists batch :: IsBatch(before, now, batch) && Handled(after, now, bad, batch))
    && (forall id, d :: d <= now && Lapsed(after, id, d) ==> Lapsed(before, id, d))
  }

  ghost predicate Handled(after: Rows, now: Instant, bad: set<Id>, batch: seq<Id>) {
    forall i :: 0 <= i < |batch| && batch[i] !in bad ==> !Lapsed(after, batch[i], now)
  }

  /** Other transactions give no request a deadline that has passed. */
  ghost predicate NoBacklog(other: Rows -> Rows, now: Instant) {
    forall r, id, d :: d <= now && Lapsed(other(r), id, d) ==> Lapsed(r, id, d)
  }

  lemma {:induction false} LapsedOnlyShrinks(rows: Rows, others: Others, batch: seq<Id>, now: Instant, failing: set<Id>,
                                            j: nat, k: nat, id: Id, d: Instant)
    requires j <= k <= |batch| <= |others| && d <= now
    requires forall i :: 0 <= i < |others| ==> NoBacklog(others[i], now)
    requires Lapsed(RowsAfter(rows, others, batch, now, failing, k), id, d)
    ensures Lapsed(RowsAfter(rows, others, batch, now, failing, j), id, d)
    decreases k - j
  {
    if j < k {
      assert NoBacklog(others[k - 1], now);
      assert Lapsed(RowsSeen(rows, others, batch, now, failing, k - 1), id, d);
      LapsedOnlyShrinks(rows, others, batch, now, failing, j, k - 1, id, d);
    }
  }

  /** The sweep method is such a pass, whatever other transactions do between its candidates. */
  lemma SweepIsPass(rows: Rows, others: Others, batch: seq<Id>, now: Instant, bad: set<Id>)
    requires IsBatch(rows, now, batch) && |batch| <= |others|
    requires forall i :: 0 <= i < |others| ==> NoBacklog(others[i], now)
    ensures Pass(rows, RowsAfter(rows, others, batch, now, bad, |batch|), now, bad)
  {
    var after := RowsAfter(rows, others, batch, now, bad, |batch|);
    forall i | 0 <= i < |batch| && batch[i] !in bad
      ensures !Lapsed(after, batch[i], now)
    {
      if Lapsed(after, batch[i], now) {
        LapsedOnlyShrinks(rows, others, batch, now, bad, i + 1, |batch|, batch[i], now);
      }
    }
    forall id, d | d <= now && Lapsed(after, id, d)
      ensures Lapsed(rows, id, d)
    {
      LapsedOnlyShrinks(rows, others, batch, now, bad, 0, |batch|, id, d);
    }
    assert Handled(after, now, bad, batch);
  }

  /** The lapsed requests that may be chosen before one with deadline `d`. */
  ghost function Ahead(rows: Rows, d: Instant): set<Id> {
    set id | id in rows && Lapsed(rows, id, d)
  }

  /** What a pass that leaves `r` lapsed takes at least from the requests ahead of it. */
  function Taken(bad: set<Id>, r: Id): nat {
    if r in bad || |bad| >= SWEEP_BATCH then 0 else SWEEP_BATCH - |bad|
  }

  /** A pass that leaves `r` lapsed found it failing, or took a full batch from the requests ahead of it. */
  lemma PassShrinksAhead(before: Rows, after: Rows, now: Instant, bad: set<Id>, r: Id, d: Instant)
    requires Pass(before, after, now, bad) && d <= now
    requires Lapsed(before, r, now) && Deadline(before, r) == d
    requires Lapsed(after, r, now)
    ensures |Ahead(after, d)| + Taken(bad, r) <= |Ahead(before, d)|
  {
    assert Ahead(after, d) <= Ahead(before, d);
    if Taken(bad, r) > 0 {
      FullBatchIsTaken(before, after, now, bad, r, d);
    } else {
      CountDisjoint({}, Ahead(after, d), Ahead(before, d));
    }
  }

  lemma FullBatchIsTaken(before: Rows, after: Rows, now: Instant, bad: set<Id>, r: Id, d: Instant)
    requires Pass(before, after, now, bad) && d <= now && r !in bad
    requires Lapsed(before, r, now) && Deadline(before, r) == d
    requires Lapsed(after, r, now)
    ensures |Ahead(after, d)| + SWEEP_BATCH - |bad| <= |Ahead(before, d)|
  {
    var batch :| IsBatch(before, now, batch) && Handled(after, now, bad, batch);
    assert r !in batch && |batch| == SWEEP_BATCH;
    var chosen := set i | 0 <= i < |batch| :: batch[i];
    DistinctCount(batch);
    assert Ahead(after, d) <= Ahead(before, d);
    assert chosen <= Ahead(before, d);
    var done := chosen - bad;
    assert done !! Ahead(after, d) by {
      forall id | id in done
        ensures id !in Ahead(after, d)
      {
        assert !Lapsed(after, id, now);
      }
    }
    CountMinus(chosen, bad);
    CountDisjoint(done, Ahead(after, d), Ahead(before, d));
  }

  lemma {:induction false} DistinctCount(s: seq<Id>)
    requires forall i, j :: 0 <= i < j < |s| ==> s[i] != s[j]
    ensures |set i | 0 <= i < |s| :: s[i]| == |s|
  {
    if s != [] {
      var most := s[..|s| - 1];
      DistinctCount(most);
      assert (set i | 0 <= i < |s| :: s[i]) == (set i | 0 <= i < |most| :: most[i]) + {s[|s| - 1]};
    }
  }

  lemma CountMinus<T>(a: set<T>, b: set<T>)
    ensures |a - b| >= |a| - |b|
  {
    assert a == (a - b) + (a * b);
    assert b == (b - a) + (a * b);
  }

  lemma CountDisjoint<T>(a: set<T>, b: set<T>, whole: set<T>)
    requires a !! b && a <= whole && b <= whole
    ensures |a| + |b| <= |whole|
  {
    assert whole == (whole - (a + b)) + (a + b);
  }

  /** Passes one after another, each with the rows that fail in it; the clock never goes back. */
  ghost predicate Passes(states: seq<Rows>, nows: seq<Instant>, bads: seq<set<Id>>) {
    && |states| == |nows| + 1 && |bads| == |nows|
    && (forall k :: 0 <= k < |nows| ==> Pass(states[k], states[k + 1], nows[k], bads[k]))
    && (forall j, k :: 0 <= j <= k < |nows| ==> nows[j] <= nows[k])
  }

  /** A request that is gone does not come back with a deadline that has passed, nor does its deadline move. */
  lemma {:induction false} LapsedWasLapsed(states: seq<Rows>, nows: seq<Instant>, bads: seq<set<Id>>, r: Id,
                                           d: Instant, k: nat)
    requires Passes(states, nows, bads) && k <= |nows|
    requires |nows| > 0 ==> d <= nows[0]
    requires Lapsed(states[0], r, d) ==> Deadline(states[0], r) == d
    requires Lapsed(states[k], r, d)
    ensures forall j :: 0 <= j <= k ==> Lapsed(states[j], r, d) && Deadline(states[j], r) == d
  {
    if k > 0 {
      assert Pass(states[k - 1], states[k], nows[k - 1], bads[k - 1]) && d <= nows[k - 1];
      LapsedWasLapsed(states, nows, bads, r, d, k - 1);
      assert Deadline(states[k], r) < d ==> Lapsed(states[k - 1], r, Deadline(states[k], r));
    }
  }

  /** What the first `k` passes took. A pass counts for 200 less the rows that failed in it, and for nothing when the
      request itself was among them. */
  function TakenBy(bads: seq<set<Id>>, r: Id, k: nat): nat
    requires k <= |bads|
  {
    if k == 0 then 0 else TakenBy(bads, r, k - 1) + Taken(bads[k - 1], r)
  }

  lemma {:induction false} AheadAfterPasses(states: seq<Rows>, nows: seq<Instant>, bads: seq<set<Id>>, r: Id,
                                            d: Instant, k: nat)
    requires Passes(states, nows, bads) && k <= |nows|
    requires |nows| > 0 ==> d <= nows[0]
    requires forall j :: 0 <= j <= k ==> Lapsed(states[j], r, d) && Deadline(states[j], r) == d
    ensures |Ahead(states[k], d)| + TakenBy(bads, r, k) <= |Ahead(states[0], d)|
  {
    if k > 0 {
      AheadAfterPasses(states, nows, bads, r, d, k - 1);
      PassShrinksAhead(states[k - 1], states[k], nows[k - 1], bads[k - 1], r, d);
    }
  }

  /** A lapsed request is gone as soon as the passes have taken more rows than were ahead of it, whichever rows fail
      in which pass and however many new requests lapse meanwhile. */
  lemma LapsedRequestIsExpired(states: seq<Rows>, nows: seq<Instant>, bads: seq<set<Id>>, r: Id, d: Instant)
    requires Passes(states, nows, bads)
    requires Lapsed(states[0], r, d) && Deadline(states[0], r) == d
    requires |nows| > 0 && d <= nows[0]
    requires TakenBy(bads, r, |nows|) > |Ahead(states[0], d)|
    ensures !Lapsed(states[|nows|], r, d)
  {
    if Lapsed(states[|nows|], r, d) {
      LapsedWasLapsed(states, nows, bads, r, d, |nows|);
      AheadAfterPasses(states, nows, bads, r, d, |nows|);
    }
  }

  lemma {:induction false} FewFailuresTakeMuch(bads: seq<set<Id>>, r: Id, most: nat, k: nat)
    requires k <= |bads| && most < SWEEP_BATCH
    requires forall i :: 0 <= i < k ==> r !in bads[i] && |bads[i]| <= most
    ensures TakenBy(bads, r, k) >= k * (SWEEP_BATCH - most)
  {
    if k > 0 {
      FewFailuresTakeMuch(bads, r, most, k - 1);
    }
  }

  /**
   * With fewer failures in each pass than the batch holds, every request that never fails itself is gone
   * after a number of passes fixed by the requests ahead of it at the start.
   */
  lemma LapsedRequestIsExpiredWithin(states: seq<Rows>, nows: seq<Instant>, bads: seq<set<Id>>, r: Id, d: Instant,
                                     most: nat)
    requires Passes(states, nows, bads) && most < 200
    requires forall k :: 0 <= k < |bads| ==> r !in bads[k] && |bads[k]| <= most
    requires Lapsed(states[0], r, d) && Deadline(states[0], r) == d
    requires |nows| > 0 && d <= nows[0]
    requires |nows| >= |Ahead(states[0], d)| / (200 - most) + 1
    ensures !Lapsed(states[|nows|], r, d)
  {
    FewFailuresTakeMuch(bads, r, most, |nows|);
    Enough(|Ahead(states[0], d)|, SWEEP_BATCH - most, |nows|);
    LapsedRequestIsExpired(states, nows, bads, r, d);
  }

  lemma Enough(a: nat, step: nat, n: nat)
    requires step > 0 && n >= a / step + 1
    ensures n * step > a
  {
    assert (a / step + 1) * step > a;
    assert n * step >= (a / step + 1) * step;
  }

  /**
   * The limit is exact: with as many failing rows as the batch holds, passes can repeat forever
   * without touching a lapsed request behind them.
   */
  lemma TwoHundredFailuresStarve(now: Instant) returns (rows: Rows, bad: set<Id>, r: Id)
    requires now >= SWEEP_BATCH
    ensures |bad| == 200 && r !in bad && Lapsed(rows, r, now)
    ensures Pass(rows, rows, now, bad)
  {
    rows := map id: Id | id <= SWEEP_BATCH :: Row(Pending, Some(id), false);
    r := SWEEP_BATCH;
    var batch: seq<Id> := seq(SWEEP_BATCH, i => i);
    bad := set i | 0 <= i < |batch| :: batch[i];
    DistinctCount(batch);
    assert forall i :: 0 <= i < |batch| ==> batch[i] == i;
    forall id: Id | id < SWEEP_BATCH
      ensures id in batch
    {
      assert batch[id] == id;
    }
    assert IsBatch(rows, now, batch) && Handled(rows, now, bad, batch);
  }
}
