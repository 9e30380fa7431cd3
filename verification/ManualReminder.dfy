/**
 * Staff-triggered reminders for one appointment: a look at recent deliveries, an insert-or-conflict on
 * a five-minute bucket, one provider call, and the record of its outcome. Requests interleave freely.
 */
module ManualReminder {
  import opened Wrappers

  const RAPID_WINDOW_MS := 120_000
  const BUCKET_MS := 300_000

  datatype Status = Queued | Accepted | Scheduled | Sending | Sent | Delivered | Read | Undelivered | Failed | Canceled

  predicate IsActive(s: Status) { s.Queued? || s.Accepted? || s.Sending? || s.Sent? || s.Delivered? }

  /** The dedupe key: the bucket of the request instant, or a fresh id for a forced resend. */
  datatype Key = Bucket(index: int) | Resend(id: nat)

  datatype Row = Row(createdAt: int, status: Status)

  type Rows = map<Key, Row>

  /** `Math.floor` of a quotient: Euclidean division by a positive number. */
  function BucketOf(now: int): int { now / BUCKET_MS }

  /** The query for a recent delivery that is not known to have failed. */
  predicate HasRecent(rows: Rows, now: int) {
    exists k :: k in rows && rows[k].createdAt >= now - RAPID_WINDOW_MS && IsActive(rows[k].status)
  }

  datatype Request =
    | Started(now: int, force: bool)
    | Checked(now: int, force: bool)
    | Inserted(now: int, key: Key)
    | Called(key: Key)

  datatype Call = Call(key: Key, now: int)

  datatype State = State(clock: int, rows: Rows, requests: map<nat, Request>, calls: seq<Call>)

  datatype Action =
    | Begin(r: nat, force: bool)
    | CheckRecent(r: nat)
    | Insert(r: nat, uuid: nat)
    | CallProvider(r: nat)
    | Record(r: nat, status: Status)
    | Crash(r: nat)
    | Callback(key: Key, status: Status)
    | Tick(ms: nat)

  function Now(s: State, r: nat, q: Request): State { s.(requests := s.requests[r := q]) }

  function Done(s: State, r: nat): State { s.(requests := s.requests - {r}) }

  function WithStatus(rows: Rows, key: Key, status: Status): Rows {
    if key in rows then rows[key := rows[key].(status := status)] else rows
  }

  function KeyFor(now: int, force: bool, uuid: nat): Key {
    if force then Resend(uuid) else Bucket(BucketOf(now))
  }

  /** One statement or one provider call; an action that does not apply changes nothing. */
  function Step(s: State, a: Action): State {
    match a
    case Tick(ms) => s.(clock := s.clock + ms)
    case Callback(key, status) => s.(rows := WithStatus(s.rows, key, status))
    case Begin(r, force) => if r in s.requests then s else Now(s, r, Started(s.clock, force))
    case Crash(r) => Done(s, r)
    case CheckRecent(r) =>
      if r in s.requests && s.requests[r].Started? then
        var q := s.requests[r];
        if !q.force && HasRecent(s.rows, q.now) then Done(s, r) else Now(s, r, Checked(q.now, q.force))
      else s
    case Insert(r, uuid) =>
      if r in s.requests && s.requests[r].Checked? then
        var q := s.requests[r];
        var key := KeyFor(q.now, q.force, uuid);
        if key in s.rows then Done(s, r)
        else Now(s.(rows := s.rows[key := Row(s.clock, Queued)]), r, Inserted(q.now, key))
      else s
    case CallProvider(r) =>
      if r in s.requests && s.requests[r].Inserted?
      then Now(s.(calls := s.calls + [Call(s.requests[r].key, s.requests[r].now)]), r, Called(s.requests[r].key))
      else s
    case Record(r, status) =>
      if r in s.requests && s.requests[r].Called?
      then Done(s.(rows := WithStatus(s.rows, s.requests[r].key, status)), r)
      else s
  }

  function Run(s: State, actions: seq<Action>): State
    decreases |actions|
  {
    if actions == [] then s else Step(Run(s, actions[..|actions| - 1]), actions[|actions| - 1])
  }

  predicate Init(s: State) { s.rows == map[] && s.requests == map[] && s.calls == [] }

  // ---- At most one call per key, in any interleaving ----

  ghost predicate Uncalled(calls: seq<Call>, key: Key) {
    forall i :: 0 <= i < |calls| ==> calls[i].key != key
  }

  ghost predicate KeyMatches(key: Key, now: int) { key.Bucket? ==> key.index == BucketOf(now) }

  ghost predicate CallsOk(rows: Rows, calls: seq<Call>) {
    && (forall i :: 0 <= i < |calls| ==> calls[i].key in rows && KeyMatches(calls[i].key, calls[i].now))
    && (forall i, j :: 0 <= i < j < |calls| ==> calls[i].key != calls[j].key)
  }

  ghost predicate SameInserted(p: Request, q: Request) { p.Inserted? && q.Inserted? && p.key == q.key }

  ghost predicate Inv(s: State) {
    && CallsOk(s.rows, s.calls)
    && (forall r :: r in s.requests && s.requests[r].Inserted? ==>
          && s.requests[r].key in s.rows
          && KeyMatches(s.requests[r].key, s.requests[r].now)
          && Uncalled(s.calls, s.requests[r].key))
    && (forall r, q :: r in s.requests && q in s.requests && SameInserted(s.requests[r], s.requests[q]) ==> r == q)
  }

  lemma {:induction false} RunKeeps(s0: State, actions: seq<Action>)
    requires Init(s0)
    ensures Inv(Run(s0, actions))
    decreases |actions|
  {
    if actions != [] {
      RunKeeps(s0, actions[..|actions| - 1]);
      StepKeeps(Run(s0, actions[..|actions| - 1]), actions[|actions| - 1]);
    }
  }

  lemma StepKeeps(s: State, a: Action)
    requires Inv(s)
    ensures Inv(Step(s, a))
  {
    if a.CallProvider? && a.r in s.requests && s.requests[a.r].Inserted? {
      var s' := Step(s, a);
      var key := s.requests[a.r].key;
      assert s'.calls[..|s.calls|] == s.calls;
      forall r | r in s'.requests && s'.requests[r].Inserted?
        ensures Uncalled(s'.calls, s'.requests[r].key)
      {
        assert r != a.r && s.requests[r].key != key;
      }
    } else if a.Insert? && a.r in s.requests && s.requests[a.r].Checked? {
      var key := KeyFor(s.requests[a.r].now, s.requests[a.r].force, a.uuid);
      assert key !in s.rows ==> Uncalled(s.calls, key);
    }
  }

  /** Two unforced calls for one bucket are one call. */
  lemma OneCallPerBucket(s0: State, actions: seq<Action>, i: nat, j: nat)
    requires Init(s0)
    requires var calls := Run(s0, actions).calls;
      && i < |calls| && j < |calls| && calls[i].key.Bucket? && calls[j].key.Bucket?
      && BucketOf(calls[i].now) == BucketOf(calls[j].now)
    ensures i == j
  {
    RunKeeps(s0, actions);
    var calls := Run(s0, actions).calls;
    assert calls[i].key == calls[j].key;
  }

  // ---- Hence few calls in any window ----

  /** The buckets of the unforced calls requested in [from, from + length). */
  function BucketsIn(calls: seq<Call>, from: int, length: nat): seq<int> {
    if calls == [] then []
    else
      var last := calls[|calls| - 1];
      BucketsIn(calls[..|calls| - 1], from, length) +
      (if last.key.Bucket? && from <= last.now < from + length then [last.key.index] else [])
  }

  ghost predicate Distinct(b: seq<int>) { forall i, j :: 0 <= i < j < |b| ==> b[i] != b[j] }

  ghost predicate Within(b: seq<int>, lo: int, hi: int) { forall i :: 0 <= i < |b| ==> lo <= b[i] <= hi }

  lemma {:induction false} BucketsAreDistinct(rows: Rows, calls: seq<Call>, from: int, length: nat)
    requires CallsOk(rows, calls)
    ensures var b := BucketsIn(calls, from, length);
      && Distinct(b) && Within(b, BucketOf(from), BucketOf(from + length - 1))
      && forall x :: x in b ==> exists k :: 0 <= k < |calls| && calls[k].key == Bucket(x)
  {
    if calls != [] {
      var most, last := calls[..|calls| - 1], calls[|calls| - 1];
      BucketsAreDistinct(rows, most, from, length);
      var b := BucketsIn(most, from, length);
      forall x | x in b
        ensures exists k :: 0 <= k < |calls| && calls[k].key == Bucket(x)
        ensures Bucket(x) != last.key
      {
        var k :| 0 <= k < |most| && most[k].key == Bucket(x);
        assert calls[k].key == Bucket(x);
      }
      assert last.key in rows && KeyMatches(last.key, last.now);
      if last.key.Bucket? && from <= last.now < from + length {
        assert BucketOf(from) <= last.key.index <= BucketOf(from + length - 1);
        assert calls[|calls| - 1].key == Bucket(last.key.index);
        assert forall i :: 0 <= i < |b| ==> b[i] in b;
      }
    }
  }

  /** Distinct whole numbers in [lo, hi] are at most hi - lo + 1 many. */
  lemma {:induction false} DistinctFit(b: seq<int>, lo: int, hi: int)
    requires lo <= hi + 1 && Distinct(b) && Within(b, lo, hi)
    ensures |b| <= hi - lo + 1
    decreases hi - lo + 1
  {
    if |b| > 0 {
      assert lo <= b[0] <= hi;
      if k :| 0 <= k < |b| && b[k] == hi {
        var others := b[..k] + b[k + 1..];
        assert forall i :: 0 <= i < |others| ==> others[i] == b[if i < k then i else i + 1];
        DistinctFit(others, lo, hi - 1);
      } else {
        DistinctFit(b, lo, hi - 1);
      }
    }
  }

  /** In any window of length L at most ceil(L / 5 min) + 1 unforced calls were requested. */
  lemma FewCallsInWindow(s0: State, actions: seq<Action>, from: int, length: nat)
    requires Init(s0)
    ensures |BucketsIn(Run(s0, actions).calls, from, length)| <= (length + 299_999) / 300_000 + 1
  {
    RunKeeps(s0, actions);
    var s := Run(s0, actions);
    BucketsAreDistinct(s.rows, s.calls, from, length);
    DistinctFit(BucketsIn(s.calls, from, length), BucketOf(from), BucketOf(from + length - 1));
  }

  // ---- Requests one at a time ----

  /** A request run from start to end without another one in between. */
  function Serve(s: State, r: nat, status: Status): State {
    Step(Step(Step(Step(Step(s, Begin(r, false)), CheckRecent(r)), Insert(r, 0)), CallProvider(r)), Record(r, status))
  }

  /** The bucket is free and no active delivery is recent. */
  predicate MayCall(s: State) {
    Bucket(BucketOf(s.clock)) !in s.rows && !HasRecent(s.rows, s.clock)
  }

  /** A lone request calls the provider, once, if and only if it may; else it leaves everything alone. */
  lemma LoneRequest(s: State, r: nat, status: Status)
    requires r !in s.requests
    ensures Serve(s, r, status) ==
            if MayCall(s) then s.(rows := s.rows[Bucket(BucketOf(s.clock)) := Row(s.clock, status)],
                                  calls := s.calls + [Call(Bucket(BucketOf(s.clock)), s.clock)])
            else s
  {
    if !MayCall(s) {
      RefusedRequest(s, r, status);
    } else {
      AcceptedRequest(s, r, status);
    }
  }

  lemma RefusedRequest(s: State, r: nat, status: Status)
    requires r !in s.requests && !MayCall(s)
    ensures Serve(s, r, status) == s
  {
    var checked := Step(Step(s, Begin(r, false)), CheckRecent(r));
    if HasRecent(s.rows, s.clock) {
      DoneForgets(s, r, Started(s.clock, false));
      assert checked == s;
    } else {
      DoneForgets(s, r, Checked(s.clock, false));
      assert checked == Now(s, r, Checked(s.clock, false));
    }
    var inserted := Step(checked, Insert(r, 0));
    assert inserted == s && Step(inserted, CallProvider(r)) == s;
  }

  lemma AcceptedRequest(s: State, r: nat, status: Status)
    requires r !in s.requests && MayCall(s)
    ensures Serve(s, r, status) ==
            s.(rows := s.rows[Bucket(BucketOf(s.clock)) := Row(s.clock, status)],
               calls := s.calls + [Call(Bucket(BucketOf(s.clock)), s.clock)])
  {
    var now, key := s.clock, Bucket(BucketOf(s.clock));
    var checked := Step(Step(s, Begin(r, false)), CheckRecent(r));
    assert checked == Now(s, r, Checked(now, false));
    var queued := s.(rows := s.rows[key := Row(now, Queued)]);
    var inserted := Step(checked, Insert(r, 0));
    assert inserted == Now(queued, r, Inserted(now, key));
    var called := queued.(calls := s.calls + [Call(key, now)]);
    assert Step(inserted, CallProvider(r)) == Now(called, r, Called(key));
    DoneForgets(called.(rows := s.rows[key := Row(now, status)]), r, Called(key));
  }

  lemma DoneForgets(s: State, r: nat, q: Request)
    requires r !in s.requests
    ensures Done(Now(s, r, q), r) == s
  {
  }

  /** A forced request, with an identifier of its own, always calls. */
  lemma LoneResend(s: State, r: nat, uuid: nat, status: Status)
    requires r !in s.requests && Resend(uuid) !in s.rows
    ensures Step(Step(Step(Step(Step(s, Begin(r, true)), CheckRecent(r)), Insert(r, uuid)), CallProvider(r)),
                 Record(r, status))
         == s.(rows := s.rows[Resend(uuid) := Row(s.clock, status)], calls := s.calls + [Call(Resend(uuid), s.clock)])
  {
    var now, key := s.clock, Resend(uuid);
    var checked := Step(Step(s, Begin(r, true)), CheckRecent(r));
    assert checked == Now(s, r, Checked(now, true));
    var queued := s.(rows := s.rows[key := Row(now, Queued)]);
    assert Step(checked, Insert(r, uuid)) == Now(queued, r, Inserted(now, key));
    var called := queued.(calls := s.calls + [Call(key, now)]);
    assert Step(Now(queued, r, Inserted(now, key)), CallProvider(r)) == Now(called, r, Called(key));
    DoneForgets(called.(rows := s.rows[key := Row(now, status)]), r, Called(key));
  }

  /** A row is stamped with the instant it is inserted at, queued, and is never stamped again. */
  lemma RowsAreStamped(s: State, a: Action, key: Key)
    requires key in Step(s, a).rows
    ensures key !in s.rows ==> a.Insert? && Step(s, a).rows[key] == Row(s.clock, Queued)
    ensures key in s.rows ==> Step(s, a).rows[key].createdAt == s.rows[key].createdAt
  {
  }

  predicate HasFailed(s: Status) { s.Undelivered? || s.Failed? || s.Canceled? }

  /**
   * So a second lone call within two minutes of an earlier call's row finds that row no longer active. The
   * first message had failed, then, unless it was read or is still scheduled: those two states count as neither.
   */
  lemma SecondCallNeedsInactiveFirst(s0: State, actions: seq<Action>, i: nat, r: nat, status: Status)
    requires Init(s0)
    requires var s := Run(s0, actions);
      && r !in s.requests && i < |s.calls|
      && (s.calls[i].key in s.rows ==> s.rows[s.calls[i].key].createdAt >= s.clock - 120_000)
      && Serve(s, r, status).calls != s.calls
    ensures var s := Run(s0, actions);
      && s.calls[i].key in s.rows && !IsActive(s.rows[s.calls[i].key].status)
      && (HasFailed(s.rows[s.calls[i].key].status) <==> s.rows[s.calls[i].key].status !in {Read, Scheduled})
  {
    RunKeeps(s0, actions);
    LoneRequest(Run(s0, actions), r, status);
  }

  /**
   * Not active is weaker than failed: a first message that the customer has read does not stop a
   * second call one minute later, when a bucket boundary lies in between.
   */
  lemma ReadMessageDoesNotBlock()
    ensures var s0 := State(299_000, map[], map[], []);
      var s1 := Step(Step(Serve(s0, 0, Sent), Callback(Bucket(0), Read)), Tick(60_000));
      Serve(s1, 1, Sent).calls == [Call(Bucket(0), 299_000), Call(Bucket(1), 359_000)]
  {
    var s0 := State(299_000, map[], map[], []);
    LoneRequest(s0, 0, Sent);
    var served := State(299_000, map[Bucket(0) := Row(299_000, Sent)], map[], [Call(Bucket(0), 299_000)]);
    assert Serve(s0, 0, Sent) == served;
    ReadThenTick(served);
  }

  lemma ReadThenTick(served: State)
    requires served == State(299_000, map[Bucket(0) := Row(299_000, Sent)], map[], [Call(Bucket(0), 299_000)])
    ensures Serve(Step(Step(served, Callback(Bucket(0), Read)), Tick(60_000)), 1, Sent).calls
            == [Call(Bucket(0), 299_000), Call(Bucket(1), 359_000)]
  {
    var s1 := State(359_000, map[Bucket(0) := Row(299_000, Read)], map[], [Call(Bucket(0), 299_000)]);
    assert Step(Step(served, Callback(Bucket(0), Read)), Tick(60_000)) == s1;
    assert MayCall(s1);
    LoneRequest(s1, 1, Sent);
  }

  // ---- The function itself, statement by statement ----

  datatype Outcome = NotEligible | Duplicate | SentNow | ProviderFailure

  class DeliveryStore {
    var clock: int
    var rows: Rows
    var calls: seq<Call>

    constructor (clock: int)
      ensures this.clock == clock && rows == map[] && calls == []
    {
      this.clock, rows, calls := clock, map[], [];
    }

    /** The store as the state of a machine in which no request is under way. */
    ghost function Abs(): State
      reads this
    {
      State(clock, rows, map[], calls)
    }

    /** `answer` is the status the provider call leads to; a failed one is an exception of the call. */
    method SendSmartAppointmentReminder(eligible: bool, force: bool, uuid: nat, answer: Status)
        returns (outcome: Outcome)
      requires Resend(uuid) !in rows
      modifies this`rows, this`calls
      ensures !eligible ==> outcome == NotEligible && Abs() == old(Abs())
      ensures eligible && !force ==> Abs() == Serve(old(Abs()), 0, answer)
      ensures eligible && force ==>
                && calls == old(calls) + [Call(Resend(uuid), clock)]
                && rows == old(rows)[Resend(uuid) := Row(clock, answer)]
      ensures outcome == NotEligible <==> !eligible
      ensures outcome == SentNow <==> calls != old(calls) && !answer.Failed?
      ensures calls == old(calls) || |calls| == |old(calls)| + 1
      ensures outcome == Duplicate <==>
                && eligible && !force && calls == old(calls)
                && (|| old(HasRecent(rows, clock))
                    || (Bucket(BucketOf(clock)) in rows && IsActive(rows[Bucket(BucketOf(clock))].status)))
    {
      if !eligible {
        return NotEligible;
      }
      LoneRequest(Abs(), 0, answer);
      var now := clock;
      if !force && HasRecent(rows, now) {
        return Duplicate;
      }
      var key := KeyFor(now, force, uuid);
      if key in rows {
        return if IsActive(rows[key].status) then Duplicate else ProviderFailure;
      }
      rows := rows[key := Row(clock, Queued)];
      calls := calls + [Call(key, now)];
      rows := WithStatus(rows, key, answer);
      assert rows == old(rows)[key := Row(clock, answer)];
      return if answer.Failed? then ProviderFailure else SentNow;
    }
  }
}
