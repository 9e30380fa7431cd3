/** The protected runner of migration 0062: a coordinator lock around a journal read and an atomic apply. */
module MigrationRunner {
  import opened Wrappers

  const HASH_0061 := "ec2ea523735b0a45b964ed78f6f56327c9019678c29e6e994f161a8b2a4f7731"
  const CREATED_0061: int := 1_784_950_000_006
  const OBJECTS_0061: nat := 19
  const CREATED_0062: int := 1_784_950_000_007

  datatype Entry = Entry(hash: string, createdAt: int)

  /** The migration ledger (absent before the first migration), the 0061 schema objects, and the ready
      capability rows. */
  datatype Database = Database(ledger: Option<seq<Entry>>, objects: nat, readyRows: nat)

  function Rows(db: Database): seq<Entry> { db.ledger.Or([]) }

  function Count(rows: seq<Entry>, createdAt: int): nat {
    if rows == [] then 0
    else Count(rows[..|rows| - 1], createdAt) + (if rows[|rows| - 1].createdAt == createdAt then 1 else 0)
  }

  function CountExact(rows: seq<Entry>, e: Entry): nat {
    if rows == [] then 0
    else CountExact(rows[..|rows| - 1], e) + (if rows[|rows| - 1] == e then 1 else 0)
  }

  // ---- The checks ----

  predicate Check0061(db: Database) {
    if db.ledger.None? then db.objects == 0
    else if Count(Rows(db), CREATED_0061) == 0 then db.objects == 0
    else
      && Count(Rows(db), CREATED_0061) == 1 && CountExact(Rows(db), Entry(HASH_0061, CREATED_0061)) == 1
      && db.objects == OBJECTS_0061
  }

  predicate Check0062(db: Database, hash: string) {
    && Count(Rows(db), CREATED_0062) == 1 && CountExact(Rows(db), Entry(hash, CREATED_0062)) == 1
    && db.readyRows == 1
  }

  /** No other row has this row's creation time. */
  ghost predicate AloneAt(rows: seq<Entry>, i: int)
    requires 0 <= i < |rows|
  {
    forall k :: 0 <= k < |rows| && k != i ==> rows[k].createdAt != rows[i].createdAt
  }

  /** The migration is recorded once, with its hash, and no other row has its creation time. */
  ghost predicate RecordedOnce(rows: seq<Entry>, e: Entry) {
    exists i :: 0 <= i < |rows| && rows[i] == e && AloneAt(rows, i)
  }

  ghost predicate NotRecorded(rows: seq<Entry>, createdAt: int) {
    forall k :: 0 <= k < |rows| ==> rows[k].createdAt != createdAt
  }

  lemma {:induction false} CountIsZeroIff(rows: seq<Entry>, createdAt: int)
    ensures Count(rows, createdAt) == 0 <==> NotRecorded(rows, createdAt)
  {
    if rows != [] {
      var most := rows[..|rows| - 1];
      CountIsZeroIff(most, createdAt);
      assert forall k :: 0 <= k < |most| ==> most[k] == rows[k];
    }
  }

  lemma {:induction false} CountsAreOneIff(rows: seq<Entry>, e: Entry)
    ensures Count(rows, e.createdAt) == 1 && CountExact(rows, e) == 1 <==> RecordedOnce(rows, e)
    ensures CountExact(rows, e) <= Count(rows, e.createdAt)
  {
    if rows != [] {
      var most, n := rows[..|rows| - 1], |rows| - 1;
      CountsAreOneIff(most, e);
      CountIsZeroIff(most, e.createdAt);
      assert forall k :: 0 <= k < n ==> most[k] == rows[k];
      if rows[n].createdAt != e.createdAt {
        RecordedBefore(rows, e);
      }
    }
  }

  lemma RecordedBefore(rows: seq<Entry>, e: Entry)
    requires rows != [] && rows[|rows| - 1].createdAt != e.createdAt
    ensures RecordedOnce(rows, e) <==> RecordedOnce(rows[..|rows| - 1], e)
  {
    var most := rows[..|rows| - 1];
    assert forall k :: 0 <= k < |most| ==> most[k] == rows[k];
    if RecordedOnce(most, e) {
      var i :| 0 <= i < |most| && most[i] == e && AloneAt(most, i);
      assert rows[i] == e && AloneAt(rows, i);
    }
    if RecordedOnce(rows, e) {
      var i :| 0 <= i < |rows| && rows[i] == e && AloneAt(rows, i);
      assert most[i] == e && AloneAt(most, i);
    }
  }

  /** What the two checks establish: 0061 is recorded once with its hash and all 19 of its objects, or not at all and
      without any; 0062 is recorded once with its hash and has one ready row. */
  lemma ChecksMean(db: Database, hash: string)
    ensures Check0061(db) <==>
      if NotRecorded(Rows(db), CREATED_0061) then db.objects == 0
      else RecordedOnce(Rows(db), Entry(HASH_0061, CREATED_0061)) && db.objects == 19
    ensures Check0062(db, hash) <==> RecordedOnce(Rows(db), Entry(hash, CREATED_0062)) && db.readyRows == 1
  {
    CountIsZeroIff(Rows(db), CREATED_0061);
    CountsAreOneIff(Rows(db), Entry(HASH_0061, CREATED_0061));
    CountsAreOneIff(Rows(db), Entry(hash, CREATED_0062));
  }

  // ---- The migrator: a journal read, then one atomic transaction ----

  function LastCreatedAt(rows: seq<Entry>): Option<int> {
    if rows == [] then None
    else
      var last := LastCreatedAt(rows[..|rows| - 1]);
      var c := rows[|rows| - 1].createdAt;
      if last.Some? && last.value >= c then last else Some(c)
  }

  predicate IsPending(e: Entry, last: Option<int>) { last.None? || e.createdAt > last.value }

  function Pending(files: seq<Entry>, last: Option<int>): seq<Entry> {
    if files == [] then []
    else
      Pending(files[..|files| - 1], last) +
      (if IsPending(files[|files| - 1], last) then [files[|files| - 1]] else [])
  }

  function Apply(db: Database, files: seq<Entry>, last: Option<int>): Database {
    var pending := Pending(files, last);
    Database(Some(Rows(db) + pending),
             if Count(pending, CREATED_0061) > 0 then OBJECTS_0061 else db.objects,
             if Count(pending, CREATED_0062) > 0 then 1 else db.readyRows)
  }

  /** The repository history that was verified: one entry per creation time, 0062 with its hash. */
  ghost predicate ValidHistory(files: seq<Entry>, hash: string) {
    && NoDuplicates(files)
    && Entry(hash, CREATED_0062) in files
  }

  ghost predicate NoDuplicates(rows: seq<Entry>) {
    forall c :: Count(rows, c) <= 1
  }

  // ---- Counting ----

  lemma {:induction false} CountConcat(s: seq<Entry>, t: seq<Entry>, c: int)
    ensures Count(s + t, c) == Count(s, c) + Count(t, c)
  {
    if t == [] {
      assert s + t == s;
    } else {
      var all, most := s + t, t[..|t| - 1];
      CountConcat(s, most, c);
      assert all[..|all| - 1] == s + most && all[|all| - 1] == t[|t| - 1];
    }
  }

  lemma {:induction false} CountExactConcat(s: seq<Entry>, t: seq<Entry>, e: Entry)
    ensures CountExact(s + t, e) == CountExact(s, e) + CountExact(t, e)
  {
    if t == [] {
      assert s + t == s;
    } else {
      var all, most := s + t, t[..|t| - 1];
      CountExactConcat(s, most, e);
      assert all[..|all| - 1] == s + most && all[|all| - 1] == t[|t| - 1];
    }
  }

  lemma CountOne(e: Entry, c: int)
    ensures Count([e], c) == if e.createdAt == c then 1 else 0
  {
    assert [e][..0] == [];
  }

  lemma {:induction false} CountPending(files: seq<Entry>, last: Option<int>, c: int)
    ensures Count(Pending(files, last), c) == if last.None? || c > last.value then Count(files, c) else 0
  {
    if files != [] {
      var most, e := files[..|files| - 1], files[|files| - 1];
      var found := Pending(most, last);
      CountPending(most, last, c);
      CountConcat(found, [e], c);
      CountOne(e, c);
      assert found + [] == found;
      assert Pending(files, last) == if IsPending(e, last) then found + [e] else found;
    }
  }

  lemma {:induction false} LastIsMax(rows: seq<Entry>, c: int)
    requires LastCreatedAt(rows).None? || c > LastCreatedAt(rows).value
    ensures Count(rows, c) == 0
  {
    if rows != [] {
      LastIsMax(rows[..|rows| - 1], c);
    }
  }

  /** A migration applied from a fresh journal read duplicates nothing. */
  lemma FreshApplyKeepsNoDuplicates(files: seq<Entry>, rows: seq<Entry>)
    requires NoDuplicates(files) && NoDuplicates(rows)
    ensures NoDuplicates(rows + Pending(files, LastCreatedAt(rows)))
  {
    var last := LastCreatedAt(rows);
    forall c
      ensures Count(rows + Pending(files, last), c) <= 1
    {
      CountConcat(rows, Pending(files, last), c);
      CountPending(files, last, c);
      if last.None? || c > last.value {
        LastIsMax(rows, c);
      }
    }
  }

  /**
   * A migration applied from any journal read writes a second 0062 row if and only if the ledger holds
   * one already and the read is from before it: exactly what the coordinator lock excludes.
   */
  lemma StaleApplyDuplicatesIff(files: seq<Entry>, hash: string, rows: seq<Entry>, last: Option<int>)
    requires ValidHistory(files, hash) && NoDuplicates(rows)
    ensures Count(rows + Pending(files, last), CREATED_0062) == 2
            <==> Count(rows, CREATED_0062) == 1 && (last.None? || last.value < CREATED_0062)
  {
    CountConcat(rows, Pending(files, last), CREATED_0062);
    CountPending(files, last, CREATED_0062);
    CountMember(files, Entry(hash, CREATED_0062));
  }

  lemma {:induction false} ExactPending(files: seq<Entry>, last: Option<int>, e: Entry)
    requires last.None? || e.createdAt > last.value
    ensures CountExact(Pending(files, last), e) == CountExact(files, e)
  {
    if files != [] {
      var most, f := files[..|files| - 1], files[|files| - 1];
      var found := Pending(most, last);
      ExactPending(most, last, e);
      CountExactConcat(found, [f], e);
      assert [f][..0] == [];
      assert Pending(files, last) == if IsPending(f, last) then found + [f] else found;
      assert CountExact([f], e) == if f == e then 1 else 0;
    }
  }

  lemma {:induction false} LastIsRecorded(rows: seq<Entry>)
    requires LastCreatedAt(rows).Some?
    ensures Count(rows, LastCreatedAt(rows).value) >= 1
  {
    if LastCreatedAt(rows[..|rows| - 1]).Some? {
      LastIsRecorded(rows[..|rows| - 1]);
    }
  }

  lemma {:induction false} ExactMember(rows: seq<Entry>, e: Entry)
    requires e in rows
    ensures CountExact(rows, e) >= 1
  {
    if rows[|rows| - 1] != e {
      ExactMember(rows[..|rows| - 1], e);
    }
  }

  /** The ledger has nothing from `createdAt` on. */
  ghost predicate StopsBefore(rows: seq<Entry>, createdAt: int) {
    forall c :: c >= createdAt ==> Count(rows, c) == 0
  }

  /** A database that 0062 can be applied to: the ledger ends before it, and either has 0061, with its objects, or ends
      before that too, and the history brings it. */
  ghost predicate Prepared(db: Database, files: seq<Entry>) {
    && Check0061(db) && StopsBefore(Rows(db), CREATED_0062)
    && (Count(Rows(db), CREATED_0061) == 0 ==>
          StopsBefore(Rows(db), CREATED_0061) && Entry(HASH_0061, CREATED_0061) in files)
  }

  lemma StopsMeansLast(rows: seq<Entry>, createdAt: int)
    requires StopsBefore(rows, createdAt)
    ensures LastCreatedAt(rows).None? || LastCreatedAt(rows).value < createdAt
  {
    if LastCreatedAt(rows).Some? {
      LastIsRecorded(rows);
    }
  }

  /** One entry of the history that the ledger has not reached is recorded once and exactly. */
  lemma AppliedOnce(files: seq<Entry>, rows: seq<Entry>, e: Entry)
    requires NoDuplicates(files) && e in files && StopsBefore(rows, e.createdAt)
    ensures var after := rows + Pending(files, LastCreatedAt(rows));
      && Count(Pending(files, LastCreatedAt(rows)), e.createdAt) == 1
      && Count(after, e.createdAt) == 1 && CountExact(after, e) == 1
  {
    var last := LastCreatedAt(rows);
    StopsMeansLast(rows, e.createdAt);
    CountPending(files, last, e.createdAt);
    CountMember(files, e);
    CountConcat(rows, Pending(files, last), e.createdAt);
    ExactPending(files, last, e);
    ExactMember(files, e);
    CountExactConcat(rows, Pending(files, last), e);
    ExactAtMost(rows, e);
    ExactAtMost(files, e);
  }

  /** On a prepared database the migrator leaves one that passes both checks. */
  lemma ApplyPassesChecks(db: Database, files: seq<Entry>, hash: string)
    requires ValidHistory(files, hash) && Prepared(db, files)
    ensures var after := Apply(db, files, LastCreatedAt(Rows(db))); Check0061(after) && Check0062(after, hash)
  {
    var rows, last := Rows(db), LastCreatedAt(Rows(db));
    AppliedOnce(files, rows, Entry(hash, CREATED_0062));
    if Count(rows, CREATED_0061) == 0 {
      AppliedOnce(files, rows, Entry(HASH_0061, CREATED_0061));
    } else {
      if last.None? || CREATED_0061 > last.value {
        LastIsMax(rows, CREATED_0061);
      }
      CountPending(files, last, CREATED_0061);
      CountConcat(rows, Pending(files, last), CREATED_0061);
      CountExactConcat(rows, Pending(files, last), Entry(HASH_0061, CREATED_0061));
      ExactAtMost(Pending(files, last), Entry(HASH_0061, CREATED_0061));
    }
  }

  lemma {:induction false} NothingPending(files: seq<Entry>, last: int)
    requires forall e :: e in files ==> e.createdAt <= last
    ensures Pending(files, Some(last)) == []
  {
    if files != [] {
      NothingPending(files[..|files| - 1], last);
    }
  }

  /** Where the ledger has reached the end of the history, applying again changes nothing. */
  lemma ReapplyIsIdle(db: Database, files: seq<Entry>)
    requires db.ledger.Some? && LastCreatedAt(Rows(db)).Some?
    requires forall e :: e in files ==> e.createdAt <= LastCreatedAt(Rows(db)).value
    ensures Apply(db, files, LastCreatedAt(Rows(db))) == db
  {
    NothingPending(files, LastCreatedAt(Rows(db)).value);
    assert Rows(db) + [] == Rows(db);
  }

  lemma {:induction false} CountMember(rows: seq<Entry>, e: Entry)
    requires e in rows
    ensures Count(rows, e.createdAt) >= 1
  {
    if rows[|rows| - 1] != e {
      CountMember(rows[..|rows| - 1], e);
    }
  }

  // ---- Runners ----

  type RunnerId = nat

  datatype Phase =
    | Idle(attempt: nat)
    | Locked(attempt: nat)
    | Checked(attempt: nat)
    | JournalRead(attempt: nat, last: Option<int>)
    | Migrated(attempt: nat)
    | Rechecked(attempt: nat)
    | Verified(attempt: nat)
    | Succeeded(attempt: nat)
    | Failed

  predicate HoldsLock(p: Phase) { !p.Idle? && !p.Succeeded? && !p.Failed? }

  datatype State = State(db: Database, runners: map<RunnerId, Phase>)

  datatype Action =
    | Start(r: RunnerId)
    | Advance(r: RunnerId)
    | Abort(r: RunnerId, retryable: bool)
    | SetReadyRows(n: nat)

  const MAX_ATTEMPTS: nat := 3

  /** The next statement of a runner; a check that fails ends the runner for good. */
  function Next(files: seq<Entry>, hash: string, s: State, r: RunnerId): State
    requires r in s.runners
  {
    match s.runners[r]
    case Idle(n) => if exists q :: q in s.runners && HoldsLock(s.runners[q]) then s else To(s, r, Locked(n))
    case Locked(n) => To(s, r, if Check0061(s.db) then Checked(n) else Failed)
    case Checked(n) => To(s, r, JournalRead(n, LastCreatedAt(Rows(s.db))))
    case JournalRead(n, last) => To(s.(db := Apply(s.db, files, last)), r, Migrated(n))
    case Migrated(n) => To(s, r, if Check0061(s.db) then Rechecked(n) else Failed)
    case Rechecked(n) => To(s, r, if Check0062(s.db, hash) then Verified(n) else Failed)
    case Verified(n) => To(s, r, Succeeded(n))
    case Succeeded(_) => s
    case Failed => s
  }

  function To(s: State, r: RunnerId, p: Phase): State { s.(runners := s.runners[r := p]) }

  function Step(files: seq<Entry>, hash: string, s: State, a: Action): State {
    match a
    case Start(r) => if r in s.runners then s else To(s, r, Idle(1))
    case Advance(r) => if r in s.runners then Next(files, hash, s, r) else s
    case Abort(r, retryable) =>
      if r !in s.runners || s.runners[r].Succeeded? || s.runners[r].Failed? then s
      else if retryable && s.runners[r].attempt < MAX_ATTEMPTS then To(s, r, Idle(s.runners[r].attempt + 1))
      else To(s, r, Failed)
    case SetReadyRows(n) => s.(db := s.db.(readyRows := n))
  }

  function Run(files: seq<Entry>, hash: string, s: State, actions: seq<Action>): State
    decreases |actions|
  {
    if actions == [] then s
    else Step(files, hash, Run(files, hash, s, actions[..|actions| - 1]), actions[|actions| - 1])
  }

  ghost predicate Init(s: State) { s.runners == map[] && NoDuplicates(Rows(s.db)) }

  // ---- Safety ----

  /** What a runner in a phase knows of the ledger. */
  ghost predicate Knows(rows: seq<Entry>, hash: string, p: Phase) {
    && (p.JournalRead? ==> p.last == LastCreatedAt(rows))
    && (p.Verified? || p.Succeeded? ==>
          Count(rows, CREATED_0062) == 1 && CountExact(rows, Entry(hash, CREATED_0062)) == 1)
    && (!p.Failed? ==> 1 <= p.attempt <= MAX_ATTEMPTS)
  }

  ghost predicate OneHolder(s: State) {
    forall q, r :: q in s.runners && r in s.runners && HoldsLock(s.runners[q]) && HoldsLock(s.runners[r]) ==> q == r
  }

  ghost predicate Inv(hash: string, s: State) {
    && OneHolder(s)
    && NoDuplicates(Rows(s.db))
    && forall r :: r in s.runners ==> Knows(Rows(s.db), hash, s.runners[r])
  }

  lemma ApplyKeeps(files: seq<Entry>, hash: string, s: State, r: RunnerId)
    requires ValidHistory(files, hash) && Inv(hash, s) && r in s.runners && s.runners[r].JournalRead?
    ensures Inv(hash, Next(files, hash, s, r))
  {
    var rows, s' := Rows(s.db), Next(files, hash, s, r);
    var last := LastCreatedAt(rows);
    assert Knows(rows, hash, s.runners[r]);
    FreshApplyKeepsNoDuplicates(files, rows);
    forall q | q in s'.runners && q != r
      ensures Knows(Rows(s'.db), hash, s'.runners[q])
    {
      assert Knows(rows, hash, s.runners[q]);
      if s.runners[q].Succeeded? {
        CountConcat(rows, Pending(files, last), CREATED_0062);
        CountExactConcat(rows, Pending(files, last), Entry(hash, CREATED_0062));
        assert Count(Rows(s'.db), CREATED_0062) <= 1;
        ExactAtMost(Pending(files, last), Entry(hash, CREATED_0062));
      }
    }
  }

  lemma {:induction false} ExactAtMost(rows: seq<Entry>, e: Entry)
    ensures CountExact(rows, e) <= Count(rows, e.createdAt)
  {
    if rows != [] {
      ExactAtMost(rows[..|rows| - 1], e);
    }
  }

  lemma StepKeeps(files: seq<Entry>, hash: string, s: State, a: Action)
    requires ValidHistory(files, hash) && Inv(hash, s)
    ensures Inv(hash, Step(files, hash, s, a))
  {
    if a.Advance? && a.r in s.runners && s.runners[a.r].JournalRead? {
      ApplyKeeps(files, hash, s, a.r);
    } else if (a.Advance? || a.Abort?) && a.r in s.runners {
      assert Knows(Rows(s.db), hash, s.runners[a.r]);
    }
  }

  lemma {:induction false} RunKeeps(files: seq<Entry>, hash: string, s0: State, actions: seq<Action>)
    requires ValidHistory(files, hash) && Init(s0)
    ensures Inv(hash, Run(files, hash, s0, actions))
    decreases |actions|
  {
    if actions != [] {
      RunKeeps(files, hash, s0, actions[..|actions| - 1]);
      StepKeeps(files, hash, Run(files, hash, s0, actions[..|actions| - 1]), actions[|actions| - 1]);
    }
  }

  /** With any number of runners, failures and retries, no migration is ever recorded twice. */
  lemma NoMigrationRecordedTwice(files: seq<Entry>, hash: string, s0: State, actions: seq<Action>, createdAt: int)
    requires ValidHistory(files, hash) && Init(s0)
    ensures Count(Rows(Run(files, hash, s0, actions).db), createdAt) <= 1
  {
    RunKeeps(files, hash, s0, actions);
  }

  /** A runner that reported success leaves exactly one 0062 row, with the exact hash, in every later state. */
  lemma SuccessMeansExactRow(files: seq<Entry>, hash: string, s0: State, actions: seq<Action>, r: RunnerId)
    requires ValidHistory(files, hash) && Init(s0)
    requires var s := Run(files, hash, s0, actions); r in s.runners && s.runners[r].Succeeded?
    ensures var s := Run(files, hash, s0, actions);
      && Count(Rows(s.db), CREATED_0062) == 1
      && CountExact(Rows(s.db), Entry(hash, CREATED_0062)) == 1
      && s.runners[r].attempt <= MAX_ATTEMPTS
  {
    RunKeeps(files, hash, s0, actions);
    assert Knows(Rows(Run(files, hash, s0, actions).db), hash, Run(files, hash, s0, actions).runners[r]);
  }

  /** A runner begins another attempt only after a retryable error of one of the first two; an error that is not
      retryable, or of the third, ends it, and what has ended stays so. */
  lemma AttemptsFollowRetries(files: seq<Entry>, hash: string, s: State, a: Action, r: RunnerId)
    requires r in s.runners && !s.runners[r].Failed?
    ensures r in Step(files, hash, s, a).runners
    ensures var p, p' := s.runners[r], Step(files, hash, s, a).runners[r];
      && (|| p'.Failed? || p'.attempt == p.attempt
          || (p'.attempt == p.attempt + 1 && p.attempt < 3 && a == Abort(r, true)))
      && (p.Succeeded? ==> p' == p)
      && (a == Abort(r, false) && !p.Succeeded? ==> p'.Failed?)
      && (a == Abort(r, true) && !p.Succeeded? && p.attempt < 3 ==> p' == Idle(p.attempt + 1))
  {
  }

  lemma FailureIsFinal(files: seq<Entry>, hash: string, s: State, a: Action, r: RunnerId)
    requires r in s.runners && s.runners[r].Failed?
    ensures r in Step(files, hash, s, a).runners && Step(files, hash, s, a).runners[r].Failed?
  {
  }

  /** A runner that nobody disturbs, from its start on. */
  function Alone(files: seq<Entry>, hash: string, s: State, r: RunnerId, n: nat): State {
    if n == 0 then Step(files, hash, s, Start(r)) else Step(files, hash, Alone(files, hash, s, r, n - 1), Advance(r))
  }

  /** It succeeds, at its first attempt, exactly when the checks pass before and after. */
  lemma LoneRunnerSucceedsIff(files: seq<Entry>, hash: string, s: State, r: RunnerId)
    requires r !in s.runners && forall q :: q in s.runners ==> !HoldsLock(s.runners[q])
    ensures var after := Apply(s.db, files, LastCreatedAt(Rows(s.db)));
      var end := Alone(files, hash, s, r, 7);
      && r in end.runners
      && (end.runners[r] == Succeeded(1) <==> Check0061(s.db) && Check0061(after) && Check0062(after, hash))
      && (end.runners[r] == Succeeded(1) ==> end.db == after)
  {
    var last, after := LastCreatedAt(Rows(s.db)), Apply(s.db, files, LastCreatedAt(Rows(s.db)));
    var locked := Alone(files, hash, s, r, 1);
    assert locked.runners[r] == Locked(1) && locked.db == s.db by {
      assert Alone(files, hash, s, r, 0).runners[r] == Idle(1);
    }
    var looked := Alone(files, hash, s, r, 2);
    assert looked.runners[r] == (if Check0061(s.db) then Checked(1) else Failed) && looked.db == s.db;
    var read := Alone(files, hash, s, r, 3);
    assert read.runners[r] == (if Check0061(s.db) then JournalRead(1, last) else Failed) && read.db == s.db;
    assert Alone(files, hash, s, r, 5) == Step(files, hash, Step(files, hash, read, Advance(r)), Advance(r));
    assert Alone(files, hash, s, r, 7)
        == Step(files, hash, Step(files, hash, Alone(files, hash, s, r, 5), Advance(r)), Advance(r));
    LoneRunnerFinishes(files, hash, read, r, last, Alone(files, hash, s, r, 7));
  }

  lemma LoneRunnerFinishes(files: seq<Entry>, hash: string, s: State, r: RunnerId, last: Option<int>, end: State)
    requires r in s.runners && (s.runners[r] == JournalRead(1, last) || s.runners[r] == Failed)
    requires end == Step(files, hash, Step(files, hash, Step(files, hash, Step(files, hash, s, Advance(r)), Advance(r)),
                         Advance(r)), Advance(r))
    ensures var after := Apply(s.db, files, last);
      && r in end.runners
      && (end.runners[r] == Succeeded(1)
          <==> s.runners[r] != Failed && Check0061(after) && Check0062(after, hash))
      && (end.runners[r] == Succeeded(1) ==> end.db == after)
  {
  }

  // ---- The runner, statement by statement ----

  /** A database error: its SQLSTATE, and whether its message says that a lock timed out. */
  datatype DbError = DbError(code: Option<string>, lockTimeout: bool)

  predicate IsRetryable(e: DbError) {
    e.code == Some("40P01") || e.code == Some("40001") || (e.code == Some("55P03") && e.lockTimeout)
  }

  /** A deadlock, a serialization failure, or a lock that timed out: these and no others are retried. */
  lemma WhatIsRetried(e: DbError)
    ensures IsRetryable(e) <==> e.code in {Some("40P01"), Some("40001")} || e == DbError(Some("55P03"), true)
    ensures !IsRetryable(CHECK_FAILED)
  {
  }

  /** The statement at which an attempt is hit by a database error. */
  datatype Stage = AtLock | AtCheck | AtMigrate | AtRecheck | AtVerify | AtCommit
  datatype Fault = Fault(stage: Stage, error: DbError)

  const CHECK_FAILED: DbError := DbError(None, false)

  class Session {
    const files: seq<Entry>
    const hash: string
    var db: Database
    var coordinatorTransactionOpen: bool

    constructor (files: seq<Entry>, hash: string, db: Database)
      ensures this.files == files && this.hash == hash && this.db == db && !coordinatorTransactionOpen
    {
      this.files, this.hash, this.db, coordinatorTransactionOpen := files, hash, db, false;
    }

    /** The checks pass on this database and on what the migrator makes of it. */
    ghost predicate Passes(d: Database) {
      var after := Apply(d, files, LastCreatedAt(Rows(d)));
      Check0061(d) && Check0061(after) && Check0062(after, hash)
    }

    /** The statements under the lock; an error leaves the lock to the caller. */
    method Migrate(fault: Option<Fault>) returns (r: Result<(), DbError>)
      modifies this`db
      ensures db == old(db) || db == Apply(old(db), files, LastCreatedAt(Rows(old(db))))
      ensures r.Ok? ==>
                && Check0061(old(db)) && db == Apply(old(db), files, LastCreatedAt(Rows(old(db))))
                && Check0061(db) && Check0062(db, hash)
      ensures r.Err? ==> r.error == CHECK_FAILED || (fault.Some? && r.error == fault.value.error)
      ensures fault.None? || fault.value.stage in {AtLock, AtCommit} ==> (r.Ok? <==> Passes(old(db)))
    {
      if fault.Some? && fault.value.stage == AtCheck { return Err(fault.value.error); }
      if !Check0061(db) { return Err(CHECK_FAILED); }
      if fault.Some? && fault.value.stage == AtMigrate { return Err(fault.value.error); }
      var last := LastCreatedAt(Rows(db));
      db := Apply(db, files, last);
      if fault.Some? && fault.value.stage == AtRecheck { return Err(fault.value.error); }
      if !Check0061(db) { return Err(CHECK_FAILED); }
      if fault.Some? && fault.value.stage == AtVerify { return Err(fault.value.error); }
      if !Check0062(db, hash) { return Err(CHECK_FAILED); }
      return Ok(());
    }

    method RunMigrationAttempt(fault: Option<Fault>) returns (r: Result<(), DbError>)
      requires !coordinatorTransactionOpen && ValidHistory(files, hash)
      modifies this
      ensures !coordinatorTransactionOpen && (NoDuplicates(Rows(old(db))) ==> NoDuplicates(Rows(db)))
      ensures r.Ok? ==> Check0061(db) && Check0062(db, hash)
      ensures r.Err? ==> r.error == CHECK_FAILED || (fault.Some? && r.error == fault.value.error)
      ensures fault.None? ==> (r.Ok? <==> Passes(old(db)))
      ensures fault.None? && Prepared(old(db), files) ==> r.Ok?
    {
      if Prepared(db, files) {
        ApplyPassesChecks(db, files, hash);
      }
      if NoDuplicates(Rows(db)) {
        FreshApplyKeepsNoDuplicates(files, Rows(db));
      }
      coordinatorTransactionOpen := true;
      if fault.Some? && fault.value.stage == AtLock {
        r := Err(fault.value.error);
      } else {
        r := Migrate(fault);
        if r.Ok? && fault.Some? && fault.value.stage == AtCommit {
          r := Err(fault.value.error);
        } else if r.Ok? {
          coordinatorTransactionOpen := false;
        }
      }
      if coordinatorTransactionOpen {
        coordinatorTransactionOpen := false;
      }
    }

    /** At most three attempts, each but the last ended by a retryable error. */
    method RunWithRetry(faults: seq<Option<Fault>>) returns (attempts: nat, r: Result<(), DbError>)
      requires |faults| == MAX_ATTEMPTS
      requires !coordinatorTransactionOpen && ValidHistory(files, hash)
      modifies this
      ensures !coordinatorTransactionOpen && (NoDuplicates(Rows(old(db))) ==> NoDuplicates(Rows(db))) &&
                1 <= attempts <= MAX_ATTEMPTS
      ensures r.Ok? ==> Check0061(db) && Check0062(db, hash)
      ensures r.Err? ==> attempts == 3 || !IsRetryable(r.error)
      ensures forall k :: 0 <= k < attempts - 1 ==> faults[k].Some? && IsRetryable(faults[k].value.error)
      ensures faults[0] == None ==> attempts == 1 && (r.Ok? <==> Passes(old(db)))
    {
      attempts := 1;
      while true
        invariant 1 <= attempts <= MAX_ATTEMPTS
        invariant !coordinatorTransactionOpen && (NoDuplicates(Rows(old(db))) ==> NoDuplicates(Rows(db)))
        invariant forall k :: 0 <= k < attempts - 1 ==> faults[k].Some? && IsRetryable(faults[k].value.error)
        invariant attempts == 1 ==> db == old(db)
        invariant attempts > 1 ==> faults[0].Some?
        decreases MAX_ATTEMPTS - attempts
      {
        r := RunMigrationAttempt(faults[attempts - 1]);
        if r.Ok? || attempts == MAX_ATTEMPTS || !IsRetryable(r.error) {
          return;
        }
        attempts := attempts + 1;
      }
    }
  }
}
