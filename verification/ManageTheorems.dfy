/** The theorems about whole runs of the manage protocol. */
module ManageTheorems {
  import opened Wrappers
  import opened Blocking
  import opened Appointments
  import opened ManageSpec
  import opened ManageLaws
  import opened ManageProtocol
  import opened ManageSafety

  // ---- No double booking ----

  /** What a commit publishes was covered by the slot guard or the exclusion constraint, or its row does not block. */
  ghost predicate HarmlessStep(s: State, a: Action) {
    a.CommitStep? && ManageStep(s, a.i) && s.txs[a.i].phase.Commit? ==>
      var tx := s.txs[a.i];
      || !tx.phase.authoritative.appointment.Blocks(s.clock)
      || Covered(tx.phase.authoritative, tx.req.operation, tx.phase.plan, s.tables.exclusion)
  }

  ghost predicate HarmlessRun(states: seq<State>, actions: seq<Action>) {
    && |actions| <= |states|
    && forall n {:trigger HarmlessStep(states[n], actions[n])} :: 0 <= n < |actions| ==>
        HarmlessStep(states[n], actions[n])
  }

  lemma CommitKeepsNoClash(t: Tables, clock: Instant, log: seq<Entry>, tx: Tx)
    requires tx.Manage? && tx.phase.Commit? && TxOk(t, clock, log, tx) && SoundRows(t) && NoClash(t.appointments, clock)
    requires || !tx.phase.authoritative.appointment.Blocks(clock)
             || Covered(tx.phase.authoritative, tx.req.operation, tx.phase.plan, t.exclusion)
    ensures NoClash(Publish(t, tx.id, tx.phase.draft).appointments, clock)
  {
    CommitIsOneOperation(t, tx, clock, log);
    CoveredOperationKeepsNoClash(t, tx.id, tx.req.operation, tx.phase.x, tx.phase.clocks, clock);
  }

  lemma TickKeepsNoClash(appointments: map<AppointmentId, Appointment>, earlier: Instant, later: Instant)
    requires NoClash(appointments, earlier) && earlier <= later
    ensures NoClash(appointments, later)
  {
    forall a, b | a in appointments && b in appointments && a != b
      ensures !Clash(appointments[a], appointments[b], later)
    {
      assert !Clash(appointments[a], appointments[b], earlier);
    }
  }

  lemma InsertKeepsNoClash(t: Tables, clock: Instant, log: seq<Entry>, tx: Tx)
    requires tx.Booking? && tx.bookingPhase.BookInsert? && tx.newId !in t.appointments
    requires TxOk(t, clock, log, tx) && NoClash(t.appointments, clock)
    ensures NoClash(t.appointments[tx.newId := tx.row], clock)
  {
    GuardedRowKeepsNoClash(t.appointments, tx.newId, tx.row, tx.row.technicianId.value, tx.row.OccupiedUntil(),
                           tx.bookingPhase.guardNow, clock);
  }

  lemma RowWriteKeepsNoClash(s: State, a: Action, s': State)
    requires NoClash(s.tables.appointments, s.clock) && Next(s, a, s') && (a.Release? || a.Touch?)
    ensures NoClash(s'.tables.appointments, s'.clock)
  {
    var id := if a.Release? then a.releasedId else a.touchedId;
    SmallerRowKeepsNoClash(s.tables.appointments, id, s'.tables.appointments[id], s.clock);
  }

  lemma NextKeepsNoClash(s: State, a: Action, s': State)
    requires AllTxOk(s) && SoundRows(s.tables) && NoClash(s.tables.appointments, s.clock) && Next(s, a, s')
    requires HarmlessStep(s, a)
    ensures NoClash(s'.tables.appointments, s'.clock)
  {
    match a
    case Tick(later) => TickKeepsNoClash(s.tables.appointments, s.clock, later);
    case CommitStep(i) => CommitKeepsNoClash(s.tables, s.clock, s.log, s.txs[i]);
    case BookingStep(i) =>
      if s.txs[i].bookingPhase.BookInsert? && s'.log != s.log {
        InsertKeepsNoClash(s.tables, s.clock, s.log, s.txs[i]);
      }
    case Release(_, _, _) => RowWriteKeepsNoClash(s, a, s');
    case Touch(_, _) => RowWriteKeepsNoClash(s, a, s');
    case _ => assert s'.tables.appointments == s.tables.appointments;
  }

  lemma TransactionsHold(states: seq<State>, actions: seq<Action>, n: nat)
    requires Run(states, actions) && n < |states|
    ensures AllTxOk(states[n]) && SoundRows(states[n].tables)
  {
    InvHolds(states, actions, n);
  }

  /** In every state of a run whose commits were covered no two windows of a technician overlap, buffers included. */
  lemma {:induction false} NoClashHolds(states: seq<State>, actions: seq<Action>, n: nat)
    requires Run(states, actions) && HarmlessRun(states, actions) && n < |states|
    ensures NoClash(states[n].tables.appointments, states[n].clock)
  {
    if n > 0 {
      NoClashHolds(states, actions, n - 1);
      TransactionsHold(states, actions, n - 1);
      HarmlessAt(states, actions, n - 1);
      NextKeepsNoClash(states[n - 1], actions[n - 1], states[n]);
    }
  }

  lemma HarmlessAt(states: seq<State>, actions: seq<Action>, n: nat)
    requires HarmlessRun(states, actions) && n < |actions|
    ensures HarmlessStep(states[n], actions[n])
  {
  }

  // ---- The slot constraints ----

  lemma AcceptedRowIsRespected(t: Tables, id: AppointmentId, row: Appointment)
    requires SlotsRespected(t) && SlotAccepts(t, id, row)
    ensures SlotsRespected(t.(appointments := t.appointments[id := row]))
  {
    var after := t.appointments[id := row];
    forall a, b | a in after && b in after && a != b
      ensures !Collide(after[a], after[b], t.exclusion)
    {
      if a != id && b != id {
        assert !Collide(t.appointments[a], t.appointments[b], t.exclusion);
      } else {
        assert !Collide(row, t.appointments[if a == id then b else a], t.exclusion);
      }
    }
  }

  /** A row that stays in the slot it had, or leaves it, is accepted. */
  lemma SubsumedRowIsRespected(t: Tables, id: AppointmentId, row: Appointment)
    requires SlotsRespected(t) && id in t.appointments && Subsumed(row, t.appointments[id])
    ensures SlotsRespected(t.(appointments := t.appointments[id := row]))
  {
    forall b | b in t.appointments && b != id
      ensures !Collide(row, t.appointments[b], t.exclusion)
    {
      assert !Collide(t.appointments[id], t.appointments[b], t.exclusion);
    }
    AcceptedRowIsRespected(t, id, row);
  }

  lemma CommitIsRespected(t: Tables, clock: Instant, log: seq<Entry>, tx: Tx)
    requires tx.Manage? && tx.phase.Commit? && TxOk(t, clock, log, tx) && SoundRows(t) && SlotsRespected(t)
    ensures SlotsRespected(Publish(t, tx.id, tx.phase.draft))
  {
    var t' := Publish(t, tx.id, tx.phase.draft);
    PublishReplacesRow(t, tx.id, tx.phase.draft);
    var row := t'.appointments[tx.id];
    assert SlotAccepts(t, tx.id, row) by {
      forall b | b in t.appointments && b != tx.id
        ensures !Collide(row, t.appointments[b], t.exclusion)
      {
        assert !Collide(tx.phase.draft.appointment, t.appointments[b], t.exclusion);
      }
    }
    AcceptedRowIsRespected(t, tx.id, row);
    assert t'.appointments == t.(appointments := t.appointments[tx.id := row]).appointments;
  }

  lemma NextRespectsSlots(s: State, a: Action, s': State)
    requires AllTxOk(s) && SoundRows(s.tables) && SlotsRespected(s.tables) && Next(s, a, s')
    ensures SlotsRespected(s'.tables) && s'.tables.exclusion == s.tables.exclusion
  {
    match a
    case CommitStep(i) => CommitIsRespected(s.tables, s.clock, s.log, s.txs[i]);
    case BookingStep(i) =>
      if s'.log != s.log {
        AcceptedRowIsRespected(s.tables, s.txs[i].newId, s.txs[i].row);
      }
    case Release(id, _, _) => SubsumedRowIsRespected(s.tables, id, s'.tables.appointments[id]);
    case Touch(id, row) => SubsumedRowIsRespected(s.tables, id, row);
    case _ => assert s'.tables.appointments == s.tables.appointments;
  }

  lemma {:induction false} SlotsAreRespected(states: seq<State>, actions: seq<Action>, n: nat)
    requires Run(states, actions) && n < |states|
    ensures SlotsRespected(states[n].tables) && states[n].tables.exclusion == states[0].tables.exclusion
  {
    if n > 0 {
      SlotsAreRespected(states, actions, n - 1);
      TransactionsHold(states, actions, n - 1);
      NextRespectsSlots(states[n - 1], actions[n - 1], states[n]);
    }
  }

  ghost predicate NoneDoubleBooked(s: State) {
    var rows := s.tables.appointments;
    forall a, b :: a in rows && b in rows && a != b ==> !DoubleBooked(rows[a], rows[b], s.clock)
  }

  /** Two appointments of a technician that block start at different instants. */
  ghost predicate NoneStartTogether(s: State) {
    var rows := s.tables.appointments;
    forall a, b :: a in rows && b in rows && a != b && rows[a].Blocks(s.clock) && rows[b].Blocks(s.clock)
      && rows[a].technicianId.Some? && rows[a].technicianId == rows[b].technicianId
      ==> rows[a].startTime != rows[b].startTime
  }

  /** With the exclusion constraint no state of any run has a double booking, whatever requests it serves. Without it
      this holds in every run whose commits the slot guard covered: `OrdinaryRunsAreHarmless` says which runs are of
      this kind, and `UncoveredOperationClashes` what any other commit can do. In both cases two appointments of a
      technician never start together. */
  lemma NoDoubleBooking(states: seq<State>, actions: seq<Action>, n: nat)
    requires Run(states, actions) && n < |states|
    ensures states[0].tables.exclusion || HarmlessRun(states, actions) ==> NoneDoubleBooked(states[n])
    ensures NoneStartTogether(states[n])
  {
    SlotsAreRespected(states, actions, n);
    if !states[0].tables.exclusion && HarmlessRun(states, actions) {
      NoClashHolds(states, actions, n);
    }
    var t, now := states[n].tables, states[n].clock;
    forall a, b | a in t.appointments && b in t.appointments && a != b
      ensures !Collide(t.appointments[a], t.appointments[b], t.exclusion)
      ensures NoClash(t.appointments, now) ==> !Clash(t.appointments[a], t.appointments[b], now)
    {
    }
  }

  // ---- Which runs are harmless ----

  /** A start whose request has no empty technician id, or whose booking stores a window of its own size. */
  predicate OrdinaryStart(tx: Tx) {
    match tx
    case Manage(_, _, req, _) => req.operation.TechnicianArgument() != Some(EMPTY_TECHNICIAN)
    case Booking(_, row, _) => WellSized(row, 0)
    case Settings(_) => true
  }

  ghost predicate OrdinaryTxs(s: State) {
    forall i :: i in s.txs ==> OrdinaryStart(s.txs[i])
  }

  ghost predicate WellSizedRows(t: Tables) {
    forall a :: a in t.appointments ==> WellSized(t.appointments[a], 0)
  }

  lemma OrdinaryCommitIsHarmless(s: State, i: nat)
    requires AllTxOk(s) && OrdinaryTxs(s) && SoundRows(s.tables) && WellSizedRows(s.tables)
    requires ManageStep(s, i) && s.txs[i].phase.Commit?
    ensures Covered(s.txs[i].phase.authoritative, s.txs[i].req.operation, s.txs[i].phase.plan, s.tables.exclusion)
  {
    var tx := s.txs[i];
    assert TxOk(s.tables, s.clock, s.log, tx);
    NamedOperationsAreCovered(tx.phase.authoritative, tx.req.operation, tx.phase.plan, tx.phase.x,
                              s.tables.exclusion);
  }

  lemma CommitKeepsWellSized(t: Tables, tx: Tx, clock: Instant, log: seq<Entry>)
    requires tx.Manage? && tx.phase.Commit? && TxOk(t, clock, log, tx) && SoundRows(t) && WellSizedRows(t)
    ensures WellSizedRows(Publish(t, tx.id, tx.phase.draft))
  {
    var c := tx.phase;
    DraftsStayWellSized(c.authoritative, tx.req.operation, c.plan, c.technician, c.x, c.clocks.versionClock);
    PublishReplacesRow(t, tx.id, c.draft);
  }

  lemma NextKeepsOrdinaryTxs(s: State, a: Action, s': State)
    requires OrdinaryTxs(s) && Next(s, a, s') && (a.Begin? ==> OrdinaryStart(a.tx))
    ensures OrdinaryTxs(s')
  {
    OthersStayPut(s, a, s');
  }

  lemma NextKeepsWellSizedRows(s: State, a: Action, s': State)
    requires AllTxOk(s) && OrdinaryTxs(s) && SoundRows(s.tables) && WellSizedRows(s.tables) && Next(s, a, s')
    ensures WellSizedRows(s'.tables)
  {
    if a.CommitStep? {
      CommitKeepsWellSized(s.tables, s.txs[a.i], s.clock, s.log);
    }
  }

  lemma {:induction false} OrdinaryHolds(states: seq<State>, actions: seq<Action>, n: nat)
    requires Run(states, actions) && WellSizedRows(states[0].tables) && n < |states|
    requires forall k :: 0 <= k < |actions| && actions[k].Begin? ==> OrdinaryStart(actions[k].tx)
    ensures OrdinaryTxs(states[n]) && WellSizedRows(states[n].tables)
  {
    if n > 0 {
      OrdinaryHolds(states, actions, n - 1);
      TransactionsHold(states, actions, n - 1);
      NextKeepsOrdinaryTxs(states[n - 1], actions[n - 1], states[n]);
      NextKeepsWellSizedRows(states[n - 1], actions[n - 1], states[n]);
    }
  }

  /** When no request carries an empty technician id and every row that is there at the start, or booked later, has
      its stored end and blocked minutes inside its duration and buffer, every commit is covered. */
  lemma OrdinaryRunsAreHarmless(states: seq<State>, actions: seq<Action>)
    requires Run(states, actions) && WellSizedRows(states[0].tables)
    requires forall k :: 0 <= k < |actions| && actions[k].Begin? ==> OrdinaryStart(actions[k].tx)
    ensures HarmlessRun(states, actions)
  {
    forall n | 0 <= n < |actions|
      ensures HarmlessStep(states[n], actions[n])
    {
      OrdinaryHolds(states, actions, n);
      TransactionsHold(states, actions, n);
      var a := actions[n];
      if a.CommitStep? && ManageStep(states[n], a.i) && states[n].txs[a.i].phase.Commit? {
        OrdinaryCommitIsHarmless(states[n], a.i);
      }
    }
  }

  // ---- No deadlock ----

  /** Transaction `i` blocks on a lock that `j` holds. */
  ghost predicate WaitsFor(s: State, i: nat, j: nat) {
    && i in s.txs && j in s.txs && i != j
    && Wants(s.txs[i]).Some? && Obstructs(s.txs[j], Wants(s.txs[i]).value)
  }

  /** Technician keys by identifier, then the appointment row, then the event row. */
  ghost predicate Before(a: Lock, b: Lock) {
    match (a, b)
    case (Technician(t), Technician(u)) => t < u
    case (Technician(_), Row(_)) => true
    case (Technician(_), Event(_)) => true
    case (Row(_), Event(_)) => true
    case _ => false
  }

  /** The technician key that the slot check takes again is one the transaction already holds, so nothing can
      stand in its way. */
  lemma SlotCheckNeverBlocks(s: State, j: nat)
    requires Exclusive(s) && AllTxOk(s) && j in s.txs && s.txs[j].Manage? && s.txs[j].phase.CheckSlot?
    requires Wants(s.txs[j]).Some?
    ensures Holds(s.txs[j], Wants(s.txs[j]).value) && Grantable(s, j, Wants(s.txs[j]).value)
  {
    assert TxOk(s.tables, s.clock, s.log, s.txs[j]);
    RelockedKeyIsHeld(s.tables, s.txs[j], s.txs[j].phase.authoritative, s.txs[j].phase.x);
  }

  /** The lock a waiting transaction waits for. */
  ghost function Awaited(s: State, i: nat): Lock {
    if i in s.txs && Wants(s.txs[i]).Some? then Wants(s.txs[i]).value else SalonShare
  }

  /** Along two consecutive waits of transactions that are themselves waited for, the awaited lock climbs. */
  lemma WaitsClimb(s: State, h: nat, i: nat, j: nat, k: nat)
    requires Exclusive(s) && AllTxOk(s)
    requires WaitsFor(s, h, i) && WaitsFor(s, i, j) && WaitsFor(s, j, k)
    ensures Before(Awaited(s, i), Awaited(s, j))
  {
    assert TxOk(s.tables, s.clock, s.log, s.txs[j]);
    if s.txs[j].Manage? && s.txs[j].phase.CheckSlot? {
      SlotCheckNeverBlocks(s, j);
    } else {
      HeldBelowWanted(s.txs[j], Wants(s.txs[i]).value);
    }
  }

  /** Outside the slot check, a transaction wants only locks above those it holds. */
  lemma HeldBelowWanted(tx: Tx, l: Lock)
    requires Wants(tx).Some? && Obstructs(tx, l)
    requires tx.Manage? ==>
               && !tx.phase.CheckSlot?
               && (tx.phase.TakeTechnicians? ==> tx.phase.taken <= |Keys(tx.loaded, tx.req.operation)|)
    ensures l == SalonExclusive || Before(l, Wants(tx).value)
  {
  }

  function Successor(c: seq<nat>, n: nat): nat
    requires n < |c|
  {
    if n + 1 < |c| then n + 1 else 0
  }

  /** A closed chain of waiting transactions. */
  ghost predicate Deadlock(s: State, c: seq<nat>) {
    && |c| > 0
    && forall n :: 0 <= n < |c| ==> WaitsFor(s, c[n], c[Successor(c, n)])
  }

  lemma {:induction false} WaitsClimbAlong(s: State, c: seq<nat>, n: nat)
    requires Exclusive(s) && AllTxOk(s) && Deadlock(s, c) && n < |c|
    ensures Before(Awaited(s, c[0]), Awaited(s, c[Successor(c, n)]))
  {
    var prev, next := if n > 0 then n - 1 else |c| - 1, Successor(c, n);
    assert WaitsFor(s, c[prev], c[Successor(c, prev)]) && WaitsFor(s, c[n], c[next]) &&
             WaitsFor(s, c[next], c[Successor(c, next)]);
    WaitsClimb(s, c[prev], c[n], c[next], c[Successor(c, next)]);
    if n > 0 {
      WaitsClimbAlong(s, c, n - 1);
    }
  }

  /** No reachable state has a cycle of waiting transactions, salon-first bookings and settings writes included. */
  lemma NoDeadlock(states: seq<State>, actions: seq<Action>, n: nat, c: seq<nat>)
    requires Run(states, actions) && n < |states|
    ensures !Deadlock(states[n], c)
  {
    InvHolds(states, actions, n);
    if Deadlock(states[n], c) {
      WaitsClimbAlong(states[n], c, |c| - 1);
    }
  }

  // ---- No lost update ----

  lemma {:induction false} ReplayOfPrefix(t0: Tables, log: seq<Entry>, k: nat)
    requires Replay(t0, log).Some? && k <= |log|
    ensures Replay(t0, log[..k]).Some?
    decreases |log| - k
  {
    if k < |log| {
      ReplayOfPrefix(t0, log, k + 1);
      assert log[..k + 1][..k] == log[..k];
    } else {
      assert log[..k] == log;
    }
  }

  lemma {:induction false} ReplayKeepsOutboxSound(t0: Tables, log: seq<Entry>)
    requires OrdinaryIntentsAreAuthoritative(t0) && Replay(t0, log).Some?
    ensures OrdinaryIntentsAreAuthoritative(Replay(t0, log).value)
  {
    if log != [] {
      var before := Replay(t0, log[..|log| - 1]).value;
      ReplayKeepsOutboxSound(t0, log[..|log| - 1]);
      var e := log[|log| - 1];
      if e.Mutated? {
        OperationOfEntry(before, e);
      }
    }
  }

  lemma OperationOfEntry(t: Tables, e: Entry)
    requires e.Mutated? && OrdinaryIntentsAreAuthoritative(t) && RunEntry(t, e).Some?
    ensures var t' := RunEntry(t, e).value;
      && e.id in t.appointments
      && SameVersion(Load(t, e.id), e.loaded)
      && OnlyTouches(t, t', e.id)
      && OrdinaryIntentsAreAuthoritative(t')
      && t.appointments[e.id].updatedAt < e.version == t'.appointments[e.id].updatedAt
      && Announced(t'.outbox, e.id, e.version)
  {
    var req := e.req.(fence := None);
    assert Compare(Load(t, e.id), e.loaded, req, e.x) == Compare(Load(t, e.id), e.loaded, e.req, e.x);
    if req.operation != Reassign(EMPTY_TECHNICIAN) {
      MutationIsNotLost(t, e.id, e.loaded, req, e.x, e.clocks);
    } else {
      var m := Load(t, e.id);
      var p := MakePlan(m, req.operation, e.x).value;
      var technician := ValidateSlot(t.appointments, e.id, p, e.x, e.clocks.guardNow).value;
      PublishTouchesOne(t, e.id, Draft(m, req.operation, p, technician, e.x, e.clocks.versionClock).value);
    }
  }

  /** In the serial history, entry `k` ran on exactly what it had loaded, and strictly raised `updatedAt`. */
  ghost predicate RanOnLoaded(t0: Tables, log: seq<Entry>, k: nat)
    requires k < |log| && log[k].Mutated?
  {
    && Replay(t0, log[..k]).Some?
    && (var before, e := Replay(t0, log[..k]).value, log[k];
        && e.id in before.appointments
        && SameVersion(Load(before, e.id), e.loaded)
        && before.appointments[e.id].updatedAt < e.version)
  }

  lemma EntryRanOnLoaded(t0: Tables, log: seq<Entry>, k: nat)
    requires OrdinaryIntentsAreAuthoritative(t0) && Replay(t0, log).Some?
    requires k < |log| && log[k].Mutated?
    ensures RanOnLoaded(t0, log, k)
  {
    EntryRan(t0, log, k);
    ReplayKeepsOutboxSound(t0, log[..k]);
    OperationOfEntry(Replay(t0, log[..k]).value, log[k]);
  }

  /** The tables of every reachable state are those of running the committed entries one at a time in commit
      order. Each mutation in that serial history ran on exactly the row, services and add-ons it had loaded, and
      strictly raised the row's `updatedAt`. */
  lemma SerialHistory(states: seq<State>, actions: seq<Action>, n: nat)
    requires Run(states, actions) && n < |states|
    ensures Replay(states[0].tables, states[n].log) == Some(states[n].tables)
    ensures forall k :: 0 <= k < |states[n].log| && states[n].log[k].Mutated? ==>
              RanOnLoaded(states[0].tables, states[n].log, k)
  {
    InvHolds(states, actions, n);
    forall k | 0 <= k < |states[n].log| && states[n].log[k].Mutated?
      ensures RanOnLoaded(states[0].tables, states[n].log, k)
    {
      EntryRanOnLoaded(states[0].tables, states[n].log, k);
    }
  }

  // ---- Calendar feedback ----

  lemma {:induction false} HistoryIsKept(states: seq<State>, actions: seq<Action>, n: nat, m: nat)
    requires Run(states, actions) && n <= m < |states|
    ensures states[n].log <= states[m].log
    decreases m - n
  {
    if n < m {
      LogOfStep(states[n], actions[n], states[n + 1]);
      HistoryIsKept(states, actions, n + 1, m);
    }
  }

  /** Once a local mutation has committed with some revision, the fence refuses feedback that carries an older one
      in every later state, and feedback that carries exactly that revision while a row announcing it is runnable. */
  lemma OldFeedbackIsRefusedEver(states: seq<State>, actions: seq<Action>, n: nat, m: nat, k: nat, fence: Fence)
    requires Run(states, actions) && n <= m < |states| && k < |states[n].log| && states[n].log[k].Mutated?
    requires fence.remoteMutationVersion.Some?
    ensures fence.remoteMutationVersion.value < states[n].log[k].version
            ==> CheckFence(states[m].tables, states[n].log[k].id, Some(fence)).Err?
    ensures fence.remoteMutationVersion.value == states[n].log[k].version
            && (exists q ::
                  && 0 <= q < |states[m].tables.outbox|
                  && states[m].tables.outbox[q].appointmentId == states[n].log[k].id
                  && states[m].tables.outbox[q].version == fence.remoteMutationVersion
                  && Runnable(states[m].tables.outbox[q].status))
            ==> CheckFence(states[m].tables, states[n].log[k].id, Some(fence)).Err?
  {
    InvHolds(states, actions, m);
    HistoryIsKept(states, actions, n, m);
    var e, outbox := states[n].log[k], states[m].tables.outbox;
    assert states[m].log[k] == e;
    if fence.remoteMutationVersion.value < e.version {
      AnnouncedOutranksOlder(outbox, e.id, e.version, fence.remoteMutationVersion.value);
    } else if q :| 0 <= q < |outbox| && outbox[q].appointmentId == e.id
                   && outbox[q].version == fence.remoteMutationVersion && Runnable(outbox[q].status) {
      assert Outranks(outbox[q], fence.remoteMutationVersion);
    }
  }

  /** Feedback that did commit is at least as new as every mutation committed before it: an echo of an older
      revision never overwrites a newer local one, whatever interleaved between its fence check and its commit. */
  lemma FeedbackNeverOverwritesNewer(states: seq<State>, actions: seq<Action>, n: nat, j: nat, k: nat)
    requires Run(states, actions) && n < |states| && j < k < |states[n].log|
    requires var log := states[n].log;
      && log[j].Mutated? && log[k].Mutated? && log[j].id == log[k].id
      && log[k].req.fence.Some? && log[k].req.fence.value.remoteMutationVersion.Some?
    ensures states[n].log[j].version <= states[n].log[k].req.fence.value.remoteMutationVersion.value
  {
    InvHolds(states, actions, n);
  }

  // ---- Revisions ----

  /** A write that is not a mutation keeps `updatedAt` where it is or raises it. The reminder mark does not: it
      stores the instant its pass began. */
  ghost predicate NeverLowers(t: Tables, e: Entry) {
    match e
    case Touched(id, row) => id in t.appointments ==> t.appointments[id].updatedAt <= row.updatedAt
    case Released(id, _, at) => id in t.appointments ==> t.appointments[id].updatedAt <= at
    case _ => true
  }

  ghost predicate OthersNeverLower(t0: Tables, log: seq<Entry>) {
    log == [] ||
    (var init := log[..|log| - 1];
     OthersNeverLower(t0, init) && (Replay(t0, init).Some? ==> NeverLowers(Replay(t0, init).value, log[|log| - 1])))
  }

  /** No ordinary intent is ahead of its row. */
  ghost predicate IntentsNotAhead(t: Tables) {
    forall k :: 0 <= k < |t.outbox| && t.outbox[k].ordinary ==>
      && t.outbox[k].appointmentId in t.appointments
      && t.outbox[k].version.Some? && t.outbox[k].version.value <= t.appointments[t.outbox[k].appointmentId].updatedAt
  }

  /** A mutation appends its own pending intent exactly when no ordinary intent carries its revision already; a row
      whose `updatedAt` was lowered can repeat a revision, and then the outbox learns nothing. */
  lemma NewIntentIff(t: Tables, e: Entry)
    requires e.Mutated? && RunEntry(t, e).Some?
    ensures RunEntry(t, e).value.outbox ==
            if HasOrdinaryIntent(t.outbox, e.id, e.version) then t.outbox
            else t.outbox + [Intent(e.id, true, Some(e.version), IntentPending)]
    ensures IntentsNotAhead(t) && OrdinaryIntentsAreAuthoritative(t) ==> !HasOrdinaryIntent(t.outbox, e.id, e.version)
  {
    if OrdinaryIntentsAreAuthoritative(t) {
      OperationOfEntry(t, e);
    }
    var m := Load(t, e.id);
    var p := MakePlan(m, e.req.operation, e.x).value;
    var technician := ValidateSlot(t.appointments, e.id, p, e.x, e.clocks.guardNow).value;
    var d := Draft(m, e.req.operation, p, technician, e.x, e.clocks.versionClock).value;
    assert RunEntry(t, e).value == Publish(t, e.id, d);
  }

  lemma EntryKeepsIntentsBehind(t: Tables, e: Entry)
    requires IntentsNotAhead(t) && OrdinaryIntentsAreAuthoritative(t) && RunEntry(t, e).Some? && NeverLowers(t, e)
    ensures var t' := RunEntry(t, e).value;
      && IntentsNotAhead(t')
      && forall id :: id in t.appointments ==>
           id in t'.appointments && t.appointments[id].updatedAt <= t'.appointments[id].updatedAt
  {
    if e.Mutated? {
      MutationKeepsIntentsBehind(t, e);
    }
  }

  lemma MutationKeepsIntentsBehind(t: Tables, e: Entry)
    requires IntentsNotAhead(t) && OrdinaryIntentsAreAuthoritative(t) && RunEntry(t, e).Some? && e.Mutated?
    ensures var t' := RunEntry(t, e).value;
      && IntentsNotAhead(t')
      && forall id :: id in t.appointments ==>
          id in t'.appointments && t.appointments[id].updatedAt <= t'.appointments[id].updatedAt
  {
    OperationOfEntry(t, e);
    NewIntentIff(t, e);
  }

  /** The revisions of one appointment strictly increase along the history. */
  ghost predicate Increasing(log: seq<Entry>) {
    forall j, k :: 0 <= j < k < |log| && log[j].Mutated? && log[k].Mutated? && log[j].id == log[k].id
      ==> log[j].version < log[k].version
  }

  ghost predicate BehindRows(t: Tables, log: seq<Entry>) {
    forall k :: 0 <= k < |log| && log[k].Mutated? ==>
      log[k].id in t.appointments && log[k].version <= t.appointments[log[k].id].updatedAt
  }

  /** A mutation's revision exceeds an earlier one exactly when its clock does or the row had not fallen behind it. */
  lemma RevisionExceedsIff(t: Tables, e: Entry, v: Instant)
    requires e.Mutated? && RunEntry(t, e).Some?
    ensures e.id in t.appointments
    ensures e.version > v <==> e.clocks.versionClock > v || t.appointments[e.id].updatedAt >= v
  {
    var m := Load(t, e.id);
    var p := MakePlan(m, e.req.operation, e.x).value;
    var technician := ValidateSlot(t.appointments, e.id, p, e.x, e.clocks.guardNow).value;
    PublishReplacesRow(t, e.id, Draft(m, e.req.operation, p, technician, e.x, e.clocks.versionClock).value);
    PublishKeepsRevision(t, e.id, Draft(m, e.req.operation, p, technician, e.x, e.clocks.versionClock).value);
  }

  lemma PublishKeepsRevision(t: Tables, id: AppointmentId, d: Managed)
    requires id in t.appointments
    ensures id in Publish(t, id, d).appointments
    ensures Publish(t, id, d).appointments[id].updatedAt == d.appointment.updatedAt
  {
  }

  /** Entry `k` read a clock past the revision of entry `j`, or found the row at that revision or later. */
  ghost predicate Ahead(t0: Tables, log: seq<Entry>, j: nat, k: nat)
    requires j < k < |log| && log[j].Mutated? && log[k].Mutated?
  {
    var before := Replay(t0, log[..k]);
    && before.Some? && log[k].id in before.value.appointments
    && (log[k].clocks.versionClock > log[j].version || before.value.appointments[log[k].id].updatedAt >= log[j].version)
  }

  /** Two mutations of one appointment, in this order. */
  ghost predicate InTurn(log: seq<Entry>, j: int, k: int) {
    0 <= j < k < |log| && log[j].Mutated? && log[k].Mutated? && log[j].id == log[k].id
  }

  ghost predicate EachAhead(t0: Tables, log: seq<Entry>) {
    forall j, k {:trigger InTurn(log, j, k)} :: InTurn(log, j, k) ==> Ahead(t0, log, j, k)
  }

  /** Revisions of one appointment increase over a history exactly when each mutation is ahead of the earlier ones. */
  lemma RevisionsIncreaseIff(t0: Tables, log: seq<Entry>)
    requires Replay(t0, log).Some?
    ensures Increasing(log) <==> EachAhead(t0, log)
  {
    forall j, k | InTurn(log, j, k)
      ensures log[j].version < log[k].version <==> Ahead(t0, log, j, k)
    {
      RevisionIsAheadIff(t0, log, j, k);
    }
    if EachAhead(t0, log) {
      forall j, k | 0 <= j < k < |log| && log[j].Mutated? && log[k].Mutated? && log[j].id == log[k].id
        ensures log[j].version < log[k].version
      {
        assert InTurn(log, j, k);
      }
    }
  }

  lemma RevisionIsAheadIff(t0: Tables, log: seq<Entry>, j: nat, k: nat)
    requires Replay(t0, log).Some? && j < k < |log| && log[j].Mutated? && log[k].Mutated?
    ensures log[j].version < log[k].version <==> Ahead(t0, log, j, k)
  {
    EntryRan(t0, log, k);
    RevisionExceedsIff(Replay(t0, log[..k]).value, log[k], log[j].version);
  }

  lemma EntryRan(t0: Tables, log: seq<Entry>, k: nat)
    requires Replay(t0, log).Some? && k < |log|
    ensures Replay(t0, log[..k]).Some? && RunEntry(Replay(t0, log[..k]).value, log[k]).Some?
  {
    ReplayOfPrefix(t0, log, k + 1);
    assert log[..k + 1][..k] == log[..k];
  }

  /** A write that leaves the row of `id` below a revision. */
  ghost predicate Lowers(e: Entry, id: AppointmentId, v: Instant) {
    match e
    case Touched(touchedId, row) => touchedId == id && row.updatedAt < v
    case Released(releasedId, _, at) => releasedId == id && at < v
    case _ => false
  }

  lemma EntryLowers(t: Tables, e: Entry, id: AppointmentId, v: Instant)
    requires RunEntry(t, e).Some? && id in t.appointments && v <= t.appointments[id].updatedAt
    ensures id in RunEntry(t, e).value.appointments
    ensures RunEntry(t, e).value.appointments[id].updatedAt < v ==> Lowers(e, id, v)
  {
    if e.Mutated? {
      MutationKeepsOthers(t, e);
      RevisionExceedsIff(t, e, v);
    }
  }

  lemma MutationKeepsOthers(t: Tables, e: Entry)
    requires RunEntry(t, e).Some? && e.Mutated?
    ensures e.id in t.appointments && RunEntry(t, e).value.appointments
         == t.appointments[e.id := RunEntry(t, e).value.appointments[e.id]]
    ensures RunEntry(t, e).value.appointments[e.id].updatedAt == e.version
  {
    var m := Load(t, e.id);
    var p := MakePlan(m, e.req.operation, e.x).value;
    var technician := ValidateSlot(t.appointments, e.id, p, e.x, e.clocks.guardNow).value;
    PublishReplacesRow(t, e.id, Draft(m, e.req.operation, p, technician, e.x, e.clocks.versionClock).value);
  }

  ghost predicate LoweredBetween(log: seq<Entry>, j: nat, k: nat, id: AppointmentId, v: Instant)
    requires k <= |log|
  {
    exists q: nat :: j < q < k && Lowers(log[q], id, v)
  }

  lemma ReplayAt(t0: Tables, log: seq<Entry>, k: nat)
    requires Replay(t0, log).Some? && 0 < k <= |log|
    ensures Replay(t0, log[..k - 1]).Some?
    ensures Replay(t0, log[..k]) == RunEntry(Replay(t0, log[..k - 1]).value, log[k - 1]) && Replay(t0, log[..k]).Some?
  {
    ReplayOfPrefix(t0, log, k);
    assert log[..k][..k - 1] == log[..k - 1];
  }

  /** One entry after `j`: the row stays, and if it now stands below, some write since put it there. */
  lemma FallStep(before: Tables, after: Tables, log: seq<Entry>, j: nat, k: nat, id: AppointmentId, v: Instant)
    requires j < k - 1 < |log| && RunEntry(before, log[k - 1]) == Some(after) && id in before.appointments
    requires before.appointments[id].updatedAt >= v || LoweredBetween(log, j, k - 1, id, v)
    ensures id in after.appointments
    ensures after.appointments[id].updatedAt >= v || LoweredBetween(log, j, k, id, v)
  {
    RowStays(before, log[k - 1], id);
    if before.appointments[id].updatedAt >= v {
      EntryLowers(before, log[k - 1], id, v);
      assert Lowers(log[k - 1], id, v) ==> LoweredBetween(log, j, k, id, v);
    } else {
      var q: nat :| j < q < k - 1 && Lowers(log[q], id, v);
      assert LoweredBetween(log, j, k, id, v);
    }
  }

  /** Once entry `j` gave the row its revision, the row stands below it only after a write that put it there. */
  lemma {:induction false} RowFallsByLowering(t0: Tables, log: seq<Entry>, j: nat, k: nat)
    requires Replay(t0, log).Some? && j < k <= |log| && log[j].Mutated?
    ensures Replay(t0, log[..k]).Some? && log[j].id in Replay(t0, log[..k]).value.appointments
    ensures Replay(t0, log[..k]).value.appointments[log[j].id].updatedAt >= log[j].version
         || LoweredBetween(log, j, k, log[j].id, log[j].version)
    decreases k - j
  {
    ReplayAt(t0, log, k);
    var before, after := Replay(t0, log[..k - 1]).value, Replay(t0, log[..k]).value;
    if k - 1 == j {
      MutationKeepsOthers(before, log[j]);
    } else {
      RowFallsByLowering(t0, log, j, k - 1);
      FallStep(before, after, log, j, k, log[j].id, log[j].version);
    }
  }

  lemma RowStays(t: Tables, e: Entry, id: AppointmentId)
    requires RunEntry(t, e).Some? && id in t.appointments
    ensures id in RunEntry(t, e).value.appointments
  {
    if e.Mutated? {
      MutationKeepsOthers(t, e);
    }
  }

  /** Two mutations of an appointment share a revision, or the later has a lower one, only when in between some write
      put the row below the earlier revision and the later mutation read a clock that had not passed it. */
  lemma RepeatNeedsLowering(t0: Tables, log: seq<Entry>, j: nat, k: nat)
    requires Replay(t0, log).Some? && j < k < |log|
    requires log[j].Mutated? && log[k].Mutated? && log[j].id == log[k].id && log[k].version <= log[j].version
    ensures LoweredBetween(log, j, k, log[j].id, log[j].version)
    ensures log[k].clocks.versionClock <= log[j].version
  {
    RowFallsByLowering(t0, log, j, k);
    EntryRan(t0, log, k);
    RevisionExceedsIff(Replay(t0, log[..k]).value, log[k], log[j].version);
  }

  lemma AppendedRevisionIncreases(t: Tables, t': Tables, log: seq<Entry>, e: Entry)
    requires BehindRows(t, log) && Increasing(log)
    requires forall id :: id in t.appointments ==>
               id in t'.appointments && t.appointments[id].updatedAt <= t'.appointments[id].updatedAt
    requires e.Mutated? ==>
               && e.id in t.appointments && t.appointments[e.id].updatedAt < e.version
               && e.id in t'.appointments && e.version <= t'.appointments[e.id].updatedAt
    ensures BehindRows(t', log + [e]) && Increasing(log + [e])
  {
  }

  lemma EntryIncreases(t: Tables, log: seq<Entry>, e: Entry)
    requires BehindRows(t, log) && Increasing(log)
    requires IntentsNotAhead(t) && OrdinaryIntentsAreAuthoritative(t) && RunEntry(t, e).Some? && NeverLowers(t, e)
    ensures IntentsNotAhead(RunEntry(t, e).value) && BehindRows(RunEntry(t, e).value, log + [e]) &&
              Increasing(log + [e])
  {
    EntryKeepsIntentsBehind(t, e);
    if e.Mutated? {
      OperationOfEntry(t, e);
    }
    AppendedRevisionIncreases(t, RunEntry(t, e).value, log, e);
  }

  /** When the other writers never lower `updatedAt`, the revisions of one appointment strictly increase over the
      whole history, so by `NewIntentIff` every committed mutation gets an intent of its own. */
  lemma {:induction false} RevisionsIncrease(t0: Tables, log: seq<Entry>)
    requires IntentsNotAhead(t0) && OrdinaryIntentsAreAuthoritative(t0) && Replay(t0, log).Some? &&
               OthersNeverLower(t0, log)
    ensures IntentsNotAhead(Replay(t0, log).value) && BehindRows(Replay(t0, log).value, log)
    ensures Increasing(log)
  {
    if log != [] {
      var init, e := log[..|log| - 1], log[|log| - 1];
      RevisionsIncrease(t0, init);
      ReplayKeepsOutboxSound(t0, init);
      EntryIncreases(Replay(t0, init).value, init, e);
      assert init + [e] == log;
    }
  }
}
