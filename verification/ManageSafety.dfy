/** What every step of the manage protocol keeps, and what therefore holds over whole runs. */
module ManageSafety {
  import opened Wrappers
  import opened Blocking
  import opened Appointments
  import opened ManageSpec
  import opened ManageLaws
  import opened ManageProtocol

  // ---- The invariant ----

  /** No lock is held by one transaction while another holds a conflicting one. */
  ghost predicate Exclusive(s: State) {
    forall i, j, l :: i in s.txs && j in s.txs && i != j && Holds(s.txs[i], l) ==> !Obstructs(s.txs[j], l)
  }

  /** Feedback that passed the fence is at least as new as every committed mutation of its appointment. */
  ghost predicate FenceClear(log: seq<Entry>, id: AppointmentId, fence: Option<Fence>) {
    fence.Some? && fence.value.remoteMutationVersion.Some? ==>
      forall k :: 0 <= k < |log| && log[k].Mutated? && log[k].id == id ==>
          log[k].version <= fence.value.remoteMutationVersion.value
  }

  ghost predicate Loaded(t: Tables, tx: Tx, m: Managed, x: Surroundings)
    requires tx.Manage?
  {
    && tx.id in t.appointments
    && Load(t, tx.id) == m
    && Compare(m, tx.loaded, tx.req, x).Proceed?
  }

  ghost predicate SlotHolds(t: Tables, tx: Tx, m: Managed, x: Surroundings, plan: Plan,
                            technician: Option<TechnicianId>, guardNow: Instant)
    requires tx.Manage?
  {
    && Loaded(t, tx, m, x)
    && MakePlan(m, tx.req.operation, x) == Ok(plan)
    && ValidateSlot(t.appointments, tx.id, plan, x, guardNow) == Ok(technician)
  }

  /** What a transaction has established stays established while it holds its locks. */
  ghost predicate TxOk(t: Tables, clock: Instant, log: seq<Entry>, tx: Tx) {
    match tx
    case Manage(id, loaded, req, phase) =>
      && req.operation != Reassign(EMPTY_TECHNICIAN)
      && (phase.TakeTechnicians? ==> phase.taken <= |Keys(loaded, req.operation)|)
      && (phase.Rank() >= 1 && !phase.Finished? ==> LockedRead(t, id).Ok?)
      && (phase.Rank() >= 3 && !phase.Finished? ==> FenceClear(log, id, req.fence))
      && (phase.CheckSlot? ==> Loaded(t, tx, phase.authoritative, phase.x))
      && (phase.WriteRows? ==>
            phase.guardNow <= clock && SlotHolds(t, tx, phase.authoritative, phase.x, phase.plan, phase.technician,
                phase.guardNow))
      && (phase.Commit? ==>
            && phase.clocks.guardNow <= clock
            && SlotHolds(t, tx, phase.authoritative, phase.x, phase.plan, phase.technician, phase.clocks.guardNow)
            && Draft(phase.authoritative, req.operation, phase.plan, phase.technician, phase.x,
                phase.clocks.versionClock) == Ok(phase.draft)
            && SlotAccepts(t, id, phase.draft.appointment))
    case Booking(_, row, phase) =>
      && Names(row.technicianId) && row.Lasts()
      && (phase.BookInsert? ==>
            phase.guardNow <= clock
            && SlotFree(t.appointments, row.technicianId.value, row.startTime, row.OccupiedUntil(), None,
                phase.guardNow))
    case Settings(_) => true
  }

  ghost predicate AllTxOk(s: State) {
    forall i :: i in s.txs ==> TxOk(s.tables, s.clock, s.log, s.txs[i])
  }

  ghost predicate LogAnnounced(t: Tables, log: seq<Entry>) {
    forall k :: 0 <= k < |log| && log[k].Mutated? ==> Announced(t.outbox, log[k].id, log[k].version)
  }

  /** No committed feedback is older than an earlier committed mutation of the same appointment. */
  ghost predicate EchoFree(log: seq<Entry>) {
    forall j, k :: 0 <= j < k < |log| && log[j].Mutated? && log[k].Mutated? && log[j].id == log[k].id
      && log[k].req.fence.Some? && log[k].req.fence.value.remoteMutationVersion.Some?
      ==> log[j].version <= log[k].req.fence.value.remoteMutationVersion.value
  }

  ghost predicate Inv(t0: Tables, s: State) {
    && Exclusive(s)
    && AllTxOk(s)
    && SoundRows(s.tables)
    && Replay(t0, s.log) == Some(s.tables)
    && LogAnnounced(s.tables, s.log)
    && EchoFree(s.log)
  }

  // ---- Locks ----

  /** The transaction an action belongs to. */
  function Actor(a: Action): Option<nat> {
    match a
    case Begin(i, _) => Some(i)
    case Abort(i) => Some(i)
    case AcquireTechnician(i) => Some(i)
    case AcquireRow(i) => Some(i)
    case AcquireSalonNowait(i) => Some(i)
    case AcquireEvent(i) => Some(i)
    case Reload(i, _) => Some(i)
    case ValidateStep(i) => Some(i)
    case WriteStep(i, _) => Some(i)
    case CommitStep(i) => Some(i)
    case BookingStep(i) => Some(i)
    case SettingsStep(i) => Some(i)
    case _ => None
  }

  lemma OthersStayPut(s: State, a: Action, s': State)
    requires Next(s, a, s')
    ensures Actor(a).None? ==> s'.txs == s.txs
    ensures Actor(a).Some? ==> s'.txs == s.txs[Actor(a).value := s'.txs[Actor(a).value]] && Actor(a).value in s'.txs
  {
  }

  lemma ManageLocksWereGranted(s: State, a: Action, s': State, i: nat, l: Lock)
    requires Next(s, a, s') && Actor(a) == Some(i) && i in s.txs && s.txs[i].Manage? &&
               TxOk(s.tables, s.clock, s.log, s.txs[i])
    requires i in s'.txs && Holds(s'.txs[i], l)
    ensures Holds(s.txs[i], l) || Grantable(s, i, l)
  {
    if a.AcquireTechnician? {
      var keys, k := Keys(s.txs[i].loaded, s.txs[i].req.operation), s.txs[i].phase.taken;
      assert keys[..k + 1] == keys[..k] + [keys[k]];
    } else if a.AcquireRow? {
      var keys := Keys(s.txs[i].loaded, s.txs[i].req.operation);
      assert keys[..|keys|] == keys;
    }
  }

  lemma OtherLocksWereGranted(s: State, a: Action, s': State, i: nat, l: Lock)
    requires Next(s, a, s') && Actor(a) == Some(i) && (i in s.txs ==> !s.txs[i].Manage?)
    requires i in s'.txs && Holds(s'.txs[i], l)
    ensures (i in s.txs && Holds(s.txs[i], l)) || Grantable(s, i, l)
  {
  }

  lemma GrantedLocksKeepExclusive(s: State, i: nat, tx: Tx)
    requires Exclusive(s)
    requires forall l :: Holds(tx, l) ==> Grantable(s, i, l)
    ensures Exclusive(s.(txs := s.txs[i := tx]))
  {
    forall j, l | j in s.txs && j != i
      ensures Holds(tx, l) ==> !Obstructs(s.txs[j], l)
      ensures Holds(s.txs[j], l) ==> !Obstructs(tx, l)
    {
      assert Holds(tx, SalonShare) ==> Grantable(s, i, SalonShare);
      assert Holds(tx, SalonExclusive) ==> Grantable(s, i, SalonExclusive);
    }
  }

  lemma NextKeepsExclusive(s: State, a: Action, s': State)
    requires Exclusive(s) && AllTxOk(s) && Next(s, a, s')
    ensures Exclusive(s')
  {
    OthersStayPut(s, a, s');
    if Actor(a).Some? {
      var i := Actor(a).value;
      forall l | Holds(s'.txs[i], l)
        ensures Grantable(s, i, l)
      {
        if i in s.txs && s.txs[i].Manage? {
          ManageLocksWereGranted(s, a, s', i, l);
        } else {
          OtherLocksWereGranted(s, a, s', i, l);
        }
      }
      GrantedLocksKeepExclusive(s, i, s'.txs[i]);
    }
  }

  /** Once loaded rows are current, the technician the slot check locks again is a key already held, and so is
      the key of the technician the row has now. */
  lemma RelockedKeyIsHeld(t: Tables, tx: Tx, m: Managed, x: Surroundings)
    requires tx.Manage? && Loaded(t, tx, m, x)
    ensures var keys := Keys(tx.loaded, tx.req.operation);
      && (Names(TargetTechnician(m, tx.req.operation)) ==> TargetTechnician(m, tx.req.operation).value in keys)
      && (Names(m.appointment.technicianId) ==> m.appointment.technicianId.value in keys)
  {
  }

  // ---- Other transactions' steps ----

  /** Whoever stands on a technician in `after` already stood there, in the same window, in `before`. */
  ghost predicate NoNewOccupant(before: map<AppointmentId, Appointment>, after: map<AppointmentId, Appointment>,
                                technician: TechnicianId) {
    forall b :: b in after && after[b].technicianId == Some(technician) ==>
      b in before && Subsumed(after[b], before[b])
  }

  ghost predicate Subsumed(r: Appointment, was: Appointment) {
    && r.technicianId == was.technicianId && r.startTime == was.startTime && r.endTime == was.endTime
    && r.OccupiedUntil() == was.OccupiedUntil()
    && (r.HoldsSlot() ==> was.HoldsSlot())
    && forall now :: r.Blocks(now) ==> was.Blocks(now)
  }

  ghost predicate SameRows(before: Tables, after: Tables, id: AppointmentId) {
    && (id in before.appointments <==> id in after.appointments)
    && (id in before.appointments ==> Load(before, id) == Load(after, id))
  }

  /** A table change that respects the locks `tx` holds. */
  ghost predicate QuietFor(before: Tables, after: Tables, tx: Tx) {
    && (forall id :: Holds(tx, Row(id)) ==> SameRows(before, after, id))
    && (forall d :: Holds(tx, Technician(d)) ==> NoNewOccupant(before.appointments, after.appointments, d))
    && after.exclusion == before.exclusion
  }

  lemma FreeSlotStaysFree(before: map<AppointmentId, Appointment>, after: map<AppointmentId, Appointment>,
                          technician: TechnicianId,
                          startTime: Instant, blockedEnd: Instant, excluded: Option<AppointmentId>, now: Instant)
    requires SlotFree(before, technician, startTime, blockedEnd, excluded, now)
    requires NoNewOccupant(before, after, technician)
    ensures SlotFree(after, technician, startTime, blockedEnd, excluded, now)
  {
    forall b | b in after && excluded != Some(b)
      ensures !Conflicts(after[b], technician, startTime, blockedEnd, now)
    {
      if after[b].technicianId == Some(technician) {
        assert !Conflicts(before[b], technician, startTime, blockedEnd, now);
      }
    }
  }

  lemma AcceptedRowStaysAccepted(t: Tables, t': Tables, id: AppointmentId, row: Appointment)
    requires SlotAccepts(t, id, row) && t'.exclusion == t.exclusion
    requires row.technicianId.Some? ==> NoNewOccupant(t.appointments, t'.appointments, row.technicianId.value)
    ensures SlotAccepts(t', id, row)
  {
    forall b | b in t'.appointments && b != id
      ensures !Collide(row, t'.appointments[b], t'.exclusion)
    {
      if row.technicianId.Some? && t'.appointments[b].technicianId == row.technicianId {
        assert !Collide(row, t.appointments[b], t.exclusion);
      }
    }
  }

  lemma SlotVerdictStays(t: Tables, t': Tables, tx: Tx, m: Managed, x: Surroundings, plan: Plan,
                         technician: Option<TechnicianId>, guardNow: Instant)
    requires tx.Manage? && tx.phase.Rank() >= 3 && !tx.phase.Finished? && QuietFor(t, t', tx)
    requires SlotHolds(t, tx, m, x, plan, technician, guardNow)
    ensures SlotHolds(t', tx, m, x, plan, technician, guardNow)
  {
    assert Holds(tx, Row(tx.id));
    RelockedKeyIsHeld(t, tx, m, x);
    if Names(plan.technicianId) {
      assert Holds(tx, Technician(plan.technicianId.value));
      FreeSlotStaysFree(t.appointments, t'.appointments, plan.technicianId.value, plan.startTime, plan.BlockedEnd(),
          Some(tx.id), guardNow);
    }
  }

  lemma QuietStepKeepsPhase(t: Tables, t': Tables, clock: Instant, log: seq<Entry>, tx: Tx)
    requires tx.Manage? && TxOk(t, clock, log, tx) && QuietFor(t, t', tx)
    ensures tx.phase.CheckSlot? ==> Loaded(t', tx, tx.phase.authoritative, tx.phase.x)
    ensures tx.phase.WriteRows? ==>
              SlotHolds(t', tx, tx.phase.authoritative, tx.phase.x, tx.phase.plan, tx.phase.technician,
                  tx.phase.guardNow)
    ensures tx.phase.Commit? ==>
              SlotHolds(t', tx, tx.phase.authoritative, tx.phase.x, tx.phase.plan, tx.phase.technician,
                  tx.phase.clocks.guardNow)
  {
    var phase := tx.phase;
    if phase.CheckSlot? {
      assert Holds(tx, Row(tx.id));
    } else if phase.WriteRows? {
      SlotVerdictStays(t, t', tx, phase.authoritative, phase.x, phase.plan, phase.technician, phase.guardNow);
    } else if phase.Commit? {
      SlotVerdictStays(t, t', tx, phase.authoritative, phase.x, phase.plan, phase.technician, phase.clocks.guardNow);
    }
  }

  /** The constraints' verdict on the row about to be committed stays as well: its technician's key is held. */
  lemma QuietStepKeepsAcceptance(t: Tables, t': Tables, clock: Instant, log: seq<Entry>, tx: Tx)
    requires tx.Manage? && tx.phase.Commit? && TxOk(t, clock, log, tx) && QuietFor(t, t', tx) && SoundRows(t)
    ensures SlotAccepts(t', tx.id, tx.phase.draft.appointment)
  {
    var row := tx.phase.draft.appointment;
    DraftTechnician(t, tx, clock, log);
    assert row.technicianId.Some? ==> Holds(tx, Technician(row.technicianId.value));
    AcceptedRowStaysAccepted(t, t', tx.id, row);
  }

  /** The technician of the row about to be committed is one whose key is held. */
  lemma DraftTechnician(t: Tables, tx: Tx, clock: Instant, log: seq<Entry>)
    requires tx.Manage? && tx.phase.Commit? && TxOk(t, clock, log, tx) && SoundRows(t)
    ensures var technician := tx.phase.draft.appointment.technicianId;
      && technician != Some(EMPTY_TECHNICIAN)
      && (technician.Some? ==> technician.value in Keys(tx.loaded, tx.req.operation))
  {
    RelockedKeyIsHeld(t, tx, tx.phase.authoritative, tx.phase.x);
  }

  lemma QuietStepKeepsTxOk(t: Tables, t': Tables, clock: Instant, clock': Instant, log: seq<Entry>, log': seq<Entry>,
                           tx: Tx)
    requires TxOk(t, clock, log, tx) && clock <= clock' && QuietFor(t, t', tx) && SoundRows(t)
    requires log' == log || (|log'| == |log| + 1 && log <= log'
               && (log'[|log|].Mutated? ==> !Holds(tx, Row(log'[|log|].id))))
    ensures TxOk(t', clock', log', tx)
  {
    match tx
    case Manage(id, loaded, req, phase) =>
      if phase.Rank() >= 1 && !phase.Finished? {
        assert Holds(tx, Row(id));
      }
      QuietStepKeepsPhase(t, t', clock, log, tx);
      if phase.Commit? {
        QuietStepKeepsAcceptance(t, t', clock, log, tx);
      }
    case Booking(_, row, phase) =>
      if phase.BookInsert? {
        assert Holds(tx, Technician(row.technicianId.value));
        FreeSlotStaysFree(t.appointments, t'.appointments, row.technicianId.value, row.startTime, row.OccupiedUntil(),
            None, phase.guardNow);
      }
    case Settings(_) =>
  }

  /** What a committing transaction publishes, as one operation on the current tables. */
  lemma CommitIsOneOperation(t: Tables, tx: Tx, clock: Instant, log: seq<Entry>)
    requires tx.Manage? && tx.phase.Commit? && TxOk(t, clock, log, tx) && SoundRows(t)
    ensures tx.id in t.appointments
    ensures ApplyOperation(t, tx.id, tx.req.operation, tx.phase.x, tx.phase.clocks)
         == Ok(Publish(t, tx.id, tx.phase.draft))
    ensures MutateBehindFence(t, tx.id, tx.loaded, tx.req, tx.phase.x, tx.phase.clocks)
         == Ok(Publish(t, tx.id, tx.phase.draft))
    ensures OnlyTouches(t, Publish(t, tx.id, tx.phase.draft), tx.id)
    ensures Publish(t, tx.id, tx.phase.draft).appointments[tx.id].updatedAt == tx.phase.draft.appointment.updatedAt
  {
    PublishTouchesOne(t, tx.id, tx.phase.draft);
  }

  /** The technician of the row a commit publishes is one whose key is held. */
  lemma CommittedRow(t: Tables, tx: Tx, clock: Instant, log: seq<Entry>)
    requires tx.Manage? && tx.phase.Commit? && TxOk(t, clock, log, tx) && SoundRows(t)
    ensures tx.id in t.appointments
    ensures var row := Publish(t, tx.id, tx.phase.draft).appointments[tx.id];
      && row.technicianId != Some(EMPTY_TECHNICIAN)
      && (row.technicianId.Some? ==> row.technicianId.value in Keys(tx.loaded, tx.req.operation))
  {
    PublishTouchesOne(t, tx.id, tx.phase.draft);
    DraftTechnician(t, tx, clock, log);
  }

  /** Two transactions none of whose locks conflict. */
  ghost predicate Apart(a: Tx, b: Tx) {
    forall l :: Holds(a, l) ==> !Obstructs(b, l)
  }

  /** A commit puts nobody on a technician whose key another transaction holds. */
  lemma CommitIsNoOccupant(t: Tables, clock: Instant, log: seq<Entry>, committing: Tx, tx: Tx, d: TechnicianId)
    requires committing.Manage? && committing.phase.Commit? && TxOk(t, clock, log, committing) && SoundRows(t)
    requires Apart(committing, tx) && Holds(tx, Technician(d))
    ensures NoNewOccupant(t.appointments, Publish(t, committing.id, committing.phase.draft).appointments, d)
  {
    var id := committing.id;
    PublishReplacesRow(t, id, committing.phase.draft);
    CommittedRow(t, committing, clock, log);
    assert !Holds(committing, Technician(d)) by {
      assert Holds(committing, Technician(d)) ==> !Obstructs(tx, Technician(d));
    }
  }

  lemma CommitIsQuiet(t: Tables, clock: Instant, log: seq<Entry>, committing: Tx, tx: Tx)
    requires committing.Manage? && committing.phase.Commit? && TxOk(t, clock, log, committing) && SoundRows(t)
    requires Apart(committing, tx) && Apart(tx, committing)
    ensures QuietFor(t, Publish(t, committing.id, committing.phase.draft), tx)
    ensures !Holds(tx, Row(committing.id))
  {
    var id := committing.id;
    PublishTouchesOne(t, id, committing.phase.draft);
    assert Holds(committing, Row(id)) && !Obstructs(tx, Row(id));
    forall d: nat | Holds(tx, Technician(d))
      ensures NoNewOccupant(t.appointments, Publish(t, id, committing.phase.draft).appointments, d)
    {
      CommitIsNoOccupant(t, clock, log, committing, tx, d);
    }
  }

  lemma InsertIsQuiet(t: Tables, clock: Instant, log: seq<Entry>, inserting: Tx, tx: Tx)
    requires inserting.Booking? && inserting.bookingPhase.BookInsert? && inserting.newId !in t.appointments
    requires TxOk(t, clock, log, tx) && Apart(tx, inserting)
    ensures QuietFor(t, t.(appointments := t.appointments[inserting.newId := inserting.row]), tx)
  {
    var t' := t.(appointments := t.appointments[inserting.newId := inserting.row]);
    forall d: nat | Holds(tx, Technician(d))
      ensures NoNewOccupant(t.appointments, t'.appointments, d)
    {
      assert !Obstructs(inserting, Technician(d));
    }
    assert !Holds(tx, Row(inserting.newId));
  }

  lemma RowWriteIsQuiet(t: Tables, id: AppointmentId, row: Appointment, tx: Tx)
    requires id in t.appointments && !Obstructs(tx, Row(id)) && Subsumed(row, t.appointments[id])
    ensures QuietFor(t, t.(appointments := t.appointments[id := row]), tx)
  {
  }

  /** Every table change made by one transaction, or by a writer of one unlocked row, is quiet for the others. */
  lemma StepsAreQuiet(s: State, a: Action, s': State, i: nat)
    requires Exclusive(s) && AllTxOk(s) && SoundRows(s.tables) && Next(s, a, s') && i in s.txs && Actor(a) != Some(i)
    ensures QuietFor(s.tables, s'.tables, s.txs[i])
    ensures a.CommitStep? ==> !Holds(s.txs[i], Row(s.txs[a.i].id))
  {
    match a
    case CommitStep(j) => CommitStepIsQuiet(s, a, s', i);
    case BookingStep(j) => BookingStepIsQuiet(s, a, s', i);
    case Release(_, _, _) => RowWritesAreQuiet(s, a, s', s.txs[i]);
    case Touch(_, _) => RowWritesAreQuiet(s, a, s', s.txs[i]);
    case _ => OtherStepsAreQuiet(s, a, s', s.txs[i]);
  }

  lemma OtherStepsAreQuiet(s: State, a: Action, s': State, tx: Tx)
    requires Next(s, a, s') && !a.CommitStep? && !a.BookingStep? && !a.Release? && !a.Touch?
    ensures QuietFor(s.tables, s'.tables, tx)
  {
    var t, t' := s.tables, s'.tables;
    assert t'.appointments == t.appointments && t'.services == t.services && t'.addOns == t.addOns;
  }

  lemma CommitStepIsQuiet(s: State, a: Action, s': State, i: nat)
    requires Exclusive(s) && AllTxOk(s) && SoundRows(s.tables) && a.CommitStep? && Next(s, a, s') && i in s.txs &&
               a.i != i
    ensures QuietFor(s.tables, s'.tables, s.txs[i])
    ensures !Holds(s.txs[i], Row(s.txs[a.i].id))
  {
    CommitIsQuiet(s.tables, s.clock, s.log, s.txs[a.i], s.txs[i]);
  }

  lemma BookingStepIsQuiet(s: State, a: Action, s': State, i: nat)
    requires Exclusive(s) && AllTxOk(s) && a.BookingStep? && Next(s, a, s') && i in s.txs && a.i != i
    ensures QuietFor(s.tables, s'.tables, s.txs[i])
  {
    var tx := s.txs[a.i];
    if tx.bookingPhase.BookInsert? && SlotAccepts(s.tables, tx.newId, tx.row) {
      InsertIsQuiet(s.tables, s.clock, s.log, s.txs[a.i], s.txs[i]);
    }
  }

  lemma RowWritesAreQuiet(s: State, a: Action, s': State, tx: Tx)
    requires (a.Release? || a.Touch?) && Next(s, a, s') && (forall l :: Unlocked(s, l) ==> !Obstructs(tx, l))
    ensures QuietFor(s.tables, s'.tables, tx)
  {
    var id := if a.Release? then a.releasedId else a.touchedId;
    assert Unlocked(s, Row(id));
    RowWriteIsQuiet(s.tables, id, s'.tables.appointments[id], tx);
  }

  // ---- A transaction's own steps ----

  lemma FencePassedIsClear(t: Tables, log: seq<Entry>, id: AppointmentId, fence: Option<Fence>)
    requires LogAnnounced(t, log) && CheckFence(t, id, fence).Ok?
    ensures FenceClear(log, id, fence)
  {
    if fence.Some? && fence.value.remoteMutationVersion.Some? {
      forall k | 0 <= k < |log| && log[k].Mutated? && log[k].id == id
        ensures log[k].version <= fence.value.remoteMutationVersion.value
      {
        if log[k].version > fence.value.remoteMutationVersion.value {
          AnnouncedOutranksOlder(t.outbox, id, log[k].version, fence.value.remoteMutationVersion.value);
        }
      }
    }
  }

  /** An announced revision refuses every older one. */
  lemma AnnouncedOutranksOlder(outbox: seq<Intent>, id: AppointmentId, version: Instant, remote: Instant)
    requires Announced(outbox, id, version) && remote < version
    ensures Superseded(outbox, id, Some(remote))
  {
    var k :| 0 <= k < |outbox| && outbox[k].appointmentId == id && Authoritative(outbox[k].status) &&
        outbox[k].version == Some(version);
    assert Outranks(outbox[k], Some(remote));
  }

  lemma OwnStepKeepsTxOk(s: State, a: Action, s': State)
    requires AllTxOk(s) && LogAnnounced(s.tables, s.log) && Next(s, a, s') && Actor(a).Some?
    ensures TxOk(s'.tables, s'.clock, s'.log, s'.txs[Actor(a).value])
  {
    match a
    case AcquireTechnician(_) => LockStepKeepsTxOk(s, a, s');
    case AcquireRow(_) => LockStepKeepsTxOk(s, a, s');
    case AcquireEvent(_) => EventStepKeepsTxOk(s, a, s');
    case Reload(_, _) => SlotStepKeepsTxOk(s, a, s');
    case ValidateStep(_) => SlotStepKeepsTxOk(s, a, s');
    case WriteStep(_, _) => SlotStepKeepsTxOk(s, a, s');
    case _ => EasyStepKeepsTxOk(s, a, s');
  }

  lemma LockStepKeepsTxOk(s: State, a: Action, s': State)
    requires AllTxOk(s) && Next(s, a, s') && (a.AcquireTechnician? || a.AcquireRow?)
    ensures TxOk(s'.tables, s'.clock, s'.log, s'.txs[a.i])
  {
    assert TxOk(s.tables, s.clock, s.log, s.txs[a.i]);
  }

  lemma EventStepKeepsTxOk(s: State, a: Action, s': State)
    requires AllTxOk(s) && LogAnnounced(s.tables, s.log) && Next(s, a, s') && a.AcquireEvent?
    ensures TxOk(s'.tables, s'.clock, s'.log, s'.txs[a.i])
  {
    var tx := s.txs[a.i];
    assert TxOk(s.tables, s.clock, s.log, tx);
    if CheckFence(s.tables, tx.id, tx.req.fence).Ok? {
      FencePassedIsClear(s.tables, s.log, tx.id, tx.req.fence);
    }
  }

  lemma SlotStepKeepsTxOk(s: State, a: Action, s': State)
    requires AllTxOk(s) && Next(s, a, s') && (a.Reload? || a.ValidateStep? || a.WriteStep?)
    ensures TxOk(s'.tables, s'.clock, s'.log, s'.txs[a.i])
  {
    assert TxOk(s.tables, s.clock, s.log, s.txs[a.i]);
  }

  lemma EasyStepKeepsTxOk(s: State, a: Action, s': State)
    requires AllTxOk(s) && Next(s, a, s') && Actor(a).Some?
    requires !a.AcquireTechnician? && !a.AcquireRow? && !a.AcquireEvent? && !a.Reload? && !a.ValidateStep? &&
               !a.WriteStep?
    ensures TxOk(s'.tables, s'.clock, s'.log, s'.txs[Actor(a).value])
  {
    assert !a.Begin? ==> TxOk(s.tables, s.clock, s.log, s.txs[Actor(a).value]);
  }

  lemma LogOfStep(s: State, a: Action, s': State)
    requires Next(s, a, s')
    ensures s'.log == s.log || (|s'.log| == |s.log| + 1 && s.log <= s'.log)
    ensures s'.log != s.log && s'.log[|s.log|].Mutated? ==> a.CommitStep? && s'.log[|s.log|].id == s.txs[a.i].id
    ensures s.clock <= s'.clock
  {
  }

  lemma NextKeepsAllTxOk(s: State, a: Action, s': State)
    requires Exclusive(s) && AllTxOk(s) && SoundRows(s.tables) && LogAnnounced(s.tables, s.log) && Next(s, a, s')
    ensures AllTxOk(s')
  {
    OthersStayPut(s, a, s');
    LogOfStep(s, a, s');
    forall i | i in s'.txs
      ensures TxOk(s'.tables, s'.clock, s'.log, s'.txs[i])
    {
      if Actor(a) == Some(i) {
        OwnStepKeepsTxOk(s, a, s');
      } else {
        StepsAreQuiet(s, a, s', i);
        QuietStepKeepsTxOk(s.tables, s'.tables, s.clock, s'.clock, s.log, s'.log, s.txs[i]);
      }
    }
  }

  // ---- Tables ----

  lemma NextKeepsSoundRows(s: State, a: Action, s': State)
    requires AllTxOk(s) && SoundRows(s.tables) && Next(s, a, s')
    ensures SoundRows(s'.tables)
  {
    match a
    case CommitStep(i) => CommitKeepsSoundRows(s.tables, s.txs[i], s.clock, s.log);
    case BookingStep(_) => BookingKeepsSoundRows(s, a, s');
    case _ =>
  }

  lemma BookingKeepsSoundRows(s: State, a: Action, s': State)
    requires AllTxOk(s) && SoundRows(s.tables) && Next(s, a, s') && a.BookingStep?
    ensures SoundRows(s'.tables)
  {
    assert TxOk(s.tables, s.clock, s.log, s.txs[a.i]);
  }

  lemma CommitKeepsSoundRows(t: Tables, tx: Tx, clock: Instant, log: seq<Entry>)
    requires tx.Manage? && tx.phase.Commit? && TxOk(t, clock, log, tx) && SoundRows(t)
    ensures SoundRows(Publish(t, tx.id, tx.phase.draft))
  {
    var c := tx.phase;
    CommittedRow(t, tx, clock, log);
    PublishTouchesOne(t, tx.id, c.draft);
    DraftLasts(c.authoritative, tx.req.operation, c.plan, c.technician, c.x, c.clocks.versionClock);
  }

  /** Rows are appended and change status among the authoritative ones; nothing is deleted or rewritten. */
  ghost predicate OutboxGrew(before: seq<Intent>, after: seq<Intent>) {
    && |before| <= |after|
    && forall k :: 0 <= k < |before| ==>
         after[k] == before[k] || (after[k] == before[k].(status := after[k].status) && Authoritative(after[k].status))
  }

  lemma AnnouncementsStay(outbox: seq<Intent>, outbox': seq<Intent>, id: AppointmentId, version: Instant)
    requires Announced(outbox, id, version)
    requires OutboxGrew(outbox, outbox')
    ensures Announced(outbox', id, version)
  {
    var k :| 0 <= k < |outbox| && outbox[k].appointmentId == id && Authoritative(outbox[k].status) &&
        outbox[k].version == Some(version);
    assert Authoritative(outbox'[k].status) && outbox'[k].version == Some(version);
  }

  lemma OutboxOnlyGrows(s: State, a: Action, s': State)
    requires AllTxOk(s) && SoundRows(s.tables) && Next(s, a, s')
    ensures OutboxGrew(s.tables.outbox, s'.tables.outbox)
  {
    if a.CommitStep? {
      CommitIsOneOperation(s.tables, s.txs[a.i], s.clock, s.log);
    }
  }

  lemma NextKeepsEchoFree(s: State, a: Action, s': State)
    requires AllTxOk(s) && EchoFree(s.log) && Next(s, a, s')
    ensures EchoFree(s'.log)
  {
    LogOfStep(s, a, s');
    if a.CommitStep? {
      assert FenceClear(s.log, s.txs[a.i].id, s.txs[a.i].req.fence);
    }
  }

  lemma NextKeepsAnnouncements(s: State, a: Action, s': State)
    requires AllTxOk(s) && SoundRows(s.tables) && LogAnnounced(s.tables, s.log) && Next(s, a, s')
    ensures LogAnnounced(s'.tables, s'.log)
  {
    OutboxOnlyGrows(s, a, s');
    LogOfStep(s, a, s');
    forall k | 0 <= k < |s'.log| && s'.log[k].Mutated?
      ensures Announced(s'.tables.outbox, s'.log[k].id, s'.log[k].version)
    {
      if k < |s.log| {
        AnnouncementsStay(s.tables.outbox, s'.tables.outbox, s.log[k].id, s.log[k].version);
      } else {
        PublishTouchesOne(s.tables, s.txs[a.i].id, s.txs[a.i].phase.draft);
      }
    }
  }

  lemma ReplayAppended(t0: Tables, log: seq<Entry>, e: Entry, t: Tables, t': Tables)
    requires Replay(t0, log) == Some(t) && RunEntry(t, e) == Some(t')
    ensures Replay(t0, log + [e]) == Some(t')
  {
    assert (log + [e])[..|log|] == log;
  }

  /** A step that logs an entry runs it on the tables. */
  lemma EntryOfStep(s: State, a: Action, s': State)
    requires AllTxOk(s) && SoundRows(s.tables) && Next(s, a, s') && s'.log != s.log
    ensures |s'.log| == |s.log| + 1 && s'.log == s.log + [s'.log[|s.log|]]
    ensures RunEntry(s.tables, s'.log[|s.log|]) == Some(s'.tables)
  {
    if a.CommitStep? {
      EntryOfCommit(s, a, s');
    }
  }

  lemma EntryOfCommit(s: State, a: Action, s': State)
    requires AllTxOk(s) && SoundRows(s.tables) && Next(s, a, s') && a.CommitStep?
    ensures |s'.log| == |s.log| + 1 && RunEntry(s.tables, s'.log[|s.log|]) == Some(s'.tables)
  {
    CommitIsOneOperation(s.tables, s.txs[a.i], s.clock, s.log);
  }

  lemma NextKeepsReplay(t0: Tables, s: State, a: Action, s': State)
    requires AllTxOk(s) && SoundRows(s.tables) && Replay(t0, s.log) == Some(s.tables) && Next(s, a, s')
    ensures Replay(t0, s'.log) == Some(s'.tables)
  {
    if s'.log != s.log {
      EntryOfStep(s, a, s');
      ReplayAppended(t0, s.log, s'.log[|s.log|], s.tables, s'.tables);
    } else {
      NoEntryNoChange(s, a, s');
    }
  }

  lemma NoEntryNoChange(s: State, a: Action, s': State)
    requires Next(s, a, s') && s'.log == s.log
    ensures s'.tables == s.tables
  {
  }

  lemma NextKeepsInv(t0: Tables, s: State, a: Action, s': State)
    requires Inv(t0, s) && Next(s, a, s')
    ensures Inv(t0, s')
  {
    NextKeepsExclusive(s, a, s');
    NextKeepsAllTxOk(s, a, s');
    NextKeepsSoundRows(s, a, s');
    NextKeepsAnnouncements(s, a, s');
    NextKeepsEchoFree(s, a, s');
    NextKeepsReplay(t0, s, a, s');
  }

  lemma {:induction false} InvHolds(states: seq<State>, actions: seq<Action>, n: nat)
    requires Run(states, actions) && n < |states|
    ensures Inv(states[0].tables, states[n])
  {
    if n > 0 {
      InvHolds(states, actions, n - 1);
      NextKeepsInv(states[0].tables, states[n - 1], actions[n - 1], states[n]);
    }
  }
}
