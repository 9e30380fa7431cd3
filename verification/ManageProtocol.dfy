/** Manage transactions as small steps that interleave with each other, with salon-first bookings and settings
    writes, with the other writers of single rows, and with the clock. */
module ManageProtocol {
  import opened Wrappers
  import opened Blocking
  import opened Appointments
  import opened ManageSpec

  // ---- Locks ----

  datatype Lock = Technician(technician: TechnicianId) | Row(appointment: AppointmentId)
                | SalonShare | SalonExclusive | Event(event: nat)

  // ---- Transactions ----

  datatype Phase =
    | TakeTechnicians(taken: nat)
    | TakeSalon
    | TakeEvent
    | ReRead
    | CheckSlot(authoritative: Managed, x: Surroundings)
    | WriteRows(authoritative: Managed, x: Surroundings, plan: Plan, technician: Option<TechnicianId>,
        guardNow: Instant)
    | Commit(authoritative: Managed, x: Surroundings, plan: Plan, technician: Option<TechnicianId>, clocks: Clocks,
        draft: Managed)
    | Finished
  {
    /** How many of the locks after the technician keys are held. */
    function Rank(): nat {
      match this
      case TakeTechnicians(_) => 0
      case TakeSalon => 1
      case TakeEvent => 2
      case _ => 3
    }
  }

  datatype BookingPhase = BookSalon | BookTechnician | BookGuard | BookInsert(guardNow: Instant) | BookFinished

  datatype SettingsPhase = SettingsWait | SettingsHold | SettingsFinished

  datatype Tx =
    | Manage(id: AppointmentId, loaded: Managed, req: Request, phase: Phase)
    | Booking(newId: AppointmentId, row: Appointment, bookingPhase: BookingPhase)
    | Settings(settingsPhase: SettingsPhase)

  /** The technician keys in the order they are taken: distinct, truthy, sorted. */
  function Keys(loaded: Managed, op: Operation): seq<TechnicianId> {
    var current := loaded.appointment.technicianId;
    var target := TargetTechnician(loaded, op);
    if !Names(current) && !Names(target) then []
    else if !Names(current) || current == target then [target.value]
    else if !Names(target) then [current.value]
    else if current.value < target.value then [current.value, target.value]
    else [target.value, current.value]
  }

  predicate Holds(tx: Tx, l: Lock) {
    match tx
    case Manage(id, loaded, req, phase) =>
      if phase.Finished? then false
      else
        (match l
         case Technician(t) =>
           var keys := Keys(loaded, req.operation);
           if phase.TakeTechnicians? then phase.taken <= |keys| && t in keys[..phase.taken] else t in keys
         case Row(a) => phase.Rank() >= 1 && a == id
         case SalonShare => phase.Rank() >= 2
         case SalonExclusive => false
         case Event(e) => phase.Rank() >= 3 && req.fence.Some? && e == req.fence.value.rowId)
    case Booking(_, row, phase) =>
      (match l
       case SalonShare => phase.BookTechnician? || phase.BookGuard? || phase.BookInsert?
       case Technician(t) => (phase.BookGuard? || phase.BookInsert?) && row.technicianId == Some(t)
       case _ => false)
    case Settings(phase) => l.SalonExclusive? && phase.SettingsHold?
  }

  /** A lock `tx` holds stands in the way of granting `l`. */
  predicate Obstructs(tx: Tx, l: Lock) {
    match l
    case SalonShare => Holds(tx, SalonExclusive)
    case SalonExclusive => Holds(tx, SalonExclusive) || Holds(tx, SalonShare)
    case _ => Holds(tx, l)
  }

  /** The lock a transaction blocks on; the salon lock of a manage transaction is NOWAIT and never blocks. */
  function Wants(tx: Tx): Option<Lock> {
    match tx
    case Manage(id, loaded, req, phase) =>
      (match phase
       case TakeTechnicians(k) =>
         var keys := Keys(loaded, req.operation);
         if k < |keys| then Some(Technician(keys[k])) else Some(Row(id))
       case TakeEvent => if req.fence.Some? then Some(Event(req.fence.value.rowId)) else None
       case CheckSlot(m, x) =>
         var target := TargetTechnician(m, req.operation);
         if Names(target) then Some(Technician(target.value)) else None
       case _ => None)
    case Booking(_, row, phase) =>
      (match phase
       case BookSalon => Some(SalonShare)
       case BookTechnician => if row.technicianId.Some? then Some(Technician(row.technicianId.value)) else None
       case _ => None)
    case Settings(phase) => if phase.SettingsWait? then Some(SalonExclusive) else None
  }

  // ---- History ----

  /** What committed, in commit order. */
  datatype Entry =
    | Mutated(id: AppointmentId, loaded: Managed, req: Request, x: Surroundings, clocks: Clocks, version: Instant)
    | Inserted(newId: AppointmentId, row: Appointment)
    | Released(releasedId: AppointmentId, status: Status, releasedAt: Instant)
    | Touched(touchedId: AppointmentId, touched: Appointment)
    | IntentMoved(index: nat, intentStatus: IntentStatus)
    | EventChanged(event: nat, state: CalendarEvent)

  /** A write of reminder marks, calendar state and `updatedAt`: the booking itself stays as it is. */
  predicate SameBooking(a: Appointment, b: Appointment) {
    b == a.(dayBeforeReminderSentAt := b.dayBeforeReminderSentAt, sameDayReminderSentAt := b.sameDayReminderSentAt,
            calendarPending := b.calendarPending, updatedAt := b.updatedAt)
  }

  predicate Terminal(s: Status) { s.Completed? || s.Cancelled? || s.NoShow? }

  /** Running one history entry alone. A mutation is the whole locked mutation, fence checked at its own time. */
  function RunEntry(t: Tables, e: Entry): Option<Tables> {
    match e
    case Mutated(id, loaded, req, x, clocks, version) =>
      if LockedRead(t, id).Err? || !Compare(Load(t, id), loaded, req, x).Proceed? then None
      else
        var r := MutateBehindFence(t, id, loaded, req, x, clocks);
        if r.Ok? && id in r.value.appointments && r.value.appointments[id].updatedAt == version then Some(r.value)
            else None
    case Inserted(id, row) =>
      if id in t.appointments || !SlotAccepts(t, id, row) then None
      else Some(t.(appointments := t.appointments[id := row]))
    case Released(id, status, at) =>
      if id !in t.appointments || !Terminal(status) then None
      else Some(t.(appointments := t.appointments[id := t.appointments[id].(status := status, updatedAt := at)]))
    case Touched(id, row) =>
      if id !in t.appointments || !SameBooking(t.appointments[id], row) then None
      else Some(t.(appointments := t.appointments[id := row]))
    case IntentMoved(k, status) =>
      if k >= |t.outbox| || !Authoritative(status) then None
      else Some(t.(outbox := t.outbox[k := t.outbox[k].(status := status)]))
    case EventChanged(e, state) => Some(t.(events := t.events[e := state]))
  }

  function Replay(t: Tables, log: seq<Entry>): Option<Tables> {
    if log == [] then Some(t)
    else
      var before := Replay(t, log[..|log| - 1]);
      if before.None? then None else RunEntry(before.value, log[|log| - 1])
  }

  // ---- States and steps ----

  datatype State = State(tables: Tables, clock: Instant, txs: map<nat, Tx>, log: seq<Entry>)

  datatype Action =
    | Tick(later: Instant)
    | Begin(i: nat, tx: Tx)
    | Abort(i: nat)
    | AcquireTechnician(i: nat)
    | AcquireRow(i: nat)
    | AcquireSalonNowait(i: nat)
    | AcquireEvent(i: nat)
    | Reload(i: nat, x: Surroundings)
    | ValidateStep(i: nat)
    | WriteStep(i: nat, versionClock: Instant)
    | CommitStep(i: nat)
    | BookingStep(i: nat)
    | SettingsStep(i: nat)
    | Release(releasedId: AppointmentId, status: Status, releasedAt: Instant)
    | Touch(touchedId: AppointmentId, touched: Appointment)
    | MoveIntent(index: nat, intentStatus: IntentStatus)
    | ChangeEvent(event: nat, state: CalendarEvent)

  predicate Grantable(s: State, i: nat, l: Lock) {
    forall j :: j in s.txs && j != i ==> !Obstructs(s.txs[j], l)
  }

  predicate Unlocked(s: State, l: Lock) {
    forall j :: j in s.txs ==> !Obstructs(s.txs[j], l)
  }

  /** A new transaction: any request on any loaded snapshot, however old, but for a reassignment to nobody, which is
      refused before it starts; a booking names a technician and takes some time. */
  predicate Startable(tx: Tx) {
    match tx
    case Manage(_, loaded, req, phase) =>
      phase == TakeTechnicians(0) && req.operation != Reassign(EMPTY_TECHNICIAN)
    case Booking(_, row, phase) => phase.BookSalon? && Names(row.technicianId) && row.Lasts()
    case Settings(phase) => phase.SettingsWait?
  }

  function WithPhase(s: State, i: nat, phase: Phase): State
    requires i in s.txs && s.txs[i].Manage?
  {
    s.(txs := s.txs[i := s.txs[i].(phase := phase)])
  }

  function WithBooking(s: State, i: nat, phase: BookingPhase): State
    requires i in s.txs && s.txs[i].Booking?
  {
    s.(txs := s.txs[i := s.txs[i].(bookingPhase := phase)])
  }

  function Logged(s: State, t: Tables, e: Entry): State {
    s.(tables := t, log := s.log + [e])
  }

  predicate ManageStep(s: State, i: nat) { i in s.txs && s.txs[i].Manage? }

  ghost predicate Next(s: State, a: Action, s': State) {
    match a
    case Tick(later) => later >= s.clock && s' == s.(clock := later)

    case Begin(i, tx) => i !in s.txs && Startable(tx) && s' == s.(txs := s.txs[i := tx])

    case Abort(i) =>
      && i in s.txs
      && s' == s.(txs := s.txs[i := match s.txs[i]
                                    case Manage(_, _, _, _) => s.txs[i].(phase := Finished)
                                    case Booking(_, _, _) => s.txs[i].(bookingPhase := BookFinished)
                                    case Settings(_) => Settings(SettingsFinished)])

    case AcquireTechnician(i) =>
      && ManageStep(s, i) && s.txs[i].phase.TakeTechnicians?
      && (var keys, k := Keys(s.txs[i].loaded, s.txs[i].req.operation), s.txs[i].phase.taken;
          k < |keys| && Grantable(s, i, Technician(keys[k])) && s' == WithPhase(s, i, TakeTechnicians(k + 1)))

    case AcquireRow(i) =>
      && ManageStep(s, i)
      && s.txs[i].phase == TakeTechnicians(|Keys(s.txs[i].loaded, s.txs[i].req.operation)|)
      && Grantable(s, i, Row(s.txs[i].id))
      && s' == WithPhase(s, i, if LockedRead(s.tables, s.txs[i].id).Ok? then TakeSalon else Finished)

    case AcquireSalonNowait(i) =>
      && ManageStep(s, i) && s.txs[i].phase.TakeSalon?
      && s' == WithPhase(s, i, if Grantable(s, i, SalonShare) then TakeEvent else Finished)

    case AcquireEvent(i) =>
      && ManageStep(s, i) && s.txs[i].phase.TakeEvent?
      && (s.txs[i].req.fence.Some? ==> Grantable(s, i, Event(s.txs[i].req.fence.value.rowId)))
      && s' == WithPhase(s, i, if CheckFence(s.tables, s.txs[i].id, s.txs[i].req.fence).Ok? then ReRead else Finished)

    case Reload(i, x) =>
      && ManageStep(s, i) && s.txs[i].phase.ReRead? && s.txs[i].id in s.tables.appointments
      && (var m := Load(s.tables, s.txs[i].id);
          s' == WithPhase(s, i, if Compare(m, s.txs[i].loaded, s.txs[i].req, x).Proceed? then CheckSlot(m, x)
              else Finished))

    case ValidateStep(i) =>
      && ManageStep(s, i) && s.txs[i].phase.CheckSlot?
      && (Wants(s.txs[i]).Some? ==> Grantable(s, i, Wants(s.txs[i]).value))
      && (var m, x, id := s.txs[i].phase.authoritative, s.txs[i].phase.x, s.txs[i].id;
          var plan := MakePlan(m, s.txs[i].req.operation, x);
          if plan.Err? || ValidateSlot(s.tables.appointments, id, plan.value, x, s.clock).Err?
          then s' == WithPhase(s, i, Finished)
          else s' == WithPhase(s, i, WriteRows(m, x, plan.value,
                                 ValidateSlot(s.tables.appointments, id, plan.value, x, s.clock).value, s.clock)))

    case WriteStep(i, versionClock) =>
      && ManageStep(s, i) && s.txs[i].phase.WriteRows? && versionClock <= s.clock
      && (var w := s.txs[i].phase;
          var draft := Draft(w.authoritative, s.txs[i].req.operation, w.plan, w.technician, w.x, versionClock);
          s' == WithPhase(s, i, if draft.Err? || !SlotAccepts(s.tables, s.txs[i].id, draft.value.appointment)
                                then Finished
                                else Commit(w.authoritative, w.x, w.plan, w.technician,
                                    Clocks(w.guardNow, versionClock), draft.value)))

    case CommitStep(i) =>
      && ManageStep(s, i) && s.txs[i].phase.Commit? && s.txs[i].id in s.tables.appointments
      && (var tx, c := s.txs[i], s.txs[i].phase;
          s' == Logged(WithPhase(s, i, Finished), Publish(s.tables, tx.id, c.draft),
                       Mutated(tx.id, tx.loaded, tx.req, c.x, c.clocks, c.draft.appointment.updatedAt)))

    case BookingStep(i) =>
      && i in s.txs && s.txs[i].Booking?
      && (var tx := s.txs[i];
          match tx.bookingPhase
          case BookSalon => Grantable(s, i, SalonShare) && s' == WithBooking(s, i, BookTechnician)
          case BookTechnician =>
            && tx.row.technicianId.Some? && Grantable(s, i, Technician(tx.row.technicianId.value))
            && s' == WithBooking(s, i, BookGuard)
          case BookGuard =>
            && tx.row.technicianId.Some?
            && s' == WithBooking(s, i,
                 if SlotFree(s.tables.appointments, tx.row.technicianId.value, tx.row.startTime,
                     tx.row.OccupiedUntil(), None, s.clock)
                 then BookInsert(s.clock) else BookFinished)
          case BookInsert(_) =>
            && tx.newId !in s.tables.appointments
            && s' == if SlotAccepts(s.tables, tx.newId, tx.row)
                     then Logged(WithBooking(s, i, BookFinished),
                                 s.tables.(appointments := s.tables.appointments[tx.newId := tx.row]),
                                 Inserted(tx.newId, tx.row))
                     else WithBooking(s, i, BookFinished)
          case BookFinished => false)

    case SettingsStep(i) =>
      && i in s.txs && s.txs[i].Settings?
      && (match s.txs[i].settingsPhase
          case SettingsWait => Grantable(s, i, SalonExclusive) && s' == s.(txs := s.txs[i := Settings(SettingsHold)])
          case SettingsHold => s' == s.(txs := s.txs[i := Settings(SettingsFinished)])
          case SettingsFinished => false)

    case Release(id, status, at) =>
      && id in s.tables.appointments && Terminal(status) && Unlocked(s, Row(id))
      && s' == Logged(s, s.tables.(appointments := s.tables.appointments[id :=
                        s.tables.appointments[id].(status := status, updatedAt := at)]), Released(id, status, at))

    case Touch(id, row) =>
      && id in s.tables.appointments && SameBooking(s.tables.appointments[id], row) && Unlocked(s, Row(id))
      && s' == Logged(s, s.tables.(appointments := s.tables.appointments[id := row]), Touched(id, row))

    case MoveIntent(k, status) =>
      && k < |s.tables.outbox| && Authoritative(status)
      && s' == Logged(s, s.tables.(outbox := s.tables.outbox[k := s.tables.outbox[k].(status := status)]),
          IntentMoved(k, status))

    case ChangeEvent(e, state) =>
      && Unlocked(s, Event(e))
      && s' == Logged(s, s.tables.(events := s.tables.events[e := state]), EventChanged(e, state))
  }

  /** Where runs start: no transaction, no history, a table without clashes that the slot constraints accept, whose rows
      and intents are sound. */
  ghost predicate Init(s: State) {
    && s.txs == map[] && s.log == []
    && SoundRows(s.tables)
    && SlotsRespected(s.tables)
    && NoClash(s.tables.appointments, s.clock)
  }

  ghost predicate SoundRows(t: Tables) {
    && RowsLast(t)
    && (forall a :: a in t.appointments ==> t.appointments[a].technicianId != Some(EMPTY_TECHNICIAN))
    && (forall k :: 0 <= k < |t.outbox| && t.outbox[k].ordinary ==> Authoritative(t.outbox[k].status))
  }

  /** A run: consecutive states are steps apart. */
  ghost predicate Run(states: seq<State>, actions: seq<Action>) {
    && |states| == |actions| + 1
    && Init(states[0])
    && forall n :: 0 <= n < |actions| ==> Next(states[n], actions[n], states[n + 1])
  }
}
