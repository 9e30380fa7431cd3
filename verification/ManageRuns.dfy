/** Runs with one transaction after another: every mutation the specification allows can happen, and so can what the
    premises of the theorems keep out. */
module ManageRuns {
  import opened Wrappers
  import opened Blocking
  import opened Appointments
  import opened ManageSpec
  import opened ManageLaws
  import opened ManageProtocol
  import opened ManageTheorems

  lemma Extended(states: seq<State>, actions: seq<Action>, a: Action, s: State)
    requires Run(states, actions) && Next(states[|actions|], a, s)
    ensures Run(states + [s], actions + [a])
  {
    var longer, more := states + [s], actions + [a];
    forall n | 0 <= n < |more|
      ensures Next(longer[n], more[n], longer[n + 1])
    {
      if n < |actions| {
        assert Next(states[n], actions[n], states[n + 1]);
      }
    }
  }

  lemma Then(states: seq<State>, actions: seq<Action>, a: Action, s: State)
      returns (states': seq<State>, actions': seq<Action>)
    requires Run(states, actions) && Next(states[|actions|], a, s)
    ensures Run(states', actions') && states <= states' && states'[|actions'|] == s
  {
    Extended(states, actions, a, s);
    states', actions' := states + [s], actions + [a];
  }

  // ---- One mutation ----

  /** Nobody holds a lock, and transaction `i` is yet to begin. */
  ghost predicate Idle(s: State, i: nat) {
    && i !in s.txs
    && forall j, l :: j in s.txs ==> !Obstructs(s.txs[j], l)
  }

  /** A mutation that was not refused and has something to do, with the draft it publishes. */
  ghost predicate Succeeds(t: Tables, e: Entry, p: Plan, technician: Option<TechnicianId>, d: Managed) {
    && e.Mutated? && e.id in t.appointments
    && e.req.operation != Reassign(EMPTY_TECHNICIAN)
    && LockedRead(t, e.id).Ok? && CheckFence(t, e.id, e.req.fence).Ok?
    && Compare(Load(t, e.id), e.loaded, e.req, e.x).Proceed?
    && MakePlan(Load(t, e.id), e.req.operation, e.x) == Ok(p)
    && ValidateSlot(t.appointments, e.id, p, e.x, e.clocks.guardNow) == Ok(technician)
    && Draft(Load(t, e.id), e.req.operation, p, technician, e.x, e.clocks.versionClock) == Ok(d)
    && SlotAccepts(t, e.id, d.appointment)
    && e.version == d.appointment.updatedAt
  }

  function At(s: State, i: nat, e: Entry, phase: Phase): State
    requires e.Mutated?
  {
    s.(txs := s.txs[i := Manage(e.id, e.loaded, e.req, phase)])
  }

  lemma {:induction false} KeysAreTaken(states: seq<State>, actions: seq<Action>, i: nat, e: Entry, n: nat)
      returns (states': seq<State>, actions': seq<Action>)
    requires Run(states, actions) && Idle(states[|actions|], i)
    requires e.Mutated? && e.req.operation != Reassign(EMPTY_TECHNICIAN) && n <= |Keys(e.loaded, e.req.operation)|
    ensures Run(states', actions') && states <= states'
    ensures states'[|actions'|] == At(states[|actions|], i, e, TakeTechnicians(n))
  {
    var s := states[|actions|];
    var s' := At(s, i, e, TakeTechnicians(n));
    if n == 0 {
      states', actions' := Then(states, actions, Begin(i, Manage(e.id, e.loaded, e.req, TakeTechnicians(0))), s');
    } else {
      states', actions' := KeysAreTaken(states, actions, i, e, n - 1);
      assert Next(states'[|actions'|], AcquireTechnician(i), s');
      states', actions' := Then(states', actions', AcquireTechnician(i), s');
    }
  }

  lemma LocksAreTaken(states: seq<State>, actions: seq<Action>, i: nat, e: Entry)
      returns (states': seq<State>, actions': seq<Action>)
    requires Run(states, actions) && Idle(states[|actions|], i)
    requires e.Mutated? && e.req.operation != Reassign(EMPTY_TECHNICIAN)
    requires var t := states[|actions|].tables; LockedRead(t, e.id).Ok? && CheckFence(t, e.id, e.req.fence).Ok?
    ensures Run(states', actions') && states <= states'
    ensures states'[|actions'|] == At(states[|actions|], i, e, ReRead)
  {
    var s := states[|actions|];
    states', actions' := KeysAreTaken(states, actions, i, e, |Keys(e.loaded, e.req.operation)|);
    states', actions' := Then(states', actions', AcquireRow(i), At(s, i, e, TakeSalon));
    states', actions' := Then(states', actions', AcquireSalonNowait(i), At(s, i, e, TakeEvent));
    states', actions' := Then(states', actions', AcquireEvent(i), At(s, i, e, ReRead));
  }

  /** The instant at which both clock reads of the mutation have happened. */
  function Done(c: Clocks): Instant { if c.versionClock > c.guardNow then c.versionClock else c.guardNow }

  lemma SlotIsChecked(states: seq<State>, actions: seq<Action>, s: State, i: nat, e: Entry, p: Plan,
                      technician: Option<TechnicianId>, d: Managed)
      returns (states': seq<State>, actions': seq<Action>)
    requires Run(states, actions) && Idle(s, i) && Succeeds(s.tables, e, p, technician, d)
    requires states[|actions|] == At(s, i, e, ReRead) && s.clock == e.clocks.guardNow
    ensures Run(states', actions') && states <= states'
    ensures states'[|actions'|]
         == At(s, i, e, WriteRows(Load(s.tables, e.id), e.x, p, technician, e.clocks.guardNow))
  {
    var m := Load(s.tables, e.id);
    states', actions' := Then(states, actions, Reload(i, e.x), At(s, i, e, CheckSlot(m, e.x)));
    CheckPasses(s, i, e, p, technician, d);
    states', actions' := Then(states', actions', ValidateStep(i),
                              At(s, i, e, WriteRows(m, e.x, p, technician, e.clocks.guardNow)));
  }

  lemma CheckPasses(s: State, i: nat, e: Entry, p: Plan, technician: Option<TechnicianId>, d: Managed)
    requires Idle(s, i) && Succeeds(s.tables, e, p, technician, d) && s.clock == e.clocks.guardNow
    ensures var m := Load(s.tables, e.id);
      Next(At(s, i, e, CheckSlot(m, e.x)), ValidateStep(i),
           At(s, i, e, WriteRows(m, e.x, p, technician, e.clocks.guardNow)))
  {
  }

  lemma RowIsWritten(states: seq<State>, actions: seq<Action>, s: State, i: nat, e: Entry, p: Plan,
                     technician: Option<TechnicianId>, d: Managed)
      returns (states': seq<State>, actions': seq<Action>)
    requires Run(states, actions) && Succeeds(s.tables, e, p, technician, d) && s.clock == e.clocks.guardNow
    requires states[|actions|] == At(s, i, e, WriteRows(Load(s.tables, e.id), e.x, p, technician, e.clocks.guardNow))
    ensures Run(states', actions') && states <= states'
    ensures states'[|actions'|]
         == At(s.(clock := Done(e.clocks)), i, e, Commit(Load(s.tables, e.id), e.x, p, technician, e.clocks, d))
  {
    var m, later := Load(s.tables, e.id), s.(clock := Done(e.clocks));
    states', actions' := Then(states, actions, Tick(Done(e.clocks)),
                              At(later, i, e, WriteRows(m, e.x, p, technician, e.clocks.guardNow)));
    states', actions' := Then(states', actions', WriteStep(i, e.clocks.versionClock),
                              At(later, i, e, Commit(m, e.x, p, technician, e.clocks, d)));
  }

  /** A run in whose last state nobody holds a lock can go on with any mutation that succeeds on its tables. */
  lemma MutationRuns(states: seq<State>, actions: seq<Action>, i: nat, e: Entry, p: Plan,
                     technician: Option<TechnicianId>, d: Managed)
      returns (states': seq<State>, actions': seq<Action>)
    requires Run(states, actions) && Idle(states[|actions|], i)
    requires Succeeds(states[|actions|].tables, e, p, technician, d)
    requires states[|actions|].clock == e.clocks.guardNow
    ensures Run(states', actions') && states <= states'
    ensures var s, s' := states[|actions|], states'[|actions'|];
      && s'.tables == Publish(s.tables, e.id, d) && s'.log == s.log + [e] && s'.clock == Done(e.clocks)
      && s'.txs == s.txs[i := Manage(e.id, e.loaded, e.req, Finished)]
  {
    var s := states[|actions|];
    states', actions' := LocksAreTaken(states, actions, i, e);
    states', actions' := SlotIsChecked(states', actions', s, i, e, p, technician, d);
    states', actions' := RowIsWritten(states', actions', s, i, e, p, technician, d);
    var s' := State(Publish(s.tables, e.id, d), Done(e.clocks), s.txs[i := Manage(e.id, e.loaded, e.req, Finished)],
                    s.log + [e]);
    assert Next(states'[|actions'|], CommitStep(i), s');
    states', actions' := Then(states', actions', CommitStep(i), s');
  }

  /** Every mutation the specification carries out is a run of the machine. */
  lemma MutateIsRun(t: Tables, id: AppointmentId, loaded: Managed, req: Request, x: Surroundings, c: Clocks)
      returns (states: seq<State>, actions: seq<Action>)
    requires SoundRows(t) && SlotsRespected(t) && NoClash(t.appointments, c.guardNow)
    requires Mutate(t, id, loaded, req, x, c).Ok?
    ensures Run(states, actions) && states[0].tables == t && states[0].clock == c.guardNow
    ensures states[|actions|].tables == Mutate(t, id, loaded, req, x, c).value
    ensures states[|actions|].clock == c.guardNow || states[|actions|].clock == Done(c)
  {
    states, actions := [State(t, c.guardNow, map[], [])], [];
    if Compare(Load(t, id), loaded, req, x).Proceed? {
      var m := Load(t, id);
      var p := MakePlan(m, req.operation, x).value;
      var technician := ValidateSlot(t.appointments, id, p, x, c.guardNow).value;
      var d := Draft(m, req.operation, p, technician, x, c.versionClock).value;
      var states0 := states;
      states, actions := MutationRuns(states, actions, 0, Mutated(id, loaded, req, x, c, d.appointment.updatedAt), p,
                                      technician, d);
      assert states[0] == states0[0];
    }
  }

  /** Every booking into a slot that the guard and the constraints leave free is a run as well. */
  lemma BookingRuns(states: seq<State>, actions: seq<Action>, i: nat, newId: AppointmentId, row: Appointment)
      returns (states': seq<State>, actions': seq<Action>)
    requires Run(states, actions) && Idle(states[|actions|], i)
    requires Names(row.technicianId) && row.Lasts() && newId !in states[|actions|].tables.appointments
    requires SlotFree(states[|actions|].tables.appointments, row.technicianId.value, row.startTime, row.OccupiedUntil(),
                      None, states[|actions|].clock)
    requires SlotAccepts(states[|actions|].tables, newId, row)
    ensures Run(states', actions') && states <= states'
    ensures var s, s' := states[|actions|], states'[|actions'|];
      && s'.tables == s.tables.(appointments := s.tables.appointments[newId := row])
      && s'.log == s.log + [Inserted(newId, row)] && s'.clock == s.clock
      && s'.txs == s.txs[i := Booking(newId, row, BookFinished)]
  {
    var s := states[|actions|];
    states', actions' := BookingReaches(states, actions, i, newId, row);
    var s' := State(s.tables.(appointments := s.tables.appointments[newId := row]), s.clock,
                    s.txs[i := Booking(newId, row, BookFinished)], s.log + [Inserted(newId, row)]);
    assert Next(states'[|actions'|], BookingStep(i), s');
    states', actions' := Then(states', actions', BookingStep(i), s');
  }

  lemma BookingReaches(states: seq<State>, actions: seq<Action>, i: nat, newId: AppointmentId, row: Appointment)
      returns (states': seq<State>, actions': seq<Action>)
    requires Run(states, actions) && Idle(states[|actions|], i)
    requires Names(row.technicianId) && row.Lasts()
    requires SlotFree(states[|actions|].tables.appointments, row.technicianId.value, row.startTime, row.OccupiedUntil(),
                      None, states[|actions|].clock)
    ensures Run(states', actions') && states <= states'
    ensures var s := states[|actions|];
      states'[|actions'|] == s.(txs := s.txs[i := Booking(newId, row, BookInsert(s.clock))])
  {
    var s := states[|actions|];
    states', actions' := Then(states, actions, Begin(i, Booking(newId, row, BookSalon)),
                              s.(txs := s.txs[i := Booking(newId, row, BookSalon)]));
    states', actions' := Then(states', actions', BookingStep(i),
                              s.(txs := s.txs[i := Booking(newId, row, BookTechnician)]));
    states', actions' := Then(states', actions', BookingStep(i), s.(txs := s.txs[i := Booking(newId, row, BookGuard)]));
    states', actions' := Then(states', actions', BookingStep(i),
                              s.(txs := s.txs[i := Booking(newId, row, BookInsert(s.clock))]));
  }

  // ---- An uncovered commit ----

  lemma BesideIsSound(id: AppointmentId, m: Managed, p: Plan, exclusion: bool)
    requires m.appointment.Lasts() && m.appointment.technicianId != Some(EMPTY_TECHNICIAN)
    requires Names(p.technicianId) || m.appointment.technicianId.Some?
    ensures SoundRows(Beside(id, m, InTheWay(m, p, exclusion), exclusion))
  {
  }

  /** The premise of `NoClashHolds`, and that of `NoDoubleBooking` without the exclusion constraint, cannot go: every
      operation that is not covered has a run that it ends with a clash, and with a double booking when there is no
      exclusion constraint and the uncovered part lies inside [start, end). */
  lemma UncoveredRunClashes(id: AppointmentId, m: Managed, op: Operation, x: Surroundings, c: Clocks, exclusion: bool)
      returns (states: seq<State>, actions: seq<Action>)
    requires m.appointment.Lasts() && m.appointment.technicianId != Some(EMPTY_TECHNICIAN)
    requires !Refused(m, op, x) && !IdempotentMove(m.appointment, op, x) && m.appointment.Blocks(c.guardNow)
    requires !Covered(m, op, MakePlan(m, op, x).value, exclusion) && c.versionClock <= c.guardNow
    ensures Run(states, actions) && states[0].tables.exclusion == exclusion
    ensures !NoClash(states[|actions|].tables.appointments, states[|actions|].clock)
    ensures !exclusion && UncoveredInside(m, MakePlan(m, op, x).value) ==> !NoneDoubleBooked(states[|actions|])
  {
    var t, req := UncoveredOperationClashes(id, m, op, x, c, exclusion);
    BesideIsSound(id, m, MakePlan(m, op, x).value, exclusion);
    states, actions := MutateIsRun(t, id, m, req, x, c);
    var after := states[|actions|];
    if !exclusion && UncoveredInside(m, MakePlan(m, op, x).value) {
      assert DoubleBooked(after.tables.appointments[id], after.tables.appointments[id + 1], after.clock);
    }
  }
}
