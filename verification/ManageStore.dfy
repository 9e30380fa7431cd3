/** The manage engine as the imperative code it is: it rewrites appointment, service, add-on and outbox rows. */
module ManageStore {
  import opened Wrappers
  import opened Blocking
  import opened Appointments
  import opened ManageSpec

  class Store {
    const exclusion: bool
    var appointments: map<AppointmentId, Appointment>
    var services: map<AppointmentId, seq<ServiceLine>>
    var addOns: map<AppointmentId, seq<AddOnLine>>
    var outbox: seq<Intent>
    var events: map<nat, CalendarEvent>

    constructor (t: Tables)
      ensures Rows() == t
    {
      exclusion := t.exclusion;
      appointments, services, addOns, outbox, events := t.appointments, t.services, t.addOns, t.outbox, t.events;
    }

    function Rows(): Tables
      reads this
    {
      Tables(exclusion, appointments, services, addOns, outbox, events)
    }

    method ApplyMove(id: AppointmentId, op: Operation, x: Surroundings, c: Clocks)
      returns (r: Result<Appointment, ManageError>)
      requires id in appointments && op.Move?
      modifies this`appointments
      ensures WritesOperation(old(Rows()), Rows(), id, op, x, c, r)
      ensures r.Err? ==> appointments == old(appointments)
    {
      var loaded := appointments[id];
      var minutes := op.durationMinutes.Or(loaded.totalDurationMinutes);
      if minutes < 15 || minutes > 480 {
        return Err(InvalidDuration);
      }
      var buffer := loaded.bufferMinutes.Or(x.bufferMinutes);
      var start := RoundDownToSlot(op.startTime, x.slotIntervalMinutes, x.serverOffset);
      var technician := if op.technicianId.Some? then op.technicianId else loaded.technicianId;
      var plan := Plan(start, minutes, buffer, technician, None, Lines(services, id), Lines(addOns, id));
      var validated := ValidateSlot(appointments, id, plan, x, c.guardNow);
      if validated.Err? {
        return Err(validated.error);
      }
      var updatedAt := NextUpdatedAt(loaded, c.versionClock);
      if !x.taxSnapshotValid {
        return Err(TaxSnapshotInvalid);
      }
      var row := MoveRow(loaded, plan, validated.value, updatedAt);
      r := UpdateRow(id, row);
    }

    method ApplyReassign(id: AppointmentId, op: Operation, x: Surroundings, c: Clocks)
      returns (r: Result<Appointment, ManageError>)
      requires id in appointments && op.Reassign?
      modifies this`appointments
      ensures WritesOperation(old(Rows()), Rows(), id, op, x, c, r)
      ensures r.Err? ==> appointments == old(appointments)
    {
      var loaded := appointments[id];
      var plan := Plan(loaded.startTime, loaded.totalDurationMinutes, loaded.bufferMinutes.Or(x.bufferMinutes),
                       Some(op.reassignTo), None, Lines(services, id), Lines(addOns, id));
      var validated := ValidateSlot(appointments, id, plan, x, c.guardNow);
      if validated.Err? {
        return Err(validated.error);
      }
      var row := loaded.(technicianId := validated.value, updatedAt := NextUpdatedAt(loaded, c.versionClock));
      r := UpdateRow(id, row);
    }

    method ApplyChangeService(id: AppointmentId, op: Operation, x: Surroundings, c: Clocks)
      returns (r: Result<Appointment, ManageError>)
      requires id in appointments && op.ChangeService?
      modifies this`appointments, this`services, this`addOns
      ensures WritesOperation(old(Rows()), Rows(), id, op, x, c, r)
      ensures r.Err? ==> appointments == old(appointments)
    {
      var loaded := Load(Rows(), id);
      if op.baseServiceId !in x.catalog {
        return Err(InvalidBaseService);
      }
      var service := x.catalog[op.baseServiceId];
      var kept := KeptAddOns(loaded.addOns, service.allowedAddOns);
      var minutes := service.durationMinutes + SumAddOnMinutes(kept);
      var buffer := loaded.appointment.bufferMinutes.Or(x.bufferMinutes);
      var charge := PreservedCharge(loaded, service.price, SumAddOns(kept));
      var updatedAt := NextUpdatedAt(loaded.appointment, c.versionClock);
      if !x.taxSnapshotValid {
        return Err(TaxSnapshotInvalid);
      }
      var start := RoundDownToSlot(op.newStart.Or(loaded.appointment.startTime), x.slotIntervalMinutes, x.serverOffset);
      var technician := if op.technicianId.Some? then op.technicianId else loaded.appointment.technicianId;
      var line := ServiceLine(x.firstFreshId, op.baseServiceId, service.price, service.durationMinutes);
      var plan := Plan(start, minutes, buffer, technician, Some(charge), [line], Reinserted(kept, x.firstFreshId + 1));
      var validated := ValidateSlot(appointments, id, plan, x, c.guardNow);
      if validated.Err? {
        return Err(validated.error);
      }

      var row := ChargeRow(MoveRow(loaded.appointment, plan, validated.value, updatedAt), charge);
      WrittenIsSpecified(Rows(), id, op, x, c, plan, validated.value, Managed(row, plan.services, plan.addOns));
      ReplaceLines(id, plan.services, plan.addOns);
      r := UpdateRow(id, row);
    }

    /** The UPDATE statement: the slot constraints are checked before it returns. */
    method UpdateRow(id: AppointmentId, row: Appointment) returns (r: Result<Appointment, ManageError>)
      requires id in appointments
      modifies this`appointments
      ensures r == if SlotAccepts(old(Rows()), id, row) then Ok(row) else Err(AppointmentConflict)
      ensures appointments == if r.Ok? then old(appointments)[id := row] else old(appointments)
    {
      if !SlotAccepts(Rows(), id, row) {
        return Err(AppointmentConflict);
      }
      appointments := appointments[id := row];
      return Ok(row);
    }

    /** The transaction ends with an error and leaves the rows as it found them. */
    method Rollback(begun: Tables)
      requires begun.exclusion == exclusion
      modifies this
      ensures Rows() == begun
    {
      appointments, services, addOns, outbox, events :=
        begun.appointments, begun.services, begun.addOns, begun.outbox, begun.events;
    }

    /** Both child tables are emptied of the appointment's lines, then filled again. */
    method ReplaceLines(id: AppointmentId, newServices: seq<ServiceLine>, newAddOns: seq<AddOnLine>)
      modifies this`services, this`addOns
      ensures services == Replaced(old(services), id, newServices) && addOns == Replaced(old(addOns), id, newAddOns)
    {
      DeleteThenInsertReplaces(services, id, newServices);
      DeleteThenInsertReplaces(addOns, id, newAddOns);
      services := WithoutLines(services, id);
      services := WithLines(services, id, newServices);
      addOns := WithoutLines(addOns, id);
      if |newAddOns| > 0 {
        addOns := WithLines(addOns, id, newAddOns);
      }
    }

    /** `enqueueGoogleCalendarAppointmentMutation` with the revision just written. */
    method EnqueueIntent(id: AppointmentId, version: Instant)
      requires id in appointments
      modifies this`appointments, this`outbox
      ensures Rows() == Enqueue(old(Rows()), id, version)
    {
      if !HasOrdinaryIntent(outbox, id, version) {
        outbox := outbox + [Intent(id, true, Some(version), IntentPending)];
        appointments := appointments[id := appointments[id].(calendarPending := true)];
      }
    }

    /** `withLockedManagedAppointment`: the answer says whether anything was written. */
    method WithLockedManagedAppointment(id: AppointmentId, loaded: Managed, req: Request, x: Surroundings, c: Clocks)
      returns (r: Result<bool, ManageError>)
      modifies this
      ensures r.Ok? ==> Mutate(old(Rows()), id, loaded, req, x, c) == Ok(Rows())
      ensures r.Err? ==> Mutate(old(Rows()), id, loaded, req, x, c) == Err(r.error) && Rows() == old(Rows())
      ensures r.Ok? && !r.value ==> Rows() == old(Rows()) && IdempotentMove(old(appointments)[id], req.operation, x)
      ensures r.Ok? && r.value ==> SameVersion(old(Load(Rows(), id)), loaded)
    {
      if req.operation == Reassign(EMPTY_TECHNICIAN) {
        return Err(TechnicianRequired);
      }
      if id !in appointments || appointments[id].deleted {
        return Err(AppointmentNotFound);
      }
      var editable := EnsureEditable(appointments[id]);
      if editable.Err? {
        return Err(editable.error);
      }
      var fence := CheckFence(Rows(), id, req.fence);
      if fence.Err? {
        return Err(fence.error);
      }

      var authoritative := Load(Rows(), id);
      var stale := !SameVersion(authoritative, loaded);
      var idempotent := IdempotentMove(authoritative.appointment, req.operation, x);
      if stale && !idempotent {
        return Err(StaleState);
      }
      if !req.canReassignTechnician
         && TargetTechnician(loaded, req.operation) != authoritative.appointment.technicianId {
        return Err(Forbidden);
      }
      if idempotent {
        return Ok(false);
      }

      var begun, applied := Rows(), Err(AppointmentConflict);
      match req.operation {
        case Move(_, _, _) => applied := ApplyMove(id, req.operation, x, c);
        case ChangeService(_, _, _) => applied := ApplyChangeService(id, req.operation, x, c);
        case Reassign(_) => applied := ApplyReassign(id, req.operation, x, c);
      }
      if applied.Err? {
        Rollback(begun);
        return Err(applied.error);
      }
      EnqueueIntent(id, applied.value.updatedAt);
      return Ok(true);
    }
  }

  /** The rows an operation wrote are the published draft before its intent is enqueued. */
  ghost predicate WritesOperation(before: Tables, after: Tables, id: AppointmentId, op: Operation, x: Surroundings,
                                  c: Clocks, r: Result<Appointment, ManageError>)
    requires id in before.appointments
  {
    var specified := ApplyOperation(before, id, op, x, c);
    match r
    case Err(e) => specified == Err(e)
    case Ok(row) =>
      && id in after.appointments && after.appointments[id] == row
      && specified == Ok(Enqueue(after, id, row.updatedAt))
  }

  /** Writing a validated draft, or being refused by the slot constraints, is what the specification asks for. */
  lemma WrittenIsSpecified(t: Tables, id: AppointmentId, op: Operation, x: Surroundings, c: Clocks, p: Plan,
                           technician: Option<TechnicianId>, d: Managed)
    requires id in t.appointments && MakePlan(Load(t, id), op, x) == Ok(p)
    requires ValidateSlot(t.appointments, id, p, x, c.guardNow) == Ok(technician)
    requires Draft(Load(t, id), op, p, technician, x, c.versionClock) == Ok(d)
    ensures !SlotAccepts(t, id, d.appointment) ==> ApplyOperation(t, id, op, x, c) == Err(AppointmentConflict)
    ensures SlotAccepts(t, id, d.appointment) ==>
              WritesOperation(t, t.(appointments := t.appointments[id := d.appointment],
                                    services := Replaced(t.services, id, d.services),
                                    addOns := Replaced(t.addOns, id, d.addOns)), id, op, x, c, Ok(d.appointment))
  {
  }
}
