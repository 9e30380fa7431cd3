/** What one locked manage mutation computes, as functions over the tables. */
module ManageSpec {
  import opened Wrappers
  import opened Blocking
  import opened Appointments

  datatype ManageError =
    | AppointmentNotFound | HoldLocked | NotEditable | AppointmentLocked
    | StaleGoogleEvent | StaleGoogleFeedback | StaleState | Forbidden
    | InvalidDuration | TechnicianRequired | TechnicianNotFound | AppointmentConflict
    | TaxSnapshotInvalid | InvalidBaseService

  datatype Operation =
    | Move(startTime: Instant, durationMinutes: Option<int>, technicianId: Option<TechnicianId>)
    | ChangeService(baseServiceId: nat, newStart: Option<Instant>, technicianId: Option<TechnicianId>)
    | Reassign(reassignTo: TechnicianId)
  {
    /** `args.technicianId` */
    function TechnicianArgument(): Option<TechnicianId> {
      if Reassign? then Some(reassignTo) else technicianId
    }
  }

  datatype Fence = Fence(rowId: nat, calendarId: nat, googleEventId: nat,
                         googleUpdatedAt: Option<Instant>, remoteMutationVersion: Option<Instant>)

  datatype Request = Request(operation: Operation, canReassignTechnician: bool, fence: Option<Fence>)

  type Interval = i: int | 0 < i witness 15

  type Minutes = i: int | 0 < i witness 5

  datatype CatalogService = CatalogService(price: nat, durationMinutes: Minutes, allowedAddOns: set<nat>)

  /** What the transaction reads beside the locked rows: salon configuration, staff, catalog, the schedule
      policy's verdict, the tax snapshot's verdict and fresh row identifiers. */
  datatype Surroundings = Surroundings(
    slotIntervalMinutes: Interval,
    bufferMinutes: nat,
    serverOffset: int,
    technicians: set<TechnicianId>,
    catalog: map<nat, CatalogService>,
    policyAccepts: bool,
    taxSnapshotValid: bool,
    firstFreshId: nat)

  // ---- Before the operation ----

  function EnsureEditable(a: Appointment): Result<(), ManageError> {
    if a.status.AwaitingPayment? then Err(HoldLocked)
    else if a.status.Completed? || a.status.Cancelled? || a.status.NoShow? then Err(NotEditable)
    else if a.locked || a.status.InProgress? then Err(AppointmentLocked)
    else Ok(())
  }

  /** The locked read: the row must exist, be live and be editable. */
  function LockedRead(t: Tables, id: AppointmentId): Result<(), ManageError> {
    if id !in t.appointments || t.appointments[id].deleted then Err(AppointmentNotFound)
    else EnsureEditable(t.appointments[id])
  }

  /** The calendar event must still be the one the feedback came from, and no local intent may outrank it. */
  function CheckFence(t: Tables, id: AppointmentId, fence: Option<Fence>): Result<(), ManageError> {
    match fence
    case None => Ok(())
    case Some(f) =>
      if f.rowId !in t.events then Err(StaleGoogleEvent)
      else
        var e := t.events[f.rowId];
        if e.appointmentId != Some(id) || e.calendarId != f.calendarId || e.googleEventId != f.googleEventId
           || !e.reviewedAsAppointment || e.superseded || e.deleted || e.googleUpdatedAt != f.googleUpdatedAt
        then Err(StaleGoogleEvent)
        else if Superseded(t.outbox, id, f.remoteMutationVersion) then Err(StaleGoogleFeedback)
        else Ok(())
  }

  function TargetTechnician(loaded: Managed, op: Operation): Option<TechnicianId> {
    if op.TechnicianArgument().Some? then op.TechnicianArgument() else loaded.appointment.technicianId
  }

  /** `roundDownToSlot`: the minute of the hour is cut to a multiple of the interval, seconds are dropped. */
  function RoundDownToSlot(t: Instant, interval: Interval, serverOffset: int): Instant {
    var minuteOfHour := (t + serverOffset) / MINUTE % 60;
    t - (t + serverOffset) % MINUTE - (minuteOfHour % interval) * MINUTE
  }

  /** A move that asks for what the locked row already has. */
  predicate IdempotentMove(row: Appointment, op: Operation, x: Surroundings) {
    && op.Move?
    && RoundDownToSlot(op.startTime, x.slotIntervalMinutes, x.serverOffset) == row.startTime
    && op.durationMinutes.Or(row.totalDurationMinutes) == row.totalDurationMinutes
    && (op.technicianId.Some? ==> op.technicianId == row.technicianId)
  }

  datatype Gate = Proceed | AlreadyThere | Refuse(error: ManageError)

  function Compare(authoritative: Managed, loaded: Managed, req: Request, x: Surroundings): Gate {
    var idempotent := IdempotentMove(authoritative.appointment, req.operation, x);
    if !SameVersion(authoritative, loaded) && !idempotent then Refuse(StaleState)
    else if !req.canReassignTechnician
            && TargetTechnician(loaded, req.operation) != authoritative.appointment.technicianId
    then Refuse(Forbidden)
    else if idempotent then AlreadyThere
    else Proceed
  }

  // ---- Prices ----

  function SumServices(s: seq<ServiceLine>): nat {
    if s == [] then 0 else s[0].priceAtBooking + SumServices(s[1..])
  }

  function SumAddOns(s: seq<AddOnLine>): nat {
    if s == [] then 0 else s[0].lineTotalCents + SumAddOns(s[1..])
  }

  function SumAddOnMinutes(s: seq<AddOnLine>): nat {
    if s == [] then 0 else s[0].lineDurationMinutes + SumAddOnMinutes(s[1..])
  }

  function CurrentSubtotal(m: Managed): int {
    var a := m.appointment;
    if a.subtotalBeforeDiscountCents.Some? then a.subtotalBeforeDiscountCents.value
    else if a.basePriceCents.Some? || a.addOnsPriceCents.Some? then a.basePriceCents.Or(0) + a.addOnsPriceCents.Or(0)
    else SumServices(m.services) + SumAddOns(m.addOns)
  }

  function AtLeastZero(x: int): nat { if x < 0 then 0 else x }

  datatype Charge = Charge(totalPrice: nat, subtotal: nat, discount: nat, base: nat, addOns: nat)

  /** `computePreservedDiscount` with the price parts it is called for. */
  function PreservedCharge(m: Managed, base: nat, addOns: nat): Charge {
    var subtotal := base + addOns;
    var discount := if m.appointment.discountType == Some(FirstVisit) then subtotal / 4
                    else AtLeastZero(CurrentSubtotal(m) - m.appointment.totalPrice);
    Charge(AtLeastZero(subtotal - discount), subtotal, discount, base, addOns)
  }

  function KeptAddOns(s: seq<AddOnLine>, allowed: set<nat>): seq<AddOnLine> {
    if s == [] then []
    else if s[0].addOnId.Some? && s[0].addOnId.value in allowed then [s[0]] + KeptAddOns(s[1..], allowed)
    else KeptAddOns(s[1..], allowed)
  }

  /** Reinserted rows get fresh identifiers; everything else is copied. */
  function Reinserted(s: seq<AddOnLine>, firstFreshId: nat): seq<AddOnLine> {
    if s == [] then [] else [s[0].(id := firstFreshId)] + Reinserted(s[1..], firstFreshId + 1)
  }

  // ---- The operation ----

  /** The slot an operation asks for and what it will write into it. */
  datatype Plan = Plan(startTime: Instant, totalDurationMinutes: nat, bufferMinutes: nat,
                       technicianId: Option<TechnicianId>, charge: Option<Charge>,
                       services: seq<ServiceLine>, addOns: seq<AddOnLine>)
  {
    function EndTime(): Instant { startTime + totalDurationMinutes * MINUTE }

    function BlockedEnd(): Instant { startTime + (totalDurationMinutes + bufferMinutes) * MINUTE }
  }

  function MakePlan(m: Managed, op: Operation, x: Surroundings): Result<Plan, ManageError> {
    var a := m.appointment;
    var buffer := a.bufferMinutes.Or(x.bufferMinutes);
    var technician := if op.TechnicianArgument().Some? then op.TechnicianArgument() else a.technicianId;
    match op
    case Move(start, duration, _) =>
      var minutes := duration.Or(a.totalDurationMinutes);
      if minutes < 15 || minutes > 480 then Err(InvalidDuration)
      else Ok(Plan(RoundDownToSlot(start, x.slotIntervalMinutes, x.serverOffset), minutes, buffer, technician, None,
                   m.services, m.addOns))
    case ChangeService(serviceId, start, _) =>
      if serviceId !in x.catalog then Err(InvalidBaseService)
      else if !x.taxSnapshotValid then Err(TaxSnapshotInvalid)
      else
        var service := x.catalog[serviceId];
        var kept := KeptAddOns(m.addOns, service.allowedAddOns);
        Ok(Plan(RoundDownToSlot(start.Or(a.startTime), x.slotIntervalMinutes, x.serverOffset),
                service.durationMinutes + SumAddOnMinutes(kept), buffer, technician,
                Some(PreservedCharge(m, service.price, SumAddOns(kept))),
                [ServiceLine(x.firstFreshId, serviceId, service.price, service.durationMinutes)],
                Reinserted(kept, x.firstFreshId + 1)))
    case Reassign(to) =>
      Ok(Plan(a.startTime, a.totalDurationMinutes, buffer, technician, None, m.services, m.addOns))
  }

  /** `validateTimeAndTechnician`: without a named technician nothing is checked. */
  function ValidateSlot(appointments: map<AppointmentId, Appointment>, id: AppointmentId, p: Plan,
                        x: Surroundings, now: Instant): Result<Option<TechnicianId>, ManageError>
  {
    if !Names(p.technicianId) then Ok(None)
    else if p.technicianId.value !in x.technicians then Err(TechnicianNotFound)
    else if !x.policyAccepts then Err(AppointmentConflict)
    else if !SlotFree(appointments, p.technicianId.value, p.startTime, p.BlockedEnd(), Some(id), now)
    then Err(AppointmentConflict)
    else Ok(p.technicianId)
  }

  function NextUpdatedAt(a: Appointment, clock: Instant): Instant {
    if clock >= a.updatedAt + 1 then clock else a.updatedAt + 1
  }

  function RearmReminders(a: Appointment, startTime: Instant): Appointment {
    if a.startTime == startTime then a
    else a.(dayBeforeReminderSentAt := None, sameDayReminderSentAt := None)
  }

  function MoveRow(a: Appointment, p: Plan, technician: Option<TechnicianId>, version: Instant): Appointment {
    RearmReminders(a, p.startTime).(
      technicianId := if technician.Some? then technician else a.technicianId,
      startTime := p.startTime,
      endTime := p.EndTime(),
      totalDurationMinutes := p.totalDurationMinutes,
      bufferMinutes := Some(p.bufferMinutes),
      blockedDurationMinutes := Some(p.totalDurationMinutes + p.bufferMinutes),
      updatedAt := version)
  }

  function ChargeRow(a: Appointment, c: Charge): Appointment {
    a.(totalPrice := c.totalPrice,
       basePriceCents := Some(c.base),
       addOnsPriceCents := Some(c.addOns),
       subtotalBeforeDiscountCents := Some(c.subtotal),
       discountAmountCents := Some(c.discount))
  }

  /** The rows an operation leaves behind once its slot is validated. */
  function Draft(m: Managed, op: Operation, p: Plan, technician: Option<TechnicianId>, x: Surroundings,
                 clock: Instant): Result<Managed, ManageError>
  {
    var a := m.appointment;
    var version := NextUpdatedAt(a, clock);
    match op
    case Move(_, _, _) =>
      if !x.taxSnapshotValid then Err(TaxSnapshotInvalid)
      else Ok(m.(appointment := MoveRow(a, p, technician, version)))
    case ChangeService(_, _, _) =>
      var moved := MoveRow(a, p, technician, version);
      Ok(Managed(if p.charge.Some? then ChargeRow(moved, p.charge.value) else moved, p.services, p.addOns))
    case Reassign(_) =>
      Ok(m.(appointment := a.(technicianId := technician, updatedAt := version)))
  }

  /** The row set of one appointment, rewritten only when it differs. */
  function Replaced<T(==)>(rows: map<AppointmentId, seq<T>>, id: AppointmentId, lines: seq<T>)
    : map<AppointmentId, seq<T>>
  {
    if Lines(rows, id) == lines then rows else WithLines(WithoutLines(rows, id), id, lines)
  }

  lemma DeleteThenInsertReplaces<T>(rows: map<AppointmentId, seq<T>>, id: AppointmentId, lines: seq<T>)
    ensures WithLines(WithoutLines(rows, id), id, lines) == Replaced(rows, id, lines)
    ensures Lines(Replaced(rows, id, lines), id) == lines
    ensures forall other :: other != id ==> Lines(Replaced(rows, id, lines), other) == Lines(rows, other)
  {
    var cleared := WithoutLines(rows, id);
    assert Lines(cleared, id) == [] && [] + lines == lines;
    if Lines(rows, id) == lines {
      assert WithLines(cleared, id, lines) == rows;
    }
  }

  /** Publishing a draft: its rows replace the old ones and an outbox intent announces the new revision. */
  function Publish(t: Tables, id: AppointmentId, draft: Managed): Tables {
    Enqueue(t.(appointments := t.appointments[id := draft.appointment],
               services := Replaced(t.services, id, draft.services),
               addOns := Replaced(t.addOns, id, draft.addOns)),
            id, draft.appointment.updatedAt)
  }

  /** The clock is read twice: by the slot guard and for the new revision. */
  datatype Clocks = Clocks(guardNow: Instant, versionClock: Instant)

  function ApplyOperation(t: Tables, id: AppointmentId, op: Operation, x: Surroundings, c: Clocks)
    : Result<Tables, ManageError>
    requires id in t.appointments
  {
    var m := Load(t, id);
    var plan := MakePlan(m, op, x);
    if plan.Err? then Err(plan.error) else
    var technician := ValidateSlot(t.appointments, id, plan.value, x, c.guardNow);
    if technician.Err? then Err(technician.error) else
    var draft := Draft(m, op, plan.value, technician.value, x, c.versionClock);
    if draft.Err? then Err(draft.error)
    else if !SlotAccepts(t, id, draft.value.appointment) then Err(AppointmentConflict)
    else Ok(Publish(t, id, draft.value))
  }

  /** The whole locked mutation behind its calendar fence, run with nothing in between. */
  function MutateBehindFence(t: Tables, id: AppointmentId, loaded: Managed, req: Request, x: Surroundings, c: Clocks)
    : Result<Tables, ManageError>
  {
    var row := LockedRead(t, id);
    if row.Err? then Err(row.error) else
    match Compare(Load(t, id), loaded, req, x)
    case Refuse(e) => Err(e)
    case AlreadyThere => Ok(t)
    case Proceed => ApplyOperation(t, id, req.operation, x, c)
  }

  function Mutate(t: Tables, id: AppointmentId, loaded: Managed, req: Request, x: Surroundings, c: Clocks)
    : Result<Tables, ManageError>
  {
    if req.operation == Reassign(EMPTY_TECHNICIAN) then Err(TechnicianRequired) else
    var row := LockedRead(t, id);
    if row.Err? then Err(row.error) else
    var fence := CheckFence(t, id, req.fence);
    if fence.Err? then Err(fence.error) else MutateBehindFence(t, id, loaded, req, x, c)
  }
}
