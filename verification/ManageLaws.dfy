/** Laws of one manage mutation, taken as a single step. */
module ManageLaws {
  import opened Wrappers
  import opened Blocking
  import opened Appointments
  import opened ManageSpec

  /** Everything of `t'` outside one appointment is as in `t`, and the outbox only grew. */
  ghost predicate OnlyTouches(t: Tables, t': Tables, id: AppointmentId) {
    && t'.appointments.Keys == t.appointments.Keys
    && (forall b :: b in t.appointments && b != id ==> t'.appointments[b] == t.appointments[b])
    && (forall b :: b != id ==>
        Lines(t'.services, b) == Lines(t.services, b) && Lines(t'.addOns, b) == Lines(t.addOns, b))
    && t.outbox <= t'.outbox
    && t'.events == t.events
  }

  ghost predicate OrdinaryIntentsAreAuthoritative(t: Tables) {
    forall k :: 0 <= k < |t.outbox| && t.outbox[k].ordinary ==> Authoritative(t.outbox[k].status)
  }

  lemma EnqueueAnnounces(t: Tables, id: AppointmentId, version: Instant)
    requires id in t.appointments && OrdinaryIntentsAreAuthoritative(t)
    ensures Announced(Enqueue(t, id, version).outbox, id, version)
    ensures OnlyTouches(t, Enqueue(t, id, version), id)
    ensures SameSlotAndPrice(t.appointments[id], Enqueue(t, id, version).appointments[id])
    ensures Enqueue(t, id, version).appointments[id].updatedAt == t.appointments[id].updatedAt
    ensures Enqueue(t, id, version).services == t.services && Enqueue(t, id, version).addOns == t.addOns
    ensures OrdinaryIntentsAreAuthoritative(Enqueue(t, id, version))
  {
    var t' := Enqueue(t, id, version);
    if !HasOrdinaryIntent(t.outbox, id, version) {
      assert t'.outbox[|t.outbox|] == Intent(id, true, Some(version), IntentPending);
    } else {
      var k :| 0 <= k < |t.outbox| && t.outbox[k].appointmentId == id && t.outbox[k].ordinary
               && t.outbox[k].version == Some(version);
      assert Authoritative(t.outbox[k].status);
    }
  }

  /** Equal in every field that decides slots, prices, reminders and editability. */
  ghost predicate SameSlotAndPrice(a: Appointment, b: Appointment) {
    a.(calendarPending := false, updatedAt := 0) == b.(calendarPending := false, updatedAt := 0)
  }

  lemma PublishTouchesOne(t: Tables, id: AppointmentId, d: Managed)
    requires id in t.appointments && OrdinaryIntentsAreAuthoritative(t)
    ensures OnlyTouches(t, Publish(t, id, d), id)
    ensures OrdinaryIntentsAreAuthoritative(Publish(t, id, d))
    ensures Announced(Publish(t, id, d).outbox, id, d.appointment.updatedAt)
    ensures SameSlotAndPrice(Publish(t, id, d).appointments[id], d.appointment)
    ensures Publish(t, id, d).appointments[id].updatedAt == d.appointment.updatedAt
    ensures Lines(Publish(t, id, d).services, id) == d.services && Lines(Publish(t, id, d).addOns, id) == d.addOns
  {
    var rewritten := t.(appointments := t.appointments[id := d.appointment],
                        services := Replaced(t.services, id, d.services),
                        addOns := Replaced(t.addOns, id, d.addOns));
    DeleteThenInsertReplaces(t.services, id, d.services);
    DeleteThenInsertReplaces(t.addOns, id, d.addOns);
    EnqueueAnnounces(rewritten, id, d.appointment.updatedAt);
    assert OnlyTouches(t, rewritten, id);
  }

  /** No lost update: a mutation that succeeds either found the move already done and wrote nothing, or it worked
      on exactly the row, services and add-ons it had loaded, strictly raised `updatedAt`, left every other
      appointment alone and announced the new revision. A stale load is accepted only in the first case. */
  lemma MutationIsNotLost(t: Tables, id: AppointmentId, loaded: Managed, req: Request, x: Surroundings, c: Clocks)
    requires Mutate(t, id, loaded, req, x, c).Ok? && OrdinaryIntentsAreAuthoritative(t)
    ensures id in t.appointments
    ensures var t' := Mutate(t, id, loaded, req, x, c).value;
      || (t' == t && IdempotentMove(t.appointments[id], req.operation, x))
      || (&& SameVersion(Load(t, id), loaded)
          && OnlyTouches(t, t', id)
          && t'.appointments[id].updatedAt > t.appointments[id].updatedAt
          && t'.appointments[id].updatedAt >= c.versionClock
          && Announced(t'.outbox, id, t'.appointments[id].updatedAt)
          && OrdinaryIntentsAreAuthoritative(t'))
    ensures !SameVersion(Load(t, id), loaded) ==> Mutate(t, id, loaded, req, x, c).value == t && req.operation.Move?
  {
    if Compare(Load(t, id), loaded, req, x).Proceed? {
      var m := Load(t, id);
      var p := MakePlan(m, req.operation, x).value;
      var technician := ValidateSlot(t.appointments, id, p, x, c.guardNow).value;
      var d := Draft(m, req.operation, p, technician, x, c.versionClock).value;
      PublishTouchesOne(t, id, d);
    }
  }

  /** A mutation clears both reminder marks exactly when it changes the start time, and writes neither otherwise. */
  lemma MarksFollowStartTime(t: Tables, t': Tables, id: AppointmentId, op: Operation, x: Surroundings, c: Clocks)
    requires id in t.appointments && OrdinaryIntentsAreAuthoritative(t)
    requires ApplyOperation(t, id, op, x, c) == Ok(t')
    ensures id in t'.appointments
    ensures var a, a' := t.appointments[id], t'.appointments[id];
      if a'.startTime == a.startTime
      then a'.dayBeforeReminderSentAt == a.dayBeforeReminderSentAt &&
          a'.sameDayReminderSentAt == a.sameDayReminderSentAt
      else a'.dayBeforeReminderSentAt == None && a'.sameDayReminderSentAt == None
  {
    var m := Load(t, id);
    var p := MakePlan(m, op, x).value;
    var technician := ValidateSlot(t.appointments, id, p, x, c.guardNow).value;
    PublishTouchesOne(t, id, Draft(m, op, p, technician, x, c.versionClock).value);
  }

  // ---- Double booking ----

  /** The slot guard saw the window the operation leaves, or the operation takes no slot it did not have, or the
      exclusion constraint refuses whatever stands in the part that neither accounts for. */
  predicate Covered(m: Managed, op: Operation, p: Plan, exclusion: bool) {
    var a := m.appointment;
    if Names(p.technicianId) then
      op.Reassign? ==>
        || a.technicianId == p.technicianId
        || a.OccupiedUntil() <= p.BlockedEnd()
        || (exclusion && a.OccupiedUntil() == a.endTime)
    else
      || a.technicianId.None?
      || (&& a.startTime <= p.startTime
          && (|| p.BlockedEnd() <= a.OccupiedUntil()
              || (exclusion && p.startTime <= a.OccupiedUntil() && p.bufferMinutes == 0)))
  }

  /** Whenever a technician is named, moves and service changes are covered, and so are reassignments of well-sized
      rows. */
  lemma NamedOperationsAreCovered(m: Managed, op: Operation, p: Plan, x: Surroundings, exclusion: bool)
    requires MakePlan(m, op, x) == Ok(p)
    requires Names(p.technicianId) || m.appointment.technicianId.None?
    requires op.Reassign? ==> WellSized(m.appointment, 0)
    ensures Covered(m, op, p, exclusion)
  {
  }

  lemma DraftsStayWellSized(m: Managed, op: Operation, p: Plan, technician: Option<TechnicianId>, x: Surroundings,
                            clock: Instant)
    requires MakePlan(m, op, x) == Ok(p) && Draft(m, op, p, technician, x, clock).Ok?
    requires op.Reassign? ==> WellSized(m.appointment, 0)
    ensures WellSized(Draft(m, op, p, technician, x, clock).value.appointment, 0)
  {
  }

  /** Replacing one row by one whose window the guard found free keeps the table free of clashes from then on. */
  lemma GuardedRowKeepsNoClash(before: map<AppointmentId, Appointment>, id: AppointmentId, row: Appointment,
                               technician: TechnicianId, windowEnd: Instant, guardNow: Instant, now: Instant)
    requires NoClash(before, now) && guardNow <= now
    requires row.technicianId == Some(technician) && row.OccupiedUntil() <= windowEnd
    requires SlotFree(before, technician, row.startTime, windowEnd, Some(id), guardNow)
    ensures NoClash(before[id := row], now)
  {
    var after := before[id := row];
    forall a, b | a in after && b in after && a != b
      ensures !Clash(after[a], after[b], now)
    {
      if a == id || b == id {
        var other := if a == id then b else a;
        assert !Conflicts(before[other], technician, row.startTime, windowEnd, guardNow);
      } else {
        assert !Clash(before[a], before[b], now);
      }
    }
  }

  lemma UnassignedRowKeepsNoClash(before: map<AppointmentId, Appointment>, id: AppointmentId, row: Appointment,
                                  now: Instant)
    requires NoClash(before, now) && row.technicianId.None?
    ensures NoClash(before[id := row], now)
  {
    var after := before[id := row];
    forall a, b | a in after && b in after && a != b
      ensures !Clash(after[a], after[b], now)
    {
      if a != id && b != id {
        assert !Clash(before[a], before[b], now);
      }
    }
  }

  /** A row that occupies no more than the one it replaces, for the same technician, adds no clash. */
  lemma SmallerRowKeepsNoClash(before: map<AppointmentId, Appointment>, id: AppointmentId, row: Appointment,
                               now: Instant)
    requires id in before && NoClash(before, now)
    requires row.Blocks(now) ==>
               && before[id].Blocks(now) && row.technicianId == before[id].technicianId
               && before[id].startTime <= row.startTime && row.OccupiedUntil() <= before[id].OccupiedUntil()
    ensures NoClash(before[id := row], now)
  {
    var after := before[id := row];
    forall a, b | a in after && b in after && a != b
      ensures !Clash(after[a], after[b], now)
    {
      assert !Clash(before[a], before[b], now);
    }
  }

  /** The row an operation leaves in the table, its calendar flag aside. */
  lemma PublishedRow(t: Tables, id: AppointmentId, op: Operation, x: Surroundings, c: Clocks)
    returns (p: Plan, technician: Option<TechnicianId>, d: Appointment, row: Appointment)
    requires id in t.appointments && OrdinaryIntentsAreAuthoritative(t)
    requires ApplyOperation(t, id, op, x, c).Ok?
    ensures MakePlan(Load(t, id), op, x) == Ok(p)
    ensures ValidateSlot(t.appointments, id, p, x, c.guardNow) == Ok(technician)
    ensures Draft(Load(t, id), op, p, technician, x, c.versionClock).Ok?
    ensures d == Draft(Load(t, id), op, p, technician, x, c.versionClock).value.appointment
    ensures SameSlotAndPrice(row, d)
    ensures ApplyOperation(t, id, op, x, c).value.appointments == t.appointments[id := row]
  {
    p := MakePlan(Load(t, id), op, x).value;
    technician := ValidateSlot(t.appointments, id, p, x, c.guardNow).value;
    var draft := Draft(Load(t, id), op, p, technician, x, c.versionClock).value;
    d := draft.appointment;
    row := Publish(t, id, draft).appointments[id];
    PublishReplacesRow(t, id, draft);
  }

  lemma PublishReplacesRow(t: Tables, id: AppointmentId, draft: Managed)
    requires id in t.appointments
    ensures id in Publish(t, id, draft).appointments
    ensures var row := Publish(t, id, draft).appointments[id];
      SameSlotAndPrice(row, draft.appointment) && Publish(t, id, draft).appointments == t.appointments[id := row]
  {
  }

  /** What the window of the new row is. */
  lemma DraftWindow(m: Managed, op: Operation, p: Plan, technician: Option<TechnicianId>, x: Surroundings,
                    clock: Instant)
    requires MakePlan(m, op, x) == Ok(p) && Draft(m, op, p, technician, x, clock).Ok?
    ensures var a, d := m.appointment, Draft(m, op, p, technician, x, clock).value.appointment;
      && (forall now :: d.Blocks(now) <==> a.Blocks(now))
      && (op.Reassign? ==>
          d.startTime == a.startTime && d.OccupiedUntil() == a.OccupiedUntil() && d.technicianId == technician)
      && (!op.Reassign? ==> d.startTime == p.startTime && d.OccupiedUntil() == p.BlockedEnd())
      && (!op.Reassign? ==> d.technicianId == if technician.Some? then technician else a.technicianId)
  {
  }

  /** An appointment still takes some time after an operation. */
  lemma DraftLasts(m: Managed, op: Operation, p: Plan, technician: Option<TechnicianId>, x: Surroundings,
                   clock: Instant)
    requires m.appointment.Lasts()
    requires MakePlan(m, op, x) == Ok(p) && Draft(m, op, p, technician, x, clock).Ok?
    ensures Draft(m, op, p, technician, x, clock).value.appointment.Lasts()
  {
  }

  /** The exclusion constraint keeps a row without buffer clear of every row that starts no earlier. */
  lemma AcceptedRowKeepsNoClash(t: Tables, id: AppointmentId, row: Appointment, now: Instant)
    requires NoClash(t.appointments, now) && RowsLast(t)
    requires t.exclusion && SlotAccepts(t, id, row) && row.startTime < row.endTime == row.OccupiedUntil()
    requires forall b :: b in t.appointments && b != id && Clash(row, t.appointments[b], now) ==>
               row.startTime <= t.appointments[b].startTime
    ensures NoClash(t.appointments[id := row], now)
  {
    var after := t.appointments[id := row];
    forall a, b | a in after && b in after && a != b
      ensures !Clash(after[a], after[b], now)
    {
      if a == id || b == id {
        var other := if a == id then b else a;
        assert !Collide(row, t.appointments[other], t.exclusion) && t.appointments[other].Lasts();
        assert Clash(after[a], after[b], now) ==> Clash(row, t.appointments[other], now);
      } else {
        assert !Clash(t.appointments[a], t.appointments[b], now);
      }
    }
  }

  /** A covered operation, or one on a row that does not block, leaves a table free of clashes from the guard's
      instant on. */
  lemma CoveredOperationKeepsNoClash(t: Tables, id: AppointmentId, op: Operation, x: Surroundings, c: Clocks,
                                     now: Instant)
    requires id in t.appointments && NoClash(t.appointments, now) && OrdinaryIntentsAreAuthoritative(t) && RowsLast(t)
    requires ApplyOperation(t, id, op, x, c).Ok? && c.guardNow <= now && op != Reassign(EMPTY_TECHNICIAN)
    requires || !t.appointments[id].Blocks(now)
             || Covered(Load(t, id), op, MakePlan(Load(t, id), op, x).value, t.exclusion)
    ensures NoClash(ApplyOperation(t, id, op, x, c).value.appointments, now)
  {
    var p, technician, d, row := PublishedRow(t, id, op, x, c);
    DraftWindow(Load(t, id), op, p, technician, x, c.versionClock);
    var a := t.appointments[id];
    assert row.startTime == d.startTime && row.OccupiedUntil() == d.OccupiedUntil() &&
             row.technicianId == d.technicianId;
    assert row.Blocks(now) <==> d.Blocks(now);
    if a.Blocks(now) && Names(p.technicianId) && !(op.Reassign? && a.technicianId == p.technicianId) {
      if d.OccupiedUntil() <= p.BlockedEnd() {
        GuardedRowKeepsNoClash(t.appointments, id, row, p.technicianId.value, p.BlockedEnd(), c.guardNow, now);
      } else {
        ConstraintCovers(t, id, op, x, c, p, technician, row, now);
      }
    } else if a.Blocks(now) && row.technicianId.None? {
      UnassignedRowKeepsNoClash(t.appointments, id, row, now);
    } else if a.Blocks(now) && !Names(p.technicianId) && a.OccupiedUntil() < p.BlockedEnd() {
      ConstraintCovers(t, id, op, x, c, p, technician, row, now);
    } else {
      SmallerRowKeepsNoClash(t.appointments, id, row, now);
    }
  }

  /** Where only the exclusion constraint covers the new window. */
  lemma ConstraintCovers(t: Tables, id: AppointmentId, op: Operation, x: Surroundings, c: Clocks,
                         p: Plan, technician: Option<TechnicianId>, row: Appointment, now: Instant)
    requires id in t.appointments && NoClash(t.appointments, now) && RowsLast(t) && t.exclusion
    requires MakePlan(Load(t, id), op, x) == Ok(p) && c.guardNow <= now
    requires ValidateSlot(t.appointments, id, p, x, c.guardNow) == Ok(technician)
    requires Draft(Load(t, id), op, p, technician, x, c.versionClock).Ok?
    requires SameSlotAndPrice(row, Draft(Load(t, id), op, p, technician, x, c.versionClock).value.appointment)
    requires SlotAccepts(t, id, row) && t.appointments[id].Blocks(now)
    requires Covered(Load(t, id), op, p, true) && row.technicianId.Some?
    requires if Names(p.technicianId) then op.Reassign? && t.appointments[id].technicianId != p.technicianId
             else !op.Reassign? && t.appointments[id].OccupiedUntil() < p.BlockedEnd()
    requires p.BlockedEnd() < row.OccupiedUntil() || !Names(p.technicianId)
    ensures NoClash(t.appointments[id := row], now)
  {
    var m, a := Load(t, id), t.appointments[id];
    DraftLasts(m, op, p, technician, x, c.versionClock);
    DraftWindow(m, op, p, technician, x, c.versionClock);
    forall b | b in t.appointments && b != id && Clash(row, t.appointments[b], now)
      ensures row.startTime <= t.appointments[b].startTime
    {
      if Names(p.technicianId) {
        assert !Conflicts(t.appointments[b], p.technicianId.value, p.startTime, p.BlockedEnd(), c.guardNow);
      } else {
        assert !Clash(a, t.appointments[b], now);
      }
    }
    AcceptedRowKeepsNoClash(t, id, row, now);
  }

  // ---- Where the guard does not reach ----

  ghost predicate KeepsNoClash(t: Tables, id: AppointmentId, loaded: Managed, req: Request, x: Surroundings,
                               c: Clocks) {
    NoClash(t.appointments, c.guardNow) && Mutate(t, id, loaded, req, x, c).Ok?
    ==> NoClash(Mutate(t, id, loaded, req, x, c).value.appointments, c.guardNow)
  }

  /** Tables that the database can hold around the rows of one appointment. */
  ghost predicate Around(t: Tables, id: AppointmentId, m: Managed, exclusion: bool) {
    && id in t.appointments && Load(t, id) == m && t.exclusion == exclusion
    && SlotsRespected(t) && RowsLast(t) && OrdinaryIntentsAreAuthoritative(t)
  }

  /** Whatever else the tables hold and whatever the caller had loaded, the locked mutation creates no clash. */
  ghost predicate SafeAround(id: AppointmentId, m: Managed, op: Operation, x: Surroundings, c: Clocks,
                             exclusion: bool) {
    forall t: Tables, loaded: Managed, req: Request ::
      Around(t, id, m, exclusion) && req.operation == op ==> KeepsNoClash(t, id, loaded, req, x, c)
  }

  /** A check that does not look at other appointments refuses the operation. */
  predicate Refused(m: Managed, op: Operation, x: Surroundings) {
    || op == Reassign(EMPTY_TECHNICIAN)
    || m.appointment.deleted || EnsureEditable(m.appointment).Err?
    || MakePlan(m, op, x).Err? || (op.Move? && !x.taxSnapshotValid)
    || (var technician := MakePlan(m, op, x).value.technicianId;
        Names(technician) && (technician.value !in x.technicians || !x.policyAccepts))
  }

  /** A confirmed appointment of the technician from one instant to another, blocked for some minutes. */
  function Sliver(technician: TechnicianId, from: Instant, until: Instant, blockedMinutes: nat): Appointment {
    Appointment(Confirmed, Some(technician), from, until, 1, Some(0), Some(blockedMinutes), 0, None, None, None, None,
                None, None, false, false, None, None, false, 0)
  }

  function Beside(id: AppointmentId, m: Managed, other: Appointment, exclusion: bool): Tables {
    Tables(exclusion, map[id := m.appointment, id + 1 := other], map[id := m.services], map[id := m.addOns], [], map[])
  }

  /** An appointment that the part of the new window left uncovered runs into, and that both constraints let stand
      beside it: it starts at another instant, and meets [start, end) only when there is no exclusion constraint. */
  function InTheWay(m: Managed, p: Plan, exclusion: bool): Appointment
    requires Names(p.technicianId) || m.appointment.technicianId.Some?
  {
    var a, start := m.appointment, p.startTime;
    if Names(p.technicianId) then
      var at := if exclusion && p.BlockedEnd() < a.endTime then a.endTime else p.BlockedEnd();
      Sliver(p.technicianId.value, at, at + 1, 0)
    else if start < a.startTime then
      if exclusion then Sliver(a.technicianId.value, start + 1 - MINUTE, start + 2 - MINUTE, 1)
      else Sliver(a.technicianId.value, start - 1, start + 1, 0)
    else if exclusion && a.OccupiedUntil() < start then Sliver(a.technicianId.value, start - 1, start, 1)
    else
      var at := if exclusion && a.OccupiedUntil() < p.EndTime() then p.EndTime()
                else if !exclusion && a.OccupiedUntil() <= start then start + 1
                else a.OccupiedUntil();
      Sliver(a.technicianId.value, at, at + 1, 0)
  }

  /** The uncovered part reaches into [start, end) of the new row, not only into its buffer. */
  predicate UncoveredInside(m: Managed, p: Plan) {
    var a := m.appointment;
    if Names(p.technicianId) then p.BlockedEnd() < a.endTime
    else p.startTime < a.startTime || a.OccupiedUntil() < p.EndTime()
  }

  /** On that table nothing clashes before, neither the guard nor a constraint objects, and the new row clashes. */
  lemma UncoveredRowClashes(m: Managed, op: Operation, p: Plan, row: Appointment, now: Instant, exclusion: bool)
    requires m.appointment.Blocks(now) && !Covered(m, op, p, exclusion)
    requires row.Blocks(now) && row.Lasts() && p.totalDurationMinutes > 0
    requires row.technicianId == if Names(p.technicianId) then p.technicianId else m.appointment.technicianId
    requires op.Reassign? ==>
               && row.startTime == m.appointment.startTime && row.OccupiedUntil() == m.appointment.OccupiedUntil()
               && row.endTime == m.appointment.endTime
               && p.startTime == m.appointment.startTime && Names(p.technicianId)
    requires !op.Reassign? ==>
               && row.startTime == p.startTime && row.OccupiedUntil() == p.BlockedEnd()
               && row.endTime == p.EndTime() && !Names(p.technicianId)
    ensures var other := InTheWay(m, p, exclusion);
      && other.Lasts() && !Clash(m.appointment, other, now)
      && (Names(p.technicianId) ==> !Conflicts(other, p.technicianId.value, p.startTime, p.BlockedEnd(), now))
      && !Collide(row, other, exclusion)
      && Clash(row, other, now)
      && (!exclusion && UncoveredInside(m, p) ==> Overlap(row, other))
  {
  }

  lemma BesideIsFree(id: AppointmentId, m: Managed, other: Appointment, now: Instant, exclusion: bool)
    requires m.appointment.Blocks(now) && m.appointment.Lasts() && other.Blocks(now) && other.Lasts()
    requires !Clash(m.appointment, other, now)
    ensures var t := Beside(id, m, other, exclusion);
      Around(t, id, m, exclusion) && NoClash(t.appointments, now)
  {
  }

  /** The row that such an operation writes clashes with it. */
  lemma UncoveredDraftClashes(m: Managed, op: Operation, p: Plan, x: Surroundings, c: Clocks, exclusion: bool)
      returns (d: Appointment)
    requires m.appointment.Lasts() && MakePlan(m, op, x) == Ok(p)
    requires !Refused(m, op, x) && m.appointment.Blocks(c.guardNow) && !Covered(m, op, p, exclusion)
    ensures Draft(m, op, p, if Names(p.technicianId) then p.technicianId else None, x, c.versionClock).Ok?
    ensures d == Draft(m, op, p, if Names(p.technicianId) then p.technicianId else None, x,
                       c.versionClock).value.appointment
    ensures var other := InTheWay(m, p, exclusion);
      && other.Lasts() && !Clash(m.appointment, other, c.guardNow)
      && (Names(p.technicianId) ==>
            !Conflicts(other, p.technicianId.value, p.startTime, p.BlockedEnd(), c.guardNow))
      && !Collide(d, other, exclusion)
      && Clash(d, other, c.guardNow)
      && (!exclusion && UncoveredInside(m, p) ==> Overlap(d, other))
  {
    var technician := if Names(p.technicianId) then p.technicianId else None;
    d := Draft(m, op, p, technician, x, c.versionClock).value.appointment;
    DraftWindow(m, op, p, technician, x, c.versionClock);
    DraftLasts(m, op, p, technician, x, c.versionClock);
    UncoveredRowClashes(m, op, p, d, c.guardNow, exclusion);
  }

  /** Its draft on that table passes the guard and the constraints. */
  lemma UncoveredDraftPasses(id: AppointmentId, m: Managed, op: Operation, p: Plan, x: Surroundings, c: Clocks,
                             exclusion: bool) returns (t: Tables, d: Appointment)
    requires m.appointment.Lasts() && MakePlan(m, op, x) == Ok(p)
    requires !Refused(m, op, x) && m.appointment.Blocks(c.guardNow) && !Covered(m, op, p, exclusion)
    ensures t == Beside(id, m, InTheWay(m, p, exclusion), exclusion)
    ensures Around(t, id, m, exclusion) && NoClash(t.appointments, c.guardNow)
    ensures ValidateSlot(t.appointments, id, p, x, c.guardNow)
         == Ok(if Names(p.technicianId) then p.technicianId else None)
    ensures Draft(m, op, p, if Names(p.technicianId) then p.technicianId else None, x, c.versionClock).Ok?
    ensures d == Draft(m, op, p, if Names(p.technicianId) then p.technicianId else None, x,
                       c.versionClock).value.appointment
    ensures SlotAccepts(t, id, d) && Clash(d, InTheWay(m, p, exclusion), c.guardNow)
    ensures !exclusion && UncoveredInside(m, p) ==> Overlap(d, InTheWay(m, p, exclusion))
  {
    d := UncoveredDraftClashes(m, op, p, x, c, exclusion);
    t := Beside(id, m, InTheWay(m, p, exclusion), exclusion);
    BesideIsFree(id, m, InTheWay(m, p, exclusion), c.guardNow, exclusion);
  }

  /** A table on which an operation that is neither refused nor covered commits and its row clashes with another;
      without the exclusion constraint the two are double-booked when the uncovered part lies inside [start, end). */
  lemma UncoveredOperationClashes(id: AppointmentId, m: Managed, op: Operation, x: Surroundings, c: Clocks,
                                  exclusion: bool)
    returns (t: Tables, req: Request)
    requires m.appointment.Lasts()
    requires !Refused(m, op, x) && !IdempotentMove(m.appointment, op, x) && m.appointment.Blocks(c.guardNow)
    requires !Covered(m, op, MakePlan(m, op, x).value, exclusion)
    ensures Around(t, id, m, exclusion) && req.operation == op && !KeepsNoClash(t, id, m, req, x, c)
    ensures t == Beside(id, m, InTheWay(m, MakePlan(m, op, x).value, exclusion), exclusion)
    ensures !exclusion && UncoveredInside(m, MakePlan(m, op, x).value) ==>
              && NoClash(t.appointments, c.guardNow) && Mutate(t, id, m, req, x, c).Ok?
              && var rows := Mutate(t, id, m, req, x, c).value.appointments;
                 id in rows && id + 1 in rows && DoubleBooked(rows[id], rows[id + 1], c.guardNow)
  {
    var p, d := MakePlan(m, op, x).value, m.appointment;
    t, d := UncoveredDraftPasses(id, m, op, p, x, c, exclusion);
    req := Request(op, true, None);
    MutateApplies(t, id, m, req, x, c);
    var p', technician, d', row := PublishedRow(t, id, op, x, c);
    var other, after := InTheWay(m, p, exclusion), Mutate(t, id, m, req, x, c).value.appointments;
    assert after[id] == row && after[id + 1] == other && Clash(row, other, c.guardNow);
  }

  lemma MutateApplies(t: Tables, id: AppointmentId, m: Managed, req: Request, x: Surroundings, c: Clocks)
    requires id in t.appointments && Load(t, id) == m && req.canReassignTechnician && req.fence.None?
    requires !Refused(m, req.operation, x) && !IdempotentMove(m.appointment, req.operation, x)
    ensures Mutate(t, id, m, req, x, c) == ApplyOperation(t, id, req.operation, x, c)
  {
  }

  /** With and without the exclusion constraint, the locked mutation is safe around every table if and only if some
      check refuses it, it is a move that asks for what is already there, the row does not block, or its window is
      covered. */
  lemma OperationIsSafeIff(id: AppointmentId, m: Managed, op: Operation, x: Surroundings, c: Clocks, exclusion: bool)
    requires m.appointment.Lasts()
    ensures SafeAround(id, m, op, x, c, exclusion)
        <==> (|| Refused(m, op, x) || IdempotentMove(m.appointment, op, x) || !m.appointment.Blocks(c.guardNow)
              || Covered(m, op, MakePlan(m, op, x).value, exclusion))
  {
    if Refused(m, op, x) || IdempotentMove(m.appointment, op, x) || !m.appointment.Blocks(c.guardNow)
       || Covered(m, op, MakePlan(m, op, x).value, exclusion)
    {
      forall t: Tables, loaded: Managed, req: Request | Around(t, id, m, exclusion) && req.operation == op
        ensures KeepsNoClash(t, id, loaded, req, x, c)
      {
        CoveredMutationKeepsNoClash(t, id, loaded, req, x, c);
      }
    } else {
      var t, req := UncoveredOperationClashes(id, m, op, x, c, exclusion);
      assert !KeepsNoClash(t, id, m, req, x, c);
    }
  }

  lemma CoveredMutationKeepsNoClash(t: Tables, id: AppointmentId, loaded: Managed, req: Request, x: Surroundings,
                                    c: Clocks)
    requires id in t.appointments && OrdinaryIntentsAreAuthoritative(t) && RowsLast(t)
    requires var m, op := Load(t, id), req.operation;
      || Refused(m, op, x) || IdempotentMove(m.appointment, op, x) || !m.appointment.Blocks(c.guardNow)
      || Covered(m, op, MakePlan(m, op, x).value, t.exclusion)
    ensures KeepsNoClash(t, id, loaded, req, x, c)
  {
    if NoClash(t.appointments, c.guardNow) && Mutate(t, id, loaded, req, x, c).Ok?
       && !IdempotentMove(t.appointments[id], req.operation, x)
    {
      assert !Refused(Load(t, id), req.operation, x);
      CoveredOperationKeepsNoClash(t, id, req.operation, x, c, c.guardNow);
    }
  }

  /** An empty technician id passes `??` but fails the truthiness test, so the slot guard never runs while the row
      keeps its technician. Such a request is safe exactly when it is refused, the row does not block, or the new
      window starts no earlier than the old one and ends no later; with the exclusion constraint it may end later,
      as long as it starts within or right after the old window and has no buffer. */
  lemma EmptyTechnicianIsSafeIff(id: AppointmentId, m: Managed, op: Operation, x: Surroundings, c: Clocks,
                                 exclusion: bool)
    requires m.appointment.Lasts()
    requires Names(m.appointment.technicianId) && op.TechnicianArgument() == Some(EMPTY_TECHNICIAN)
    ensures SafeAround(id, m, op, x, c, exclusion)
        <==> (|| Refused(m, op, x) || !m.appointment.Blocks(c.guardNow)
              || (var p, until := MakePlan(m, op, x).value, m.appointment.OccupiedUntil();
                  && m.appointment.startTime <= p.startTime
                  && (p.BlockedEnd() <= until || (exclusion && p.startTime <= until && p.bufferMinutes == 0))))
  {
    OperationIsSafeIff(id, m, op, x, c, exclusion);
  }

  /** A reassignment writes only the technician, so it is safe exactly when it is refused, the row does not block or
      keeps its technician, its stored end and blocked minutes lie inside the window the guard derives, or the
      exclusion constraint is there and sees all that the row occupies. */
  lemma ReassignIsSafeIff(id: AppointmentId, m: Managed, to: TechnicianId, x: Surroundings, c: Clocks, exclusion: bool)
    requires m.appointment.Lasts()
    ensures SafeAround(id, m, Reassign(to), x, c, exclusion)
        <==> (|| Refused(m, Reassign(to), x) || !m.appointment.Blocks(c.guardNow)
              || m.appointment.technicianId == Some(to) || WellSized(m.appointment, x.bufferMinutes)
              || (exclusion && m.appointment.OccupiedUntil() == m.appointment.endTime))
  {
    OperationIsSafeIff(id, m, Reassign(to), x, c, exclusion);
  }

  // ---- Where only a lapsed request stands ----

  /** A request whose deadline has passed, still to be swept. */
  predicate Lapsed(r: Appointment, now: Instant) {
    r.status.Pending? && r.requestExpiresAt.Some? && r.requestExpiresAt.value <= now
  }

  /** An operation whose window the guard found free is refused by the database exactly when a lapsed request that
      nobody has swept yet collides with the new row. */
  lemma LapsedRequestRefusesIff(t: Tables, id: AppointmentId, op: Operation, x: Surroundings, c: Clocks, p: Plan,
                                d: Managed)
    requires id in t.appointments && RowsLast(t) && OrdinaryIntentsAreAuthoritative(t)
    requires MakePlan(Load(t, id), op, x) == Ok(p) && Names(p.technicianId)
    requires ValidateSlot(t.appointments, id, p, x, c.guardNow).Ok?
    requires Draft(Load(t, id), op, p, p.technicianId, x, c.versionClock) == Ok(d)
    requires op.Reassign? ==> t.appointments[id].endTime <= p.BlockedEnd()
    ensures ApplyOperation(t, id, op, x, c).Err?
        <==> exists b :: b in t.appointments && b != id && Lapsed(t.appointments[b], c.guardNow)
                         && Collide(d.appointment, t.appointments[b], t.exclusion)
  {
    DraftLasts(Load(t, id), op, p, p.technicianId, x, c.versionClock);
    forall b | b in t.appointments && b != id && Collide(d.appointment, t.appointments[b], t.exclusion)
      ensures Lapsed(t.appointments[b], c.guardNow)
    {
      assert t.appointments[b].Lasts();
      assert !Conflicts(t.appointments[b], p.technicianId.value, p.startTime, p.BlockedEnd(), c.guardNow);
    }
  }

  /** A request for the technician at that instant whose deadline is `now`. */
  function LapsedSliver(technician: TechnicianId, from: Instant, now: Instant): Appointment {
    Sliver(technician, from, from + 1, 0).(status := Pending, requestExpiresAt := Some(now))
  }

  /** Whatever goes to a new technician can meet such a request: nothing blocks the slot, and yet it is refused. */
  lemma LapsedRequestRefuses(id: AppointmentId, m: Managed, op: Operation, p: Plan, x: Surroundings, c: Clocks,
                             exclusion: bool) returns (t: Tables)
    requires m.appointment.Lasts() && !Refused(m, op, x) && MakePlan(m, op, x) == Ok(p)
    requires Names(p.technicianId) && p.technicianId != m.appointment.technicianId
    ensures Around(t, id, m, exclusion)
    ensures SlotFree(t.appointments, p.technicianId.value, p.startTime, p.BlockedEnd(), None, c.guardNow)
    ensures Mutate(t, id, m, Request(op, true, None), x, c) == Err(AppointmentConflict)
  {
    var other := LapsedSliver(p.technicianId.value, p.startTime, c.guardNow);
    t := Beside(id, m, other, exclusion);
    var d := Draft(m, op, p, p.technicianId, x, c.versionClock).value.appointment;
    assert Collide(d, t.appointments[id + 1], exclusion);
    MutateApplies(t, id, m, Request(op, true, None), x, c);
  }
}
