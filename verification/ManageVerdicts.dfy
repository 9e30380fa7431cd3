/** When a locked mutation succeeds, and what each of its refusals means. */
module ManageVerdicts {
  import opened Wrappers
  import opened Blocking
  import opened Appointments
  import opened ManageSpec
  import opened ManageLaws
  import opened ManageEffects

  // ---- Conditions a caller could look up ----

  /** The row is live, unlocked, and still a request or a confirmed appointment. */
  ghost predicate Open(t: Tables, id: AppointmentId) {
    && id in t.appointments && !t.appointments[id].deleted && !t.appointments[id].locked
    && (t.appointments[id].status.Pending? || t.appointments[id].status.Confirmed?)
  }

  /** The event the feedback came from is still the appointment's, unchanged and in force. */
  ghost predicate SameEvent(t: Tables, id: AppointmentId, f: Fence) {
    f.rowId in t.events && t.events[f.rowId]
      == CalendarEvent(Some(id), f.calendarId, f.googleEventId, f.googleUpdatedAt, true, false, false)
  }

  /** A local operation the feedback must give way to: a newer revision, or one still to be sent that the feedback does
      not prove older. */
  ghost predicate InTheLead(i: Intent, id: AppointmentId, remote: Option<Instant>) {
    var toBeSent := i.status in {IntentPending, IntentRetry, IntentProcessing};
    && i.appointmentId == id && i.status != IntentOther
    && if remote.None? then toBeSent
       else i.version.Some? && (i.version.value > remote.value || (i.version == remote && toBeSent))
  }

  ghost predicate Overtaken(t: Tables, id: AppointmentId, f: Fence) {
    exists i :: i in t.outbox && InTheLead(i, id, f.remoteMutationVersion)
  }

  /** The technician asked for, else the one the caller had loaded. */
  function Asked(op: Operation, loaded: Managed): Option<TechnicianId> {
    if op.TechnicianArgument().Some? then op.TechnicianArgument() else loaded.appointment.technicianId
  }

  ghost predicate Permitted(req: Request, loaded: Managed, a: Appointment) {
    req.canReassignTechnician || Asked(req.operation, loaded) == a.technicianId
  }

  /** Nobody else blocks the technician between these instants. */
  ghost predicate Free(t: Tables, id: AppointmentId, technician: TechnicianId, from: Instant, until: Instant,
                       now: Instant) {
    forall b :: b in t.appointments && b != id && t.appointments[b].technicianId == Some(technician)
      && t.appointments[b].Blocks(now)
      ==> t.appointments[b].OccupiedUntil() <= from || until <= t.appointments[b].startTime
  }

  /** A window for a technician: nothing is asked of the empty one or of none. */
  ghost predicate Granted(t: Tables, id: AppointmentId, technician: Option<TechnicianId>, from: Instant,
                          until: Instant, x: Surroundings, now: Instant) {
    technician.Some? && technician.value != EMPTY_TECHNICIAN ==>
      technician.value in x.technicians && x.policyAccepts && Free(t, id, technician.value, from, until, now)
  }

  // ---- The checks before the operation ----

  lemma OpenIff(t: Tables, id: AppointmentId)
    ensures LockedRead(t, id).Ok? <==> Open(t, id)
  {
  }

  lemma OvertakenIff(t: Tables, id: AppointmentId, f: Fence)
    ensures Superseded(t.outbox, id, f.remoteMutationVersion) <==> Overtaken(t, id, f)
  {
    if Superseded(t.outbox, id, f.remoteMutationVersion) {
      var k :| 0 <= k < |t.outbox| && t.outbox[k].appointmentId == id && Authoritative(t.outbox[k].status) &&
        Outranks(t.outbox[k], f.remoteMutationVersion);
      assert InTheLead(t.outbox[k], id, f.remoteMutationVersion);
    }
    if Overtaken(t, id, f) {
      var i :| i in t.outbox && InTheLead(i, id, f.remoteMutationVersion);
      var k :| 0 <= k < |t.outbox| && t.outbox[k] == i;
      assert Outranks(t.outbox[k], f.remoteMutationVersion);
    }
  }

  lemma FenceIff(t: Tables, id: AppointmentId, fence: Option<Fence>)
    ensures CheckFence(t, id, fence).Ok?
        <==> (fence.Some? ==> SameEvent(t, id, fence.value) && !Overtaken(t, id, fence.value))
    ensures CheckFence(t, id, fence) == Err(StaleGoogleEvent) <==> fence.Some? && !SameEvent(t, id, fence.value)
    ensures CheckFence(t, id, fence).Err? ==> CheckFence(t, id, fence).error in {StaleGoogleEvent, StaleGoogleFeedback}
  {
    if fence.Some? {
      OvertakenIff(t, id, fence.value);
    }
  }

  lemma GrantedIff(t: Tables, id: AppointmentId, p: Plan, x: Surroundings, now: Instant)
    ensures ValidateSlot(t.appointments, id, p, x, now).Ok?
        <==> Granted(t, id, p.technicianId, p.startTime,
                     p.startTime + (p.totalDurationMinutes + p.bufferMinutes) * 60_000, x, now)
  {
    if Names(p.technicianId) {
      var until := p.startTime + (p.totalDurationMinutes + p.bufferMinutes) * 60_000;
      if Free(t, id, p.technicianId.value, p.startTime, until, now) {
        assert SlotFree(t.appointments, p.technicianId.value, p.startTime, p.BlockedEnd(), Some(id), now);
      }
      if SlotFree(t.appointments, p.technicianId.value, p.startTime, p.BlockedEnd(), Some(id), now) {
        forall b | b in t.appointments && b != id && t.appointments[b].technicianId == p.technicianId
                   && t.appointments[b].Blocks(now)
          ensures t.appointments[b].OccupiedUntil() <= p.startTime || until <= t.appointments[b].startTime
        {
          assert !Conflicts(t.appointments[b], p.technicianId.value, p.startTime, p.BlockedEnd(), now);
        }
      }
    }
  }

  // ---- Success ----

  /** What every operation needs before it looks at its slot. */
  ghost predicate Admitted(t: Tables, id: AppointmentId, loaded: Managed, req: Request) {
    && Open(t, id)
    && (req.fence.Some? ==> SameEvent(t, id, req.fence.value) && !Overtaken(t, id, req.fence.value))
    && Permitted(req, loaded, t.appointments[id])
  }

  lemma ApplyOkIff(t: Tables, id: AppointmentId, op: Operation, x: Surroundings, c: Clocks)
    requires id in t.appointments
    ensures ApplyOperation(t, id, op, x, c).Ok? <==>
      && MakePlan(Load(t, id), op, x).Ok?
      && var p := MakePlan(Load(t, id), op, x).value;
      && ValidateSlot(t.appointments, id, p, x, c.guardNow).Ok?
      && var d := Draft(Load(t, id), op, p, if Names(p.technicianId) then p.technicianId else None, x, c.versionClock);
      && d.Ok? && SlotAccepts(t, id, d.value.appointment)
  {
  }

  lemma MutateOkIff(t: Tables, id: AppointmentId, loaded: Managed, req: Request, x: Surroundings, c: Clocks)
    requires req.operation != Reassign(EMPTY_TECHNICIAN)
    ensures Mutate(t, id, loaded, req, x, c).Ok? <==>
      && Admitted(t, id, loaded, req)
      && (|| IdempotentMove(t.appointments[id], req.operation, x)
          || (&& SameVersion(Load(t, id), loaded)
              && ApplyOperation(t, id, req.operation, x, c).Ok?))
  {
    OpenIff(t, id);
    FenceIff(t, id, req.fence);
  }

  /** The constraints look only at these columns. */
  lemma SameColumnsAccepted(t: Tables, id: AppointmentId, r: Appointment, q: Appointment)
    requires r.technicianId == q.technicianId && r.startTime == q.startTime && r.endTime == q.endTime
    requires r.status == q.status && r.deleted == q.deleted
    ensures SlotAccepts(t, id, r) <==> SlotAccepts(t, id, q)
  {
    forall b | b in t.appointments && b != id
      ensures Collide(r, t.appointments[b], t.exclusion) <==> Collide(q, t.appointments[b], t.exclusion)
    {
    }
  }

  /** A move succeeds exactly when the row is open to the caller and either stands there already, or the caller's rows
      are current, the minutes are allowed, the tax snapshot is valid, and the window is granted and not refused by a
      slot constraint. */
  lemma MoveSucceedsIff(t: Tables, id: AppointmentId, loaded: Managed, req: Request, x: Surroundings, c: Clocks,
                        start: Instant)
    requires req.operation.Move?
    requires LatestOnGrid(start, req.operation.startTime, x.slotIntervalMinutes, x.serverOffset)
    ensures Mutate(t, id, loaded, req, x, c).Ok? <==>
      && Admitted(t, id, loaded, req)
      && var a, op := t.appointments[id], req.operation;
      && var minutes, buffer := MinutesAsked(op, a), BufferOf(a, x);
         || StandsThere(a, op, x)
         || (&& SameVersion(Load(t, id), loaded) && 15 <= minutes <= 480 && x.taxSnapshotValid
             && Granted(t, id, Asked(op, Load(t, id)), start, start + (minutes + buffer) * 60_000, x, c.guardNow)
             && SlotAccepts(t, id, a.(technicianId := TechnicianAfter(op, a), startTime := start,
                                      endTime := start + minutes * 60_000)))
  {
    MutateOkIff(t, id, loaded, req, x, c);
    if id in t.appointments {
      IdempotentIff(t.appointments[id], req.operation, x);
      MoveAppliesIff(t, id, req.operation, x, c, start);
    }
  }

  lemma MoveAppliesIff(t: Tables, id: AppointmentId, op: Operation, x: Surroundings, c: Clocks, start: Instant)
    requires op.Move? && id in t.appointments
    requires LatestOnGrid(start, op.startTime, x.slotIntervalMinutes, x.serverOffset)
    ensures var a := t.appointments[id];
      var minutes, buffer := MinutesAsked(op, a), BufferOf(a, x);
      ApplyOperation(t, id, op, x, c).Ok? <==>
      && 15 <= minutes <= 480 && x.taxSnapshotValid
      && Granted(t, id, Asked(op, Load(t, id)), start, start + (minutes + buffer) * 60_000, x, c.guardNow)
      && SlotAccepts(t, id, a.(technicianId := TechnicianAfter(op, a), startTime := start,
                               endTime := start + minutes * 60_000))
  {
    var m, a := Load(t, id), t.appointments[id];
    RoundsToLatest(op.startTime, x.slotIntervalMinutes, x.serverOffset);
    LatestIsUnique(start, RoundDownToSlot(op.startTime, x.slotIntervalMinutes, x.serverOffset), op.startTime,
                   x.slotIntervalMinutes, x.serverOffset);
    ApplyOkIff(t, id, op, x, c);
    if MakePlan(m, op, x).Ok? {
      var p := MakePlan(m, op, x).value;
      GrantedIff(t, id, p, x, c.guardNow);
      var technician := if Names(p.technicianId) then p.technicianId else None;
      if Draft(m, op, p, technician, x, c.versionClock).Ok? {
        SameColumnsAccepted(t, id, Draft(m, op, p, technician, x, c.versionClock).value.appointment,
                            a.(technicianId := TechnicianAfter(op, a), startTime := start,
                               endTime := start + MinutesAsked(op, a) * 60_000));
      }
    }
  }

  /** A reassignment succeeds exactly when it names somebody, the row is open to the caller, the caller's rows are
      current, and the row's own window is granted to the new technician and not refused by a slot constraint. */
  lemma ReassignSucceedsIff(t: Tables, id: AppointmentId, loaded: Managed, req: Request, x: Surroundings, c: Clocks)
    requires req.operation.Reassign?
    ensures Mutate(t, id, loaded, req, x, c).Ok? <==>
      && req.operation.reassignTo != EMPTY_TECHNICIAN
      && Admitted(t, id, loaded, req) && SameVersion(Load(t, id), loaded)
      && var a, to := t.appointments[id], Some(req.operation.reassignTo);
      && Granted(t, id, to, a.startTime,
                 a.startTime + (a.totalDurationMinutes + BufferOf(a, x)) * 60_000, x, c.guardNow)
      && SlotAccepts(t, id, a.(technicianId := to))
  {
    if req.operation.reassignTo != EMPTY_TECHNICIAN {
      MutateOkIff(t, id, loaded, req, x, c);
      if id in t.appointments {
        ApplyOkIff(t, id, req.operation, x, c);
        var m, p := Load(t, id), MakePlan(Load(t, id), req.operation, x).value;
        GrantedIff(t, id, p, x, c.guardNow);
        SameColumnsAccepted(t, id, Draft(m, req.operation, p, p.technicianId, x, c.versionClock).value.appointment,
                            t.appointments[id].(technicianId := p.technicianId));
      }
    }
  }

  /** The minutes of the lines whose add-on is allowed, and of the service. */
  function MinutesOffered(m: Managed, service: CatalogService): int {
    service.durationMinutes + AllowedMinutes(m.addOns, service.allowedAddOns, |m.addOns|)
  }

  function AllowedMinutes(lines: seq<AddOnLine>, allowed: set<nat>, n: nat): nat
    requires n <= |lines|
  {
    if n == 0 then 0
    else AllowedMinutes(lines, allowed, n - 1)
         + (if Allowed(lines[n - 1], allowed) then lines[n - 1].lineDurationMinutes else 0)
  }

  lemma {:induction false} AllowedMinutesInRest(lines: seq<AddOnLine>, allowed: set<nat>, n: nat)
    requires n < |lines|
    ensures AllowedMinutes(lines, allowed, n + 1)
         == AllowedMinutes(lines[1..], allowed, n)
            + if Allowed(lines[0], allowed) then lines[0].lineDurationMinutes else 0
  {
    if n > 0 {
      AllowedMinutesInRest(lines, allowed, n - 1);
      assert lines[1..][n - 1] == lines[n];
    } else {
      assert AllowedMinutes(lines, allowed, 0) == 0;
    }
  }

  lemma {:induction false} KeptMinutes(lines: seq<AddOnLine>, allowed: set<nat>)
    ensures SumAddOnMinutes(KeptAddOns(lines, allowed)) == AllowedMinutes(lines, allowed, |lines|)
  {
    if lines != [] {
      KeptMinutes(lines[1..], allowed);
      AllowedMinutesInRest(lines, allowed, |lines| - 1);
      if Allowed(lines[0], allowed) {
        var kept := KeptAddOns(lines[1..], allowed);
        assert ([lines[0]] + kept)[1..] == kept;
      }
    }
  }

  /** A service change succeeds exactly when the row is open to the caller, the caller's rows are current, the salon
      offers the service, the tax snapshot is valid, and the window of the service with the add-ons it allows is granted
      and not refused by a slot constraint. */
  lemma ServiceChangeSucceedsIff(t: Tables, id: AppointmentId, loaded: Managed, req: Request, x: Surroundings,
                                 c: Clocks, start: Instant)
    requires req.operation.ChangeService? && id in t.appointments
    requires LatestOnGrid(start, if req.operation.newStart.Some? then req.operation.newStart.value
                                 else t.appointments[id].startTime, x.slotIntervalMinutes, x.serverOffset)
    ensures Mutate(t, id, loaded, req, x, c).Ok? <==>
      && Admitted(t, id, loaded, req) && SameVersion(Load(t, id), loaded)
      && req.operation.baseServiceId in x.catalog && x.taxSnapshotValid
      && var a, op := t.appointments[id], req.operation;
      && var minutes := MinutesOffered(Load(t, id), x.catalog[op.baseServiceId]);
      && Granted(t, id, Asked(op, Load(t, id)), start,
                 start + (minutes + BufferOf(a, x)) * 60_000, x, c.guardNow)
      && SlotAccepts(t, id, a.(technicianId := TechnicianAfter(op, a), startTime := start,
                               endTime := start + minutes * 60_000))
  {
    MutateOkIff(t, id, loaded, req, x, c);
    ChangeAppliesIff(t, id, req.operation, x, c, start);
  }

  lemma ChangeAppliesIff(t: Tables, id: AppointmentId, op: Operation, x: Surroundings, c: Clocks, start: Instant)
    requires op.ChangeService? && id in t.appointments
    requires LatestOnGrid(start, if op.newStart.Some? then op.newStart.value else t.appointments[id].startTime,
                          x.slotIntervalMinutes, x.serverOffset)
    ensures ApplyOperation(t, id, op, x, c).Ok? <==>
      && op.baseServiceId in x.catalog && x.taxSnapshotValid
      && var a, minutes := t.appointments[id], MinutesOffered(Load(t, id), x.catalog[op.baseServiceId]);
      && Granted(t, id, Asked(op, Load(t, id)), start,
                 start + (minutes + BufferOf(a, x)) * 60_000, x, c.guardNow)
      && SlotAccepts(t, id, a.(technicianId := TechnicianAfter(op, a), startTime := start,
                               endTime := start + minutes * 60_000))
  {
    var m := Load(t, id);
    ApplyOkIff(t, id, op, x, c);
    if MakePlan(m, op, x).Ok? {
      var p := MakePlan(m, op, x).value;
      ChangePlan(m, op, x, start);
      GrantedIff(t, id, p, x, c.guardNow);
      ChangeRowAccepted(t, id, op, p, x, c);
    }
  }

  lemma ChangeRowAccepted(t: Tables, id: AppointmentId, op: Operation, p: Plan, x: Surroundings, c: Clocks)
    requires op.ChangeService? && id in t.appointments && MakePlan(Load(t, id), op, x) == Ok(p)
    requires p.technicianId == Asked(op, Load(t, id))
    ensures var m, technician := Load(t, id), if Names(p.technicianId) then p.technicianId else None;
      && Draft(m, op, p, technician, x, c.versionClock).Ok?
      && (SlotAccepts(t, id, Draft(m, op, p, technician, x, c.versionClock).value.appointment)
          <==> SlotAccepts(t, id, m.appointment.(technicianId := TechnicianAfter(op, m.appointment),
                                                 startTime := p.startTime,
                                                 endTime := p.startTime + p.totalDurationMinutes * 60_000)))
  {
    var m, technician := Load(t, id), if Names(p.technicianId) then p.technicianId else None;
    SameColumnsAccepted(t, id, Draft(m, op, p, technician, x, c.versionClock).value.appointment,
                        m.appointment.(technicianId := TechnicianAfter(op, m.appointment), startTime := p.startTime,
                                       endTime := p.startTime + p.totalDurationMinutes * 60_000));
  }

  lemma ChangePlan(m: Managed, op: Operation, x: Surroundings, start: Instant)
    requires op.ChangeService? && MakePlan(m, op, x).Ok?
    requires LatestOnGrid(start, if op.newStart.Some? then op.newStart.value else m.appointment.startTime,
                          x.slotIntervalMinutes, x.serverOffset)
    ensures var p := MakePlan(m, op, x).value;
      && op.baseServiceId in x.catalog && p.startTime == start
      && p.totalDurationMinutes == MinutesOffered(m, x.catalog[op.baseServiceId])
      && p.bufferMinutes == BufferOf(m.appointment, x)
      && p.technicianId == Asked(op, m)
  {
    var wanted := op.newStart.Or(m.appointment.startTime);
    RoundsToLatest(wanted, x.slotIntervalMinutes, x.serverOffset);
    LatestIsUnique(start, RoundDownToSlot(wanted, x.slotIntervalMinutes, x.serverOffset), wanted,
                   x.slotIntervalMinutes, x.serverOffset);
    KeptMinutes(m.addOns, x.catalog[op.baseServiceId].allowedAddOns);
  }

  // ---- Refusals ----

  ghost predicate FenceBroken(t: Tables, id: AppointmentId, fence: Option<Fence>) {
    fence.Some? && !SameEvent(t, id, fence.value)
  }

  ghost predicate FenceOvertaken(t: Tables, id: AppointmentId, fence: Option<Fence>) {
    fence.Some? && Overtaken(t, id, fence.value)
  }

  ghost predicate MovedAlready(a: Appointment, op: Operation, x: Surroundings) { op.Move? && StandsThere(a, op, x) }

  predicate BadMinutes(op: Operation, a: Appointment) { op.Move? && !(15 <= MinutesAsked(op, a) <= 480) }

  predicate BadService(op: Operation, x: Surroundings) { op.ChangeService? && op.baseServiceId !in x.catalog }

  predicate Stranger(technician: Option<TechnicianId>, x: Surroundings) {
    Names(technician) && technician.value !in x.technicians
  }

  /** Another row of one of these technicians blocks, or is one that the slot constraints see. */
  ghost predicate Rival(t: Tables, id: AppointmentId, technicians: set<Option<TechnicianId>>, now: Instant) {
    exists b :: b in t.appointments && b != id && RivalRow(t.appointments[b], technicians, now)
  }

  predicate RivalRow(r: Appointment, technicians: set<Option<TechnicianId>>, now: Instant) {
    r.technicianId.Some? && r.technicianId in technicians && (r.Blocks(now) || r.HoldsSlot())
  }

  /** The errors before the operation. */
  predicate IsEarly(e: ManageError) {
    || e == HoldLocked || e == NotEditable || e == AppointmentLocked
    || e == StaleGoogleEvent || e == StaleGoogleFeedback || e == StaleState || e == Forbidden
  }

  /** What an error before the operation says about the row and the request. */
  ghost predicate MeansBefore(e: ManageError, t: Tables, id: AppointmentId, m: Managed, loaded: Managed, req: Request,
                              x: Surroundings) {
    && (e == HoldLocked ==> m.appointment.status.AwaitingPayment?)
    && (e == NotEditable ==> m.appointment.status in {Completed, Cancelled, NoShow})
    && (e == AppointmentLocked ==> m.appointment.locked || m.appointment.status.InProgress?)
    && (e == StaleGoogleEvent ==> FenceBroken(t, id, req.fence))
    && (e == StaleGoogleFeedback ==> FenceOvertaken(t, id, req.fence))
    && (e == StaleState ==> !SameVersion(m, loaded) && !MovedAlready(m.appointment, req.operation, x))
    && (e == Forbidden ==> !Permitted(req, loaded, m.appointment))
  }

  /** What an error of the operation says. */
  ghost predicate MeansWithin(e: ManageError, t: Tables, id: AppointmentId, m: Managed, op: Operation,
                              x: Surroundings, now: Instant) {
    && e in {InvalidDuration, InvalidBaseService, TaxSnapshotInvalid, TechnicianNotFound, AppointmentConflict}
    && (e == InvalidDuration ==> BadMinutes(op, m.appointment))
    && (e == InvalidBaseService ==> BadService(op, x))
    && (e == TaxSnapshotInvalid ==> !op.Reassign? && !x.taxSnapshotValid)
    && (e == TechnicianNotFound ==> Stranger(Asked(op, m), x))
    && (e == AppointmentConflict ==>
          || (Names(Asked(op, m)) && !x.policyAccepts)
          || Rival(t, id, {Asked(op, m), m.appointment.technicianId}, now))
  }

  lemma OperationRefusalsAreMeant(t: Tables, id: AppointmentId, op: Operation, x: Surroundings, c: Clocks)
    requires id in t.appointments && ApplyOperation(t, id, op, x, c).Err?
    ensures MeansWithin(ApplyOperation(t, id, op, x, c).error, t, id, Load(t, id), op, x, c.guardNow)
  {
    var m := Load(t, id);
    if MakePlan(m, op, x).Ok? {
      var p := MakePlan(m, op, x).value;
      assert p.technicianId == Asked(op, m);
      var v := ValidateSlot(t.appointments, id, p, x, c.guardNow);
      if v.Err? {
        SlotRefusal(t, id, m, op, p, x, c.guardNow);
      } else if Draft(m, op, p, v.value, x, c.versionClock).Ok? {
        ConstraintRefusal(t, id, m, op, p, v.value, x, c);
      }
    }
  }

  lemma SlotRefusal(t: Tables, id: AppointmentId, m: Managed, op: Operation, p: Plan, x: Surroundings, now: Instant)
    requires p.technicianId == Asked(op, m) && ValidateSlot(t.appointments, id, p, x, now).Err?
    ensures MeansWithin(ValidateSlot(t.appointments, id, p, x, now).error, t, id, m, op, x, now)
  {
    if p.technicianId.value in x.technicians && x.policyAccepts {
      var b :| b in t.appointments && Some(b) != Some(id)
        && Conflicts(t.appointments[b], p.technicianId.value, p.startTime, p.BlockedEnd(), now);
      assert RivalRow(t.appointments[b], {Asked(op, m), m.appointment.technicianId}, now);
    }
  }

  lemma ConstraintRefusal(t: Tables, id: AppointmentId, m: Managed, op: Operation, p: Plan,
                          technician: Option<TechnicianId>, x: Surroundings, c: Clocks)
    requires id in t.appointments && m == Load(t, id) && MakePlan(m, op, x) == Ok(p)
    requires ValidateSlot(t.appointments, id, p, x, c.guardNow) == Ok(technician)
    requires Draft(m, op, p, technician, x, c.versionClock).Ok?
    requires !SlotAccepts(t, id, Draft(m, op, p, technician, x, c.versionClock).value.appointment)
    ensures Rival(t, id, {Asked(op, m), m.appointment.technicianId}, c.guardNow)
  {
    var row := Draft(m, op, p, technician, x, c.versionClock).value.appointment;
    var b :| b in t.appointments && b != id && Collide(row, t.appointments[b], t.exclusion);
    assert RivalRow(t.appointments[b], {Asked(op, m), m.appointment.technicianId}, c.guardNow);
  }

  /** Every refusal has its reason: first the missing technician, then the row, the fence, the version and the
      permission, and only then what the operation itself objects to. */
  lemma RefusalsAreMeant(t: Tables, id: AppointmentId, loaded: Managed, req: Request, x: Surroundings, c: Clocks)
    requires Mutate(t, id, loaded, req, x, c).Err?
    ensures var e := Mutate(t, id, loaded, req, x, c).error;
      if req.operation == Reassign(EMPTY_TECHNICIAN) then e == TechnicianRequired
      else if id !in t.appointments || t.appointments[id].deleted then e == AppointmentNotFound
      else if !Admitted(t, id, loaded, req) || !SameVersion(Load(t, id), loaded) then
        && IsEarly(e)
        && MeansBefore(e, t, id, Load(t, id), loaded, req, x)
      else MeansWithin(e, t, id, Load(t, id), req.operation, x, c.guardNow)
  {
    if req.operation != Reassign(EMPTY_TECHNICIAN) && id in t.appointments && !t.appointments[id].deleted {
      OpenIff(t, id);
      FenceIff(t, id, req.fence);
      if req.operation.Move? {
        IdempotentIff(t.appointments[id], req.operation, x);
      }
      if Admitted(t, id, loaded, req) && SameVersion(Load(t, id), loaded) {
        OperationRefusalsAreMeant(t, id, req.operation, x, c);
      } else {
        EarlierRefusals(t, id, loaded, req, x, c);
      }
    }
  }

  lemma EarlierRefusals(t: Tables, id: AppointmentId, loaded: Managed, req: Request, x: Surroundings, c: Clocks)
    requires id in t.appointments && !t.appointments[id].deleted && req.operation != Reassign(EMPTY_TECHNICIAN)
    requires Mutate(t, id, loaded, req, x, c).Err?
    requires !Admitted(t, id, loaded, req) || !SameVersion(Load(t, id), loaded)
    ensures var e := Mutate(t, id, loaded, req, x, c).error;
      && IsEarly(e)
      && MeansBefore(e, t, id, Load(t, id), loaded, req, x)
  {
    OpenIff(t, id);
    FenceIff(t, id, req.fence);
    if req.operation.Move? {
      IdempotentIff(t.appointments[id], req.operation, x);
    }
  }
}
