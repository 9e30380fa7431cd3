/** The rows the appointment engine reads and writes, the slot guard and the calendar outbox. */
module Appointments {
  import opened Wrappers
  import opened Blocking

  const MINUTE := 60_000

  type AppointmentId = nat

  /** Technician identifiers, ordered as the engine sorts them. `EMPTY_TECHNICIAN` is the empty string. */
  type TechnicianId = nat
  const EMPTY_TECHNICIAN: TechnicianId := 0

  /** The truthiness test of `filter(Boolean)` and `if (!technicianId)`. */
  predicate Names(technician: Option<TechnicianId>) {
    technician.Some? && technician.value != EMPTY_TECHNICIAN
  }

  datatype DiscountType = FirstVisit | OtherDiscount(code: nat)

  datatype Appointment = Appointment(
    status: Status,
    technicianId: Option<TechnicianId>,
    startTime: Instant,
    endTime: Instant,
    totalDurationMinutes: nat,
    bufferMinutes: Option<nat>,
    blockedDurationMinutes: Option<nat>,
    totalPrice: int,
    basePriceCents: Option<int>,
    addOnsPriceCents: Option<int>,
    subtotalBeforeDiscountCents: Option<int>,
    discountAmountCents: Option<int>,
    discountType: Option<DiscountType>,
    requestExpiresAt: Option<Instant>,
    locked: bool,
    deleted: bool,
    dayBeforeReminderSentAt: Option<Instant>,
    sameDayReminderSentAt: Option<Instant>,
    calendarPending: bool,
    updatedAt: Instant
  ) {
    predicate Blocks(now: Instant) {
      !deleted && IsBlockingSlot(status, requestExpiresAt, now)
    }

    /** GREATEST(end_time, start_time + blocked minutes), with the column fallbacks of the slot guard. */
    function OccupiedUntil(): Instant {
      var minutes := blockedDurationMinutes.Or(totalDurationMinutes + bufferMinutes.Or(0));
      var blockedEnd := startTime + minutes * MINUTE;
      if endTime >= blockedEnd then endTime else blockedEnd
    }

    /** The WHERE clause of both slot constraints. Unlike `Blocks`, it keeps a request whose deadline has passed. */
    predicate HoldsSlot() {
      !deleted && technicianId.Some? && (status.Pending? || UnconditionallyBlocking(status))
    }

    /** An appointment takes some time. */
    predicate Lasts() { startTime < endTime && totalDurationMinutes > 0 }
  }

  datatype ServiceLine = ServiceLine(id: nat, serviceId: nat, priceAtBooking: nat, durationAtBooking: nat)

  datatype AddOnLine = AddOnLine(id: nat, addOnId: Option<nat>, lineTotalCents: nat, lineDurationMinutes: nat)

  /** One appointment with its service and add-on rows, in the order a query returned them. */
  datatype Managed = Managed(appointment: Appointment, services: seq<ServiceLine>, addOns: seq<AddOnLine>)

  /** Equality of `managedWriteVersion`: the serialized row and both row sets sorted by id. */
  predicate SameVersion(a: Managed, b: Managed) {
    && a.appointment == b.appointment
    && multiset(a.services) == multiset(b.services)
    && multiset(a.addOns) == multiset(b.addOns)
  }

  datatype IntentStatus = IntentPending | IntentRetry | IntentProcessing
                        | IntentCompleted | IntentFailed | IntentCancelled | IntentOther

  /** A calendar row of the outbox. `ordinary` marks the deduplicated appointment-mutation rows;
      `version` is absent when the payload carries none or a malformed one. */
  datatype Intent = Intent(appointmentId: AppointmentId, ordinary: bool, version: Option<Instant>, status: IntentStatus)

  predicate Runnable(s: IntentStatus) {
    s.IntentPending? || s.IntentRetry? || s.IntentProcessing?
  }

  predicate Authoritative(s: IntentStatus) { !s.IntentOther? }

  predicate Outranks(intent: Intent, remote: Option<Instant>) {
    match remote
    case None => Runnable(intent.status)
    case Some(r) =>
      && intent.version.Some?
      && (intent.version.value > r || (intent.version.value == r && Runnable(intent.status)))
  }

  /** Must inbound calendar feedback give way to a local operation? */
  predicate Superseded(outbox: seq<Intent>, id: AppointmentId, remote: Option<Instant>) {
    exists k :: 0 <= k < |outbox| && outbox[k].appointmentId == id && Authoritative(outbox[k].status) &&
      Outranks(outbox[k], remote)
  }

  datatype CalendarEvent = CalendarEvent(
    appointmentId: Option<AppointmentId>, calendarId: nat, googleEventId: nat,
    googleUpdatedAt: Option<Instant>, reviewedAsAppointment: bool, superseded: bool, deleted: bool)

  /** `exclusion` says whether the database could install the exclusion constraint on [start, end). */
  datatype Tables = Tables(
    exclusion: bool,
    appointments: map<AppointmentId, Appointment>,
    services: map<AppointmentId, seq<ServiceLine>>,
    addOns: map<AppointmentId, seq<AddOnLine>>,
    outbox: seq<Intent>,
    events: map<nat, CalendarEvent>)

  function Lines<T>(rows: map<AppointmentId, seq<T>>, id: AppointmentId): seq<T> {
    if id in rows then rows[id] else []
  }

  /** DELETE ... WHERE appointment_id = id */
  function WithoutLines<T>(rows: map<AppointmentId, seq<T>>, id: AppointmentId): map<AppointmentId, seq<T>> {
    if Lines(rows, id) == [] then rows else rows - {id}
  }

  /** INSERT of the given rows */
  function WithLines<T>(rows: map<AppointmentId, seq<T>>, id: AppointmentId, more: seq<T>): map<AppointmentId, seq<T>> {
    if more == [] then rows else rows[id := Lines(rows, id) + more]
  }

  function Load(t: Tables, id: AppointmentId): Managed
    requires id in t.appointments
  {
    Managed(t.appointments[id], Lines(t.services, id), Lines(t.addOns, id))
  }

  // ---- The slot guard ----

  predicate Conflicts(r: Appointment, technician: TechnicianId, startTime: Instant, blockedEnd: Instant, now: Instant) {
    && r.technicianId == Some(technician)
    && r.Blocks(now)
    && r.startTime < blockedEnd
    && r.OccupiedUntil() > startTime
  }

  predicate SlotFree(appointments: map<AppointmentId, Appointment>, technician: TechnicianId,
                     startTime: Instant, blockedEnd: Instant, excluded: Option<AppointmentId>, now: Instant)
  {
    forall b :: b in appointments && excluded != Some(b) ==>
      !Conflicts(appointments[b], technician, startTime, blockedEnd, now)
  }

  /** Two rows that both block and share a technician, with overlapping occupied windows. */
  ghost predicate Clash(a: Appointment, b: Appointment, now: Instant) {
    && a.Blocks(now) && b.Blocks(now)
    && a.technicianId.Some? && a.technicianId == b.technicianId
    && a.startTime < b.OccupiedUntil() && b.startTime < a.OccupiedUntil()
  }

  /** The ranges [start, end) share an instant; an empty range overlaps nothing. */
  predicate Overlap(a: Appointment, b: Appointment) {
    && a.startTime < a.endTime && b.startTime < b.endTime
    && a.startTime < b.endTime && b.startTime < a.endTime
  }

  /** Both block at `now`, share a technician, and their ranges [start, end) overlap. */
  ghost predicate DoubleBooked(a: Appointment, b: Appointment, now: Instant) {
    a.Blocks(now) && b.Blocks(now) && a.technicianId.Some? && a.technicianId == b.technicianId && Overlap(a, b)
  }

  /** No double booking, buffers included. */
  ghost predicate NoClash(appointments: map<AppointmentId, Appointment>, now: Instant) {
    forall a, b :: a in appointments && b in appointments && a != b ==> !Clash(appointments[a], appointments[b], now)
  }

  /** The stored end and blocked minutes lie inside start + duration + buffer; every move and service change
      writes rows of this form, and a reassignment keeps whatever it finds. */
  predicate WellSized(r: Appointment, defaultBuffer: nat) {
    r.OccupiedUntil() <= r.startTime + (r.totalDurationMinutes + r.bufferMinutes.Or(defaultBuffer)) * MINUTE
  }

  // ---- The slot constraints ----

  /** Two rows that the unique index on technician and start, or the exclusion constraint, does not let stand
      together. */
  predicate Collide(a: Appointment, b: Appointment, exclusion: bool) {
    && a.HoldsSlot() && b.HoldsSlot() && a.technicianId == b.technicianId
    && (a.startTime == b.startTime || (exclusion && Overlap(a, b)))
  }

  /** The database takes `row` as the row of `id`. */
  predicate SlotAccepts(t: Tables, id: AppointmentId, row: Appointment) {
    forall b :: b in t.appointments && b != id ==> !Collide(row, t.appointments[b], t.exclusion)
  }

  /** What the constraints keep out of the table. */
  ghost predicate SlotsRespected(t: Tables) {
    forall a, b :: a in t.appointments && b in t.appointments && a != b ==>
      !Collide(t.appointments[a], t.appointments[b], t.exclusion)
  }

  ghost predicate RowsLast(t: Tables) {
    forall a :: a in t.appointments ==> t.appointments[a].Lasts()
  }

  // ---- The outbox ----

  /** `enqueueGoogleCalendarAppointmentMutation`: one ordinary row per (appointment, revision). */
  predicate HasOrdinaryIntent(outbox: seq<Intent>, id: AppointmentId, version: Instant) {
    exists k :: 0 <= k < |outbox| && outbox[k].appointmentId == id && outbox[k].ordinary &&
        outbox[k].version == Some(version)
  }

  /** Some authoritative row, in any state, carries this revision of the appointment. */
  predicate Announced(outbox: seq<Intent>, id: AppointmentId, version: Instant) {
    exists k :: 0 <= k < |outbox| && outbox[k].appointmentId == id && Authoritative(outbox[k].status)
                && outbox[k].version == Some(version)
  }

  function Enqueue(t: Tables, id: AppointmentId, version: Instant): Tables
    requires id in t.appointments
  {
    if HasOrdinaryIntent(t.outbox, id, version) then t
    else
      t.(outbox := t.outbox + [Intent(id, true, Some(version), IntentPending)],
         appointments := t.appointments[id := t.appointments[id].(calendarPending := true)])
  }
}
