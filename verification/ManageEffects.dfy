/** What a locked mutation leaves behind, when it succeeds and why it is refused, read off the old row and the request
    alone. */
module ManageEffects {
  import opened Wrappers
  import opened Blocking
  import opened Appointments
  import opened ManageSpec
  import opened ManageLaws
  import opened NextAvailable

  // ---- The version of what was loaded ----

  function Occurrences<T(==)>(s: seq<T>, v: T): nat {
    if s == [] then 0 else (if s[0] == v then 1 else 0) + Occurrences(s[1..], v)
  }

  lemma {:induction false} OccurrencesCount<T>(s: seq<T>, v: T)
    ensures multiset(s)[v] == Occurrences(s, v)
  {
    if s != [] {
      OccurrencesCount(s[1..], v);
      assert s == [s[0]] + s[1..];
    }
  }

  /** Everything occurs as often in the one as in the other. */
  ghost predicate SameLines<T(!new)>(s: seq<T>, t: seq<T>) {
    forall v :: Occurrences(s, v) == Occurrences(t, v)
  }

  /** Loaded rows are current exactly when the appointment is the same and every service line and add-on line occurs as
      often as it did; the order the query gave them in does not matter. */
  lemma SameVersionIff(a: Managed, b: Managed)
    ensures SameVersion(a, b)
        <==> a.appointment == b.appointment && SameLines(a.services, b.services) && SameLines(a.addOns, b.addOns)
  {
    SameLinesIff(a.services, b.services);
    SameLinesIff(a.addOns, b.addOns);
  }

  lemma SameLinesIff<T(!new)>(s: seq<T>, t: seq<T>)
    ensures multiset(s) == multiset(t) <==> SameLines(s, t)
  {
    if multiset(s) == multiset(t) {
      forall v
        ensures Occurrences(s, v) == Occurrences(t, v)
      {
        OccurrencesCount(s, v);
        OccurrencesCount(t, v);
      }
    }
    if SameLines(s, t) {
      forall v
        ensures multiset(s)[v] == multiset(t)[v]
      {
        OccurrencesCount(s, v);
        OccurrencesCount(t, v);
      }
    }
  }

  // ---- The slot grid ----

  /** On the server's clock: a whole minute whose minute of the hour is a multiple of the interval. */
  predicate OnGrid(t: Instant, interval: Interval, serverOffset: int) {
    (t + serverOffset) % 60_000 == 0 && (t + serverOffset) / 60_000 % 60 % interval == 0
  }

  /** The latest instant of the grid at or before `t`. */
  ghost predicate LatestOnGrid(g: Instant, t: Instant, interval: Interval, serverOffset: int) {
    && OnGrid(g, interval, serverOffset) && g <= t
    && forall h :: g < h <= t ==> !OnGrid(h, interval, serverOffset)
  }

  lemma LatestIsUnique(g: Instant, h: Instant, t: Instant, interval: Interval, serverOffset: int)
    requires LatestOnGrid(g, t, interval, serverOffset) && LatestOnGrid(h, t, interval, serverOffset)
    ensures g == h
  {
  }

  /** Minutes between a multiple of the interval within the hour and the next one. */
  lemma GridMinute(minutes: int, k: int, interval: Interval)
    requires var r := minutes % 60 % interval; minutes - r <= k <= minutes
    ensures k % 60 % interval == k - (minutes - minutes % 60 % interval)
  {
    var hour, minute := minutes / 60, minutes % 60;
    var q, r := minute / interval, minute % interval;
    NonNegativeProduct(q, interval);
    assert minute == q * interval + r;
    QuotientIsUnique(k, 60, hour);
    QuotientIsUnique(k % 60, interval, q);
  }

  /** Rounding a start down gives the latest grid instant. */
  lemma RoundsToLatest(t: Instant, interval: Interval, serverOffset: int)
    ensures LatestOnGrid(RoundDownToSlot(t, interval, serverOffset), t, interval, serverOffset)
  {
    var minutes := (t + serverOffset) / 60_000;
    var r, g := minutes % 60 % interval, RoundDownToSlot(t, interval, serverOffset);
    assert g + serverOffset == 60_000 * (minutes - r);
    QuotientIsUnique(g + serverOffset, 60_000, minutes - r);
    GridMinute(minutes, minutes - r, interval);
    forall h | g < h <= t
      ensures !OnGrid(h, interval, serverOffset)
    {
      var k := (h + serverOffset) / 60_000;
      if (h + serverOffset) % 60_000 == 0 {
        assert h + serverOffset == 60_000 * k;
        GridMinute(minutes, k, interval);
      }
    }
  }

  // ---- A move ----

  /** What a move makes of a row: the minutes asked for, else those the row had. */
  function MinutesAsked(op: Operation, a: Appointment): int
    requires op.Move?
  {
    if op.durationMinutes.Some? then op.durationMinutes.value else a.totalDurationMinutes
  }

  /** The buffer of the row, else the salon's. */
  function BufferOf(a: Appointment, x: Surroundings): nat {
    if a.bufferMinutes.Some? then a.bufferMinutes.value else x.bufferMinutes
  }

  /** The row already stands where the move wants it. */
  ghost predicate StandsThere(a: Appointment, op: Operation, x: Surroundings)
    requires op.Move?
  {
    && LatestOnGrid(a.startTime, op.startTime, x.slotIntervalMinutes, x.serverOffset)
    && a.totalDurationMinutes == MinutesAsked(op, a)
    && (op.technicianId.Some? ==> a.technicianId == op.technicianId)
  }

  /** `after` is `a` in another slot: times, sizes and technician are these, the marks follow the start, and only the
      revision and the calendar flag are left open. */
  ghost predicate Moved(a: Appointment, after: Appointment, minutes: int, buffer: nat, technician: Option<TechnicianId>)
  {
    && minutes > 0
    && after == a.(
         technicianId := technician,
         startTime := after.startTime,
         endTime := after.startTime + minutes * 60_000,
         totalDurationMinutes := minutes,
         bufferMinutes := Some(buffer),
         blockedDurationMinutes := Some(minutes + buffer),
         dayBeforeReminderSentAt := if after.startTime == a.startTime then a.dayBeforeReminderSentAt else None,
         sameDayReminderSentAt := if after.startTime == a.startTime then a.sameDayReminderSentAt else None,
         calendarPending := after.calendarPending,
         updatedAt := after.updatedAt)
  }

  /** The technician a row ends up with: the named one, else its own. */
  function TechnicianAfter(op: Operation, a: Appointment): Option<TechnicianId> {
    if Names(op.TechnicianArgument()) then op.TechnicianArgument() else a.technicianId
  }

  /** The plan, technician and draft of a mutation that writes. */
  lemma WrittenDraft(t: Tables, id: AppointmentId, loaded: Managed, req: Request, x: Surroundings, c: Clocks)
      returns (p: Plan, technician: Option<TechnicianId>, d: Managed)
    requires Mutate(t, id, loaded, req, x, c).Ok? && Mutate(t, id, loaded, req, x, c).value != t
    ensures id in t.appointments
    ensures MakePlan(Load(t, id), req.operation, x) == Ok(p)
    ensures ValidateSlot(t.appointments, id, p, x, c.guardNow) == Ok(technician)
    ensures Draft(Load(t, id), req.operation, p, technician, x, c.versionClock) == Ok(d)
    ensures Mutate(t, id, loaded, req, x, c).value == Publish(t, id, d)
    ensures !(req.operation.Reassign? && req.operation.reassignTo == EMPTY_TECHNICIAN)
  {
    p := MakePlan(Load(t, id), req.operation, x).value;
    technician := ValidateSlot(t.appointments, id, p, x, c.guardNow).value;
    d := Draft(Load(t, id), req.operation, p, technician, x, c.versionClock).value;
  }

  /** Lines and row of a published draft. */
  lemma PublishedRows(t: Tables, id: AppointmentId, d: Managed)
    requires id in t.appointments
    ensures var t' := Publish(t, id, d);
      && id in t'.appointments && Load(t', id).services == d.services && Load(t', id).addOns == d.addOns
      && t'.appointments[id] == d.appointment.(calendarPending := t'.appointments[id].calendarPending)
  {
    DeleteThenInsertReplaces(t.services, id, d.services);
    DeleteThenInsertReplaces(t.addOns, id, d.addOns);
  }

  lemma MoveDraft(m: Managed, op: Operation, p: Plan, technician: Option<TechnicianId>, x: Surroundings, clock: Instant,
                  d: Managed)
    requires op.Move? && MakePlan(m, op, x) == Ok(p) && Draft(m, op, p, technician, x, clock) == Ok(d)
    requires technician == if Names(p.technicianId) then p.technicianId else None
    ensures d.services == m.services && d.addOns == m.addOns
    ensures 15 <= MinutesAsked(op, m.appointment) <= 480
    ensures Moved(m.appointment, d.appointment, MinutesAsked(op, m.appointment),
                  BufferOf(m.appointment, x), TechnicianAfter(op, m.appointment))
    ensures d.appointment.startTime == RoundDownToSlot(op.startTime, x.slotIntervalMinutes, x.serverOffset)
  {
  }

  /** A move that wrote something: the row stands in the slot asked for, as long as asked for, for the technician asked
      for, with the buffer it had; everything else, lines included, is as before. */
  lemma MoveWrites(t: Tables, id: AppointmentId, loaded: Managed, req: Request, x: Surroundings, c: Clocks, t': Tables)
    requires req.operation.Move? && Mutate(t, id, loaded, req, x, c) == Ok(t') && t' != t
    ensures id in t.appointments && id in t'.appointments
    ensures Load(t', id).services == Load(t, id).services && Load(t', id).addOns == Load(t, id).addOns
    ensures var a, after, minutes := t.appointments[id], t'.appointments[id],
                                     MinutesAsked(req.operation, t.appointments[id]);
      && 15 <= minutes <= 480
      && LatestOnGrid(after.startTime, req.operation.startTime, x.slotIntervalMinutes, x.serverOffset)
      && Moved(a, after, minutes, BufferOf(a, x), TechnicianAfter(req.operation, a))
  {
    var p, technician, d := WrittenDraft(t, id, loaded, req, x, c);
    MoveDraft(Load(t, id), req.operation, p, technician, x, c.versionClock, d);
    PublishedRows(t, id, d);
    RoundsToLatest(req.operation.startTime, x.slotIntervalMinutes, x.serverOffset);
  }

  /** However a move succeeded, the row afterwards stands where it was wanted; it writes nothing exactly when the row
      stood there before. */
  lemma MoveSettles(t: Tables, id: AppointmentId, loaded: Managed, req: Request, x: Surroundings, c: Clocks, t': Tables)
    requires req.operation.Move? && Mutate(t, id, loaded, req, x, c) == Ok(t')
    ensures id in t.appointments && id in t'.appointments
    ensures var op, after := req.operation, t'.appointments[id];
      && LatestOnGrid(after.startTime, op.startTime, x.slotIntervalMinutes, x.serverOffset)
      && after.totalDurationMinutes == MinutesAsked(op, t.appointments[id])
      && (Names(op.technicianId) ==> after.technicianId == op.technicianId)
    ensures t' == t <==> StandsThere(t.appointments[id], req.operation, x)
  {
    RoundsToLatest(req.operation.startTime, x.slotIntervalMinutes, x.serverOffset);
    if t' != t {
      MoveWrites(t, id, loaded, req, x, c, t');
    }
    IdempotentIff(t.appointments[id], req.operation, x);
    if !IdempotentMove(t.appointments[id], req.operation, x) {
      WritesRaise(t, id, loaded, req, x, c);
    }
  }

  lemma IdempotentIff(a: Appointment, op: Operation, x: Surroundings)
    requires op.Move?
    ensures IdempotentMove(a, op, x) <==> StandsThere(a, op, x)
  {
    var start := RoundDownToSlot(op.startTime, x.slotIntervalMinutes, x.serverOffset);
    RoundsToLatest(op.startTime, x.slotIntervalMinutes, x.serverOffset);
    if StandsThere(a, op, x) {
      LatestIsUnique(a.startTime, start, op.startTime, x.slotIntervalMinutes, x.serverOffset);
    }
  }

  lemma WritesRaise(t: Tables, id: AppointmentId, loaded: Managed, req: Request, x: Surroundings, c: Clocks)
    requires Mutate(t, id, loaded, req, x, c).Ok? && id in t.appointments
    requires !IdempotentMove(t.appointments[id], req.operation, x)
    ensures Mutate(t, id, loaded, req, x, c).value != t
  {
    var p := MakePlan(Load(t, id), req.operation, x).value;
    var technician := ValidateSlot(t.appointments, id, p, x, c.guardNow).value;
    var d := Draft(Load(t, id), req.operation, p, technician, x, c.versionClock).value;
    PublishedRows(t, id, d);
    assert d.appointment.updatedAt > t.appointments[id].updatedAt;
  }

  /** The window of a row that a move or a service change wrote, with or without its stored blocked minutes. */
  lemma MovedWindow(a: Appointment, after: Appointment, minutes: int, buffer: nat, technician: Option<TechnicianId>)
    requires Moved(a, after, minutes, buffer, technician)
    ensures after.OccupiedUntil() == after.startTime + (minutes + buffer) * 60_000
    ensures after.(blockedDurationMinutes := None).OccupiedUntil() == after.OccupiedUntil()
    ensures after.(blockedDurationMinutes := None, bufferMinutes := None).OccupiedUntil() == after.endTime
  {
  }

  // ---- A reassignment ----

  /** A reassignment changes the technician and nothing else. */
  lemma ReassignWrites(t: Tables, id: AppointmentId, loaded: Managed, req: Request, x: Surroundings, c: Clocks,
                       t': Tables)
    requires req.operation.Reassign? && Mutate(t, id, loaded, req, x, c) == Ok(t')
    ensures id in t.appointments && id in t'.appointments
    ensures Load(t', id).services == Load(t, id).services && Load(t', id).addOns == Load(t, id).addOns
    ensures var a, after := t.appointments[id], t'.appointments[id];
      after == a.(technicianId := Some(req.operation.reassignTo), calendarPending := after.calendarPending,
                  updatedAt := after.updatedAt)
  {
    WritesRaise(t, id, loaded, req, x, c);
    var p, technician, d := WrittenDraft(t, id, loaded, req, x, c);
    PublishedRows(t, id, d);
  }

  // ---- Sums of lines ----

  /** A sum over lines is the sum of its parts, and of one line it is the line's own. */
  lemma {:induction false} ServicesAdd(s: seq<ServiceLine>, u: seq<ServiceLine>)
    ensures SumServices(s + u) == SumServices(s) + SumServices(u)
    ensures |s| == 1 ==> SumServices(s) == s[0].priceAtBooking
  {
    if s != [] {
      ServicesAdd(s[1..], u);
      assert (s + u)[1..] == s[1..] + u;
      assert |s| == 1 ==> s[1..] == [];
    } else {
      assert s + u == u;
    }
  }

  lemma {:induction false} AddOnsAdd(s: seq<AddOnLine>, u: seq<AddOnLine>)
    ensures SumAddOns(s + u) == SumAddOns(s) + SumAddOns(u)
    ensures SumAddOnMinutes(s + u) == SumAddOnMinutes(s) + SumAddOnMinutes(u)
    ensures |s| == 1 ==> SumAddOns(s) == s[0].lineTotalCents && SumAddOnMinutes(s) == s[0].lineDurationMinutes
  {
    if s != [] {
      AddOnsAdd(s[1..], u);
      assert (s + u)[1..] == s[1..] + u;
      assert |s| == 1 ==> s[1..] == [];
    } else {
      assert s + u == u;
    }
  }

  // ---- A service change ----

  predicate Allowed(line: AddOnLine, allowed: set<nat>) { line.addOnId.Some? && line.addOnId.value in allowed }

  /** How many of the first `n` lines are allowed. */
  function AllowedIn(lines: seq<AddOnLine>, allowed: set<nat>, n: nat): nat
    requires n <= |lines|
  {
    if n == 0 then 0 else AllowedIn(lines, allowed, n - 1) + (if Allowed(lines[n - 1], allowed) then 1 else 0)
  }

  /** `after` is, in order and identifiers aside, exactly the lines of `before` whose add-on is allowed. */
  ghost predicate KeepsAllowed(before: seq<AddOnLine>, after: seq<AddOnLine>, allowed: set<nat>) {
    && |after| == AllowedIn(before, allowed, |before|)
    && forall i: nat :: i < |before| && Allowed(before[i], allowed) ==>
         var k := AllowedIn(before, allowed, i);
         k < |after| && after[k] == before[i].(id := after[k].id)
  }

  lemma {:induction false} AllowedInRest(lines: seq<AddOnLine>, allowed: set<nat>, n: nat)
    requires n < |lines|
    ensures AllowedIn(lines, allowed, n + 1)
         == AllowedIn(lines[1..], allowed, n) + if Allowed(lines[0], allowed) then 1 else 0
  {
    if n > 0 {
      AllowedInRest(lines, allowed, n - 1);
      assert lines[1..][n - 1] == lines[n];
    } else {
      assert AllowedIn(lines, allowed, 0) == 0;
    }
  }

  lemma {:induction false} KeptAreAllowed(before: seq<AddOnLine>, allowed: set<nat>)
    ensures KeepsAllowed(before, KeptAddOns(before, allowed), allowed)
  {
    if before != [] {
      var rest, kept := before[1..], KeptAddOns(before, allowed);
      KeptAreAllowed(rest, allowed);
      AllowedInRest(before, allowed, |rest|);
      forall i: nat | i < |before| && Allowed(before[i], allowed)
        ensures AllowedIn(before, allowed, i) < |kept| && kept[AllowedIn(before, allowed, i)] == before[i]
      {
        KeptIsCopy(before, allowed, i);
      }
    }
  }

  lemma {:induction false} KeptIsCopy(before: seq<AddOnLine>, allowed: set<nat>, i: nat)
    requires i < |before| && Allowed(before[i], allowed)
    ensures var k := AllowedIn(before, allowed, i);
      k < |KeptAddOns(before, allowed)| && KeptAddOns(before, allowed)[k] == before[i]
  {
    if i > 0 {
      AllowedInRest(before, allowed, i - 1);
      KeptIsCopy(before[1..], allowed, i - 1);
    }
  }

  /** Reinserting copies the lines, sums included, under identifiers of their own. */
  lemma {:induction false} ReinsertedCopies(s: seq<AddOnLine>, firstFreshId: nat)
    ensures var r := Reinserted(s, firstFreshId);
      && |r| == |s| && (forall k :: 0 <= k < |s| ==> r[k] == s[k].(id := firstFreshId + k))
      && SumAddOns(r) == SumAddOns(s) && SumAddOnMinutes(r) == SumAddOnMinutes(s)
  {
    if s != [] {
      ReinsertedCopies(s[1..], firstFreshId + 1);
    }
  }

  /** The row's money: the subtotal is the lines added up, and its two parts are stored beside it. */
  ghost predicate Charged(after: Managed, discount: nat) {
    var a, base, addOns := after.appointment, SumServices(after.services), SumAddOns(after.addOns);
    && a.basePriceCents == Some(base) && a.addOnsPriceCents == Some(addOns)
    && a.subtotalBeforeDiscountCents == Some(base + addOns)
    && a.discountAmountCents == Some(discount)
    && a.totalPrice == if base + addOns < discount then 0 else base + addOns - discount
  }

  /** The row with the money of another. */
  function WithMoneyOf(r: Appointment, a: Appointment): Appointment {
    r.(totalPrice := a.totalPrice, basePriceCents := a.basePriceCents, addOnsPriceCents := a.addOnsPriceCents,
       subtotalBeforeDiscountCents := a.subtotalBeforeDiscountCents, discountAmountCents := a.discountAmountCents)
  }

  /** The discount carried over: what the row granted, or a quarter of the new subtotal for a first visit. */
  function DiscountAfter(m: Managed, subtotal: nat): nat {
    if m.appointment.discountType == Some(FirstVisit) then subtotal / 4
    else if CurrentSubtotal(m) < m.appointment.totalPrice then 0
    else CurrentSubtotal(m) - m.appointment.totalPrice
  }

  ghost predicate ServiceChanged(m: Managed, after: Managed, op: Operation, x: Surroundings)
    requires op.ChangeService?
  {
    && op.baseServiceId in x.catalog
    && var service := x.catalog[op.baseServiceId];
    && |after.services| == 1 && after.services[0].serviceId == op.baseServiceId
    && after.services[0].priceAtBooking == service.price
    && after.services[0].durationAtBooking == service.durationMinutes
    && KeepsAllowed(m.addOns, after.addOns, service.allowedAddOns)
    && (forall i, j :: 0 <= i < j < |after.addOns| ==> after.addOns[i].id != after.addOns[j].id)
    && var minutes := after.services[0].durationAtBooking + SumAddOnMinutes(after.addOns);
    && LatestOnGrid(after.appointment.startTime,
                    if op.newStart.Some? then op.newStart.value else m.appointment.startTime,
                    x.slotIntervalMinutes, x.serverOffset)
    && Moved(m.appointment, WithMoneyOf(after.appointment, m.appointment), minutes,
             BufferOf(m.appointment, x), TechnicianAfter(op, m.appointment))
    && Charged(after, DiscountAfter(m, SumServices(after.services) + SumAddOns(after.addOns)))
  }

  lemma ChangeDraft(m: Managed, op: Operation, p: Plan, technician: Option<TechnicianId>, x: Surroundings,
                    clock: Instant, d: Managed)
    requires op.ChangeService? && MakePlan(m, op, x) == Ok(p) && Draft(m, op, p, technician, x, clock) == Ok(d)
    requires technician == if Names(p.technicianId) then p.technicianId else None
    ensures ServiceChanged(m, d, op, x)
  {
    LinesDraft(m, op, p, technician, x, clock, d);
    RoundsToLatest(op.newStart.Or(m.appointment.startTime), x.slotIntervalMinutes, x.serverOffset);
    ChargedDraft(m, op, p, technician, x, clock, d);
  }

  lemma LinesDraft(m: Managed, op: Operation, p: Plan, technician: Option<TechnicianId>, x: Surroundings,
                   clock: Instant, d: Managed)
    requires op.ChangeService? && MakePlan(m, op, x) == Ok(p) && Draft(m, op, p, technician, x, clock) == Ok(d)
    ensures KeepsAllowed(m.addOns, d.addOns, x.catalog[op.baseServiceId].allowedAddOns)
    ensures forall i, j :: 0 <= i < j < |d.addOns| ==> d.addOns[i].id != d.addOns[j].id
  {
    var allowed := x.catalog[op.baseServiceId].allowedAddOns;
    KeptAreAllowed(m.addOns, allowed);
    ReinsertedCopies(KeptAddOns(m.addOns, allowed), x.firstFreshId + 1);
  }

  lemma ChargedDraft(m: Managed, op: Operation, p: Plan, technician: Option<TechnicianId>, x: Surroundings,
                     clock: Instant, d: Managed)
    requires op.ChangeService? && MakePlan(m, op, x) == Ok(p) && Draft(m, op, p, technician, x, clock) == Ok(d)
    requires technician == if Names(p.technicianId) then p.technicianId else None
    ensures |d.services| == 1
    ensures Moved(m.appointment, WithMoneyOf(d.appointment, m.appointment),
                  d.services[0].durationAtBooking + SumAddOnMinutes(d.addOns),
                  BufferOf(m.appointment, x), TechnicianAfter(op, m.appointment))
    ensures Charged(d, DiscountAfter(m, SumServices(d.services) + SumAddOns(d.addOns)))
  {
    ReinsertedCopies(KeptAddOns(m.addOns, x.catalog[op.baseServiceId].allowedAddOns), x.firstFreshId + 1);
    ServicesAdd(d.services, []);
  }

  /** A committed service change: one service line with the catalog's price and duration, the add-on lines that the
      service allows, a row as long as those lines, and a subtotal that is those lines added up. */
  lemma ServiceChangeWrites(t: Tables, id: AppointmentId, loaded: Managed, req: Request, x: Surroundings, c: Clocks,
                            t': Tables)
    requires req.operation.ChangeService? && Mutate(t, id, loaded, req, x, c) == Ok(t')
    ensures id in t.appointments && id in t'.appointments
    ensures ServiceChanged(Load(t, id), Load(t', id), req.operation, x)
  {
    WritesRaise(t, id, loaded, req, x, c);
    var p, technician, d := WrittenDraft(t, id, loaded, req, x, c);
    ChangeDraft(Load(t, id), req.operation, p, technician, x, c.versionClock, d);
    PublishedRows(t, id, d);
    PendingAside(Load(t, id), d, Load(t', id), req.operation, x);
  }

  /** The calendar flag does not matter. */
  lemma PendingAside(m: Managed, d: Managed, after: Managed, op: Operation, x: Surroundings)
    requires op.ChangeService? && ServiceChanged(m, d, op, x)
    requires after.services == d.services && after.addOns == d.addOns
    requires after.appointment == d.appointment.(calendarPending := after.appointment.calendarPending)
    ensures ServiceChanged(m, after, op, x)
  {
  }

  /** The three places a subtotal is read from agree on a row that a service change wrote: the stored subtotal, the
      stored parts, and the lines. */
  lemma SubtotalReadingsAgree(after: Managed, discount: nat)
    requires Charged(after, discount)
    ensures var a := after.appointment;
      && CurrentSubtotal(after) == SumServices(after.services) + SumAddOns(after.addOns)
      && CurrentSubtotal(after.(appointment := a.(subtotalBeforeDiscountCents := None))) == CurrentSubtotal(after)
      && CurrentSubtotal(after.(appointment := a.(subtotalBeforeDiscountCents := None, basePriceCents := None)))
         == SumAddOns(after.addOns)
      && CurrentSubtotal(after.(appointment := a.(subtotalBeforeDiscountCents := None, addOnsPriceCents := None)))
         == SumServices(after.services)
      && CurrentSubtotal(after.(appointment := a.(subtotalBeforeDiscountCents := None, basePriceCents := None,
                                                  addOnsPriceCents := None))) == CurrentSubtotal(after)
  {
  }
}
