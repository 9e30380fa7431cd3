/** The search for the next free slot, and where a move to it lands. */
module NextAvailable {
  import opened Wrappers
  import opened Blocking
  import opened Appointments
  import opened ManageSpec

  const SEARCH_DAYS_AHEAD := 14
  const VISIBLE_START_HOUR := 8
  const VISIBLE_END_HOUR := 20
  const DAY := 1440 * MINUTE

  /** A time of day, in minutes, that the visible grid offers. */
  predicate IsSlot(v: int, interval: Interval) {
    && VISIBLE_START_HOUR * 60 <= v <= VISIBLE_END_HOUR * 60
    && v % 60 % interval == 0
  }

  ghost predicate Ascending(s: seq<int>) {
    forall i, j :: 0 <= i < j < |s| ==> s[i] < s[j]
  }

  lemma NonNegativeProduct(a: nat, b: nat)
    ensures 0 <= a * b
  {
  }

  lemma ProductsClimb(a: int, b: int, d: Interval)
    ensures a < b ==> a * d + d <= b * d
  {
    if a < b {
      NonNegativeProduct(b - a - 1, d);
      assert b * d == a * d + (b - a - 1) * d + d;
    }
  }

  lemma QuotientIsUnique(k: int, d: Interval, q: int)
    requires q * d <= k < q * d + d
    ensures k / d == q && k % d == k - q * d
  {
    ProductsClimb(k / d, q, d);
    ProductsClimb(q, k / d, d);
  }

  lemma MultiplesStepByInterval(m: nat, k: nat, interval: Interval)
    requires m % interval == 0
    ensures m < k < m + interval ==> k % interval != 0
    ensures (m + interval) % interval == 0
  {
    var q := m / interval;
    assert m == q * interval;
    if m < k < m + interval {
      QuotientIsUnique(k, interval, q);
    }
    assert (q + 1) * interval == m + interval;
    QuotientIsUnique(m + interval, interval, q + 1);
  }

  /** From eight in the morning to eight in the evening, every interval that divides the hour has its slot, and there is
      none between two of them or outside these hours. */
  lemma SlotsAreEven(v: int, interval: Interval)
    requires interval in {5, 10, 15, 30}
    ensures IsSlot(480, interval) && IsSlot(1200, interval)
    ensures IsSlot(v, interval) ==> 480 <= v <= 1200 && (v < 1200 ==> IsSlot(v + interval, interval))
    ensures IsSlot(v, interval) ==> forall w :: v < w < v + interval ==> !IsSlot(w, interval)
  {
    if IsSlot(v, interval) {
      SlotStep(v, interval);
      forall w | v < w < v + interval
        ensures !IsSlot(w, interval)
      {
        IntervalArithmetic(w, 0, interval);
        IntervalArithmetic(v, w - v, interval);
      }
    }
  }

  lemma SlotStep(v: int, interval: Interval)
    requires interval in {5, 10, 15, 30} && IsSlot(v, interval)
    ensures v < 1200 ==> IsSlot(v + interval, interval)
  {
    IntervalArithmetic(v, interval, interval);
    IntervalArithmetic(v + interval, 0, interval);
    IntervalArithmetic(1200, 0, interval);
    if v < 1200 < v + interval {
      IntervalArithmetic(v, 1200 - v, interval);
    }
  }

  /** One more minute of the grid covers the slot at that minute and none between it and the next. */
  lemma GridStep(v: int, hour: int, minute: nat, interval: Interval)
    requires VISIBLE_START_HOUR <= hour <= VISIBLE_END_HOUR && minute < 60 && minute % interval == 0
    ensures IsSlot(v, interval) && v < hour * 60 + minute + interval && v < (hour + 1) * 60
        <==> (|| (IsSlot(v, interval) && v < hour * 60 + minute)
              || (v == hour * 60 + minute && !(hour == VISIBLE_END_HOUR && minute > 0)))
  {
    if hour * 60 <= v < (hour + 1) * 60 {
      assert v % 60 == v - hour * 60;
      MultiplesStepByInterval(minute, v - hour * 60, interval);
    }
  }

  /** The grid of a day: exactly the visible slots, in order. */
  method GetAllSlots(interval: Interval) returns (slots: seq<int>)
    ensures Ascending(slots)
    ensures forall v :: v in slots <==> IsSlot(v, interval)
  {
    slots := [];
    for hour := VISIBLE_START_HOUR to VISIBLE_END_HOUR + 1
      invariant Ascending(slots)
      invariant forall v :: v in slots <==> IsSlot(v, interval) && v < hour * 60
    {
      var minute := 0;
      while minute < 60
        invariant 0 <= minute && minute % interval == 0
        invariant Ascending(slots)
        invariant forall v :: v in slots <==> IsSlot(v, interval) && v < hour * 60 + minute && v < (hour + 1) * 60
        decreases 60 - minute
      {
        forall v
          ensures IsSlot(v, interval) && v < hour * 60 + minute + interval && v < (hour + 1) * 60
              <==> v in slots || (v == hour * 60 + minute && !(hour == VISIBLE_END_HOUR && minute > 0))
        {
          GridStep(v, hour, minute, interval);
        }
        MultiplesStepByInterval(minute, 0, interval);
        assert forall k :: 0 <= k < |slots| ==> slots[k] in slots && slots[k] < hour * 60 + minute;
        if !(hour == VISIBLE_END_HOUR && minute > 0) {
          slots := slots + [hour * 60 + minute];
        }
        minute := minute + interval;
      }
    }
  }

  /** What the search consults: the calendar day of each offset, the conversion of a local time to an instant, and
      the schedule policy's verdict on a start. */
  datatype Surface = Surface(dayKey: nat -> int, toUtc: (int, int) -> Instant, accepts: Instant -> bool)

  predicate IsVisible(v: int) { VISIBLE_START_HOUR * 60 <= v <= VISIBLE_END_HOUR * 60 }

  /** Days advance with the offset, and the conversion preserves the order of the visible local times. */
  ghost predicate OrderPreserving(s: Surface) {
    && (forall o: nat, p: nat :: o < p ==> s.dayKey(o) < s.dayKey(p))
    && (forall k, v, l, w :: IsVisible(v) && IsVisible(w) && (k < l || (k == l && v < w)) ==>
        s.toUtc(k, v) < s.toUtc(l, w))
  }

  /** The slot `v` of the day at offset `o`. */
  function At(s: Surface, o: nat, v: int): Instant { s.toUtc(s.dayKey(o), v) }

  ghost predicate Candidate(s: Surface, interval: Interval, searchStart: Instant, o: nat, v: int) {
    o < 14 && IsSlot(v, interval) && At(s, o, v) > searchStart
  }

  /** The first accepted slot after the search start within the search days, or none when none is accepted. */
  method FindNextAvailableStart(current: Instant, interval: Interval, s: Surface) returns (found: Option<Instant>)
    requires OrderPreserving(s)
    ensures var searchStart := current + interval * MINUTE;
      match found
      case Some(t) =>
        && s.accepts(t)
        && (exists o: nat, v :: Candidate(s, interval, searchStart, o, v) && At(s, o, v) == t)
        && (forall o: nat, v :: Candidate(s, interval, searchStart, o, v) && At(s, o, v) < t ==>
            !s.accepts(At(s, o, v)))
      case None => forall o: nat, v :: Candidate(s, interval, searchStart, o, v) ==> !s.accepts(At(s, o, v))
  {
    var slots := GetAllSlots(interval);
    var searchStart := current + interval * MINUTE;
    for offset := 0 to SEARCH_DAYS_AHEAD
      invariant forall o: nat, v :: o < offset && Candidate(s, interval, searchStart, o, v) ==> !s.accepts(At(s, o, v))
    {
      for i := 0 to |slots|
        invariant forall v :: v in slots[..i] && Candidate(s, interval, searchStart, offset, v) ==>
                    !s.accepts(At(s, offset, v))
      {
        var start := s.toUtc(s.dayKey(offset), slots[i]);
        if start > searchStart && s.accepts(start) {
          assert slots[i] in slots;
          assert Candidate(s, interval, searchStart, offset, slots[i]) && At(s, offset, slots[i]) == start;
          forall o: nat, v | Candidate(s, interval, searchStart, o, v) && At(s, o, v) < start
            ensures !s.accepts(At(s, o, v))
          {
            if o == offset {
              assert v in slots && v < slots[i];
              var j :| 0 <= j < |slots| && slots[j] == v;
              assert j < i && slots[..i][j] == v;
            } else {
              assert o < offset;
            }
          }
          return Some(start);
        }
        assert slots[..i + 1] == slots[..i] + [slots[i]];
      }
      assert slots[..|slots|] == slots;
    }
    return None;
  }

  /** Local time whose distance from UTC, in minutes, is that in force during the visible hours of the day. */
  function ZoneByDay(firstDay: int, offset: int -> int, accepts: Instant -> bool): Surface {
    Surface((o: nat) => firstDay + o, (k: int, v: int) => (k * 1440 + v - offset(k)) * MINUTE, accepts)
  }

  /** The visible hours stay in order when clocks change overnight, by less than twelve hours in all. */
  lemma VisibleHoursAreOrdered(firstDay: int, offset: int -> int, accepts: Instant -> bool)
    requires forall k, l :: offset(l) - offset(k) < 720
    ensures OrderPreserving(ZoneByDay(firstDay, offset, accepts))
  {
    var s := ZoneByDay(firstDay, offset, accepts);
    forall k, v, l, w | IsVisible(v) && IsVisible(w) && (k < l || (k == l && v < w))
      ensures s.toUtc(k, v) < s.toUtc(l, w)
    {
      assert k < l ==> offset(l) - offset(k) < 720;
      assert k * 1440 + v - offset(k) < l * 1440 + w - offset(l);
    }
  }

  /** The minute of the hour leaves the same remainder as the minute itself, for intervals that divide the hour. */
  lemma HourRemainder(minutes: int, interval: Interval, parts: nat)
    requires parts * interval == 60
    ensures minutes % 60 % interval == minutes % interval
  {
    var hours, minute := minutes / 60, minutes % 60;
    var q := minute / interval;
    assert (hours * parts) * interval == hours * (parts * interval) == 60 * hours;
    assert (hours * parts + q) * interval == (hours * parts) * interval + q * interval;
    QuotientIsUnique(minutes, interval, hours * parts + q);
  }

  lemma ShiftedRemainder(minutes: int, shift: int, interval: Interval)
    requires minutes % interval == 0
    ensures (minutes + shift) % interval == shift % interval
  {
    var p, q := minutes / interval, shift / interval;
    assert (p + q) * interval == p * interval + q * interval;
    QuotientIsUnique(minutes + shift, interval, p + q);
  }

  /** The supported intervals divide the hour. */
  lemma IntervalArithmetic(minutes: int, shift: int, interval: Interval)
    requires interval in {5, 10, 15, 30}
    ensures minutes % 60 % interval == minutes % interval
    ensures minutes % interval == 0 ==> (minutes + shift) % interval == shift % interval
  {
    var parts := if interval == 5 then 12 else if interval == 10 then 6 else if interval == 15 then 4 else 2;
    HourRemainder(minutes, interval, parts);
    if minutes % interval == 0 {
      ShiftedRemainder(minutes, shift, interval);
    }
  }

  /** Rounding an instant on a whole minute takes away the remainder of its server minute. */
  lemma RoundingOfWholeMinute(minutes: int, interval: Interval, serverMinutes: int)
    requires interval in {5, 10, 15, 30}
    ensures RoundDownToSlot(minutes * MINUTE, interval, serverMinutes * MINUTE)
         == minutes * MINUTE - (minutes + serverMinutes) % interval * MINUTE
  {
    var server := minutes + serverMinutes;
    assert minutes * MINUTE + serverMinutes * MINUTE == server * MINUTE;
    QuotientIsUnique(server * MINUTE, MINUTE, server);
    IntervalArithmetic(server, 0, interval);
  }

  /** A slot is a multiple of the interval, counted from the first day. */
  lemma SlotIsMultiple(k: int, v: int, interval: Interval)
    requires interval in {5, 10, 15, 30} && IsSlot(v, interval)
    ensures (k * 1440 + v) % interval == 0
  {
    IntervalArithmetic(v, 0, interval);
    IntervalArithmetic(k * 1440 + v, 0, interval);
    QuotientIsUnique(k * 1440 + v, 60, k * 24 + v / 60);
  }

  /** A move to the slot `v` of day `k` lands exactly on it when the distance then between the server's zone and the
      salon's is a multiple of the interval, and only then; otherwise it lands earlier, by less than one interval. */
  lemma MoveLandsWhereSearchedIff(m: Managed, x: Surroundings, firstDay: int, offset: int -> int,
                                  accepts: Instant -> bool,
                                  k: int, v: int, serverMinutes: int)
    requires x.slotIntervalMinutes in {5, 10, 15, 30} && IsSlot(v, x.slotIntervalMinutes)
    requires x.serverOffset == serverMinutes * MINUTE
    requires 15 <= m.appointment.totalDurationMinutes <= 480
    ensures var t := ZoneByDay(firstDay, offset, accepts).toUtc(k, v);
      var plan := MakePlan(m, Move(t, None, None), x);
      && plan.Ok?
      && t - x.slotIntervalMinutes * MINUTE < plan.value.startTime <= t
      && (plan.value.startTime == t <==> (serverMinutes - offset(k)) % x.slotIntervalMinutes == 0)
  {
    var interval, minutes := x.slotIntervalMinutes, k * 1440 + v - offset(k);
    RoundingOfWholeMinute(minutes, interval, serverMinutes);
    SlotIsMultiple(k, v, interval);
    ShiftedRemainder(k * 1440 + v, serverMinutes - offset(k), interval);
    assert minutes + serverMinutes == k * 1440 + v + (serverMinutes - offset(k));
    PlanStart(m, minutes * MINUTE, x);
  }

  lemma PlanStart(m: Managed, t: Instant, x: Surroundings)
    requires 15 <= m.appointment.totalDurationMinutes <= 480
    ensures var plan := MakePlan(m, Move(t, None, None), x);
      plan.Ok? && plan.value.startTime == RoundDownToSlot(t, x.slotIntervalMinutes, x.serverOffset)
  {
  }
}
