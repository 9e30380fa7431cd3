/** A run in which a reminder mark makes two moves of an appointment share a revision. */
module HiddenRevision {
  import opened Wrappers
  import opened Blocking
  import opened Appointments
  import opened ManageSpec
  import opened ManageProtocol
  import opened ManageRuns

  /** A confirmed appointment without technician, last written at `updatedAt`. */
  function Unassigned(start: Instant, mark: Option<Instant>, pending: bool, updatedAt: Instant): Appointment {
    Appointment(Confirmed, None, start, start + 60 * MINUTE, 60, Some(0), Some(60), 0, None, None, None, None, None,
                None, false, false, None, mark, pending, updatedAt)
  }

  function OneRow(a: Appointment, outbox: seq<Intent>): Tables {
    Tables(true, map[1 := a], map[], map[], outbox, map[])
  }

  function MoveTo(start: Instant, loaded: Appointment): Entry {
    Mutated(1, Managed(loaded, [], []), Request(Move(start, None, None), true, None),
            Surroundings(15, 0, 0, {}, map[], true, true, 0), Clocks(1000, 1000), 1000)
  }

  ghost predicate Movable(a: Appointment, start: Instant) {
    && a == Unassigned(a.startTime, a.sameDayReminderSentAt, a.calendarPending, a.updatedAt)
    && start % (15 * MINUTE) == 0 && a.startTime != start && a.updatedAt <= 999
  }

  function Moved(start: Instant, a: Appointment): Managed {
    Managed(Unassigned(start, None, a.calendarPending, 1000), [], [])
  }

  lemma AlreadyRound(start: Instant)
    requires start % (15 * MINUTE) == 0
    ensures RoundDownToSlot(start, 15, 0) == start
  {
    assert start == 15 * MINUTE * (start / (15 * MINUTE));
  }

  lemma MoveSucceeds(start: Instant, a: Appointment, outbox: seq<Intent>)
    requires Movable(a, start)
    ensures Succeeds(OneRow(a, outbox), MoveTo(start, a), Plan(start, 60, 0, None, None, [], []), None, Moved(start, a))
  {
    AlreadyRound(start);
    assert Load(OneRow(a, outbox), 1) == Managed(a, [], []);
  }

  /** The table holds the appointment alone, nobody holds a lock, and the clock stands at 1000. */
  ghost predicate Between(s: State, a: Appointment, outbox: seq<Intent>) {
    && s.tables == OneRow(a, outbox) && s.clock == 1000
    && forall j, l :: j in s.txs ==> !Obstructs(s.txs[j], l)
  }

  /** The outbox after the move. */
  function AfterMove(outbox: seq<Intent>): seq<Intent> {
    if HasOrdinaryIntent(outbox, 1, 1000) then outbox else outbox + [Intent(1, true, Some(1000), IntentPending)]
  }

  /** A run that stands between two moves can be followed by a whole move. */
  lemma MoveRuns(states: seq<State>, actions: seq<Action>, i: nat, start: Instant, a: Appointment,
                 outbox: seq<Intent>) returns (states': seq<State>, actions': seq<Action>)
    requires Run(states, actions) && i !in states[|actions|].txs && Between(states[|actions|], a, outbox)
    requires Movable(a, start)
    ensures Run(states', actions') && states <= states'
    ensures var s, s' := states[|actions|], states'[|actions'|];
      && s'.log == s.log + [MoveTo(start, a)]
      && s'.txs == s.txs[i := Manage(1, MoveTo(start, a).loaded, MoveTo(start, a).req, Finished)]
      && Between(s', Unassigned(start, None, a.calendarPending || !HasOrdinaryIntent(outbox, 1, 1000), 1000),
                 AfterMove(outbox))
  {
    MoveSucceeds(start, a, outbox);
    MovePublishes(start, a, outbox);
    states', actions' := MutationRuns(states, actions, i, MoveTo(start, a), Plan(start, 60, 0, None, None, [], []),
                                      None, Moved(start, a));
  }

  lemma MovePublishes(start: Instant, a: Appointment, outbox: seq<Intent>)
    ensures Publish(OneRow(a, outbox), 1, Moved(start, a))
         == OneRow(Unassigned(start, None, a.calendarPending || !HasOrdinaryIntent(outbox, 1, 1000), 1000),
                   AfterMove(outbox))
  {
    assert map[1 := a][1 := Moved(start, a).appointment] == map[1 := Moved(start, a).appointment];
  }

  // ---- The run ----

  function FirstIntent(): (intents: seq<Intent>)
    ensures AfterMove([]) == intents && AfterMove(intents) == intents
  {
    assert [] + [Intent(1, true, Some(1000), IntentPending)] == [Intent(1, true, Some(1000), IntentPending)];
    assert [Intent(1, true, Some(1000), IntentPending)][0].version == Some(1000);
    [Intent(1, true, Some(1000), IntentPending)]
  }

  /** The mark of a pass that began at 999. */
  lemma MarkRuns(states: seq<State>, actions: seq<Action>, start: Instant)
    returns (states': seq<State>, actions': seq<Action>)
    requires Run(states, actions)
    requires Between(states[|actions|], Unassigned(start, None, true, 1000), FirstIntent())
    ensures Run(states', actions') && states <= states'
    ensures var s, s', row := states[|actions|], states'[|actions'|], Unassigned(start, Some(999), true, 999);
      s'.log == s.log + [Touched(1, row)] && s'.txs == s.txs && Between(s', row, FirstIntent())
  {
    var s, row := states[|actions|], Unassigned(start, Some(999), true, 999);
    assert map[1 := Unassigned(start, None, true, 1000)][1 := row] == map[1 := row];
    var s' := State(OneRow(row, FirstIntent()), 1000, s.txs, s.log + [Touched(1, row)]);
    assert Next(s, Touch(1, row), s');
    Extended(states, actions, Touch(1, row), s');
    states', actions' := states + [s'], actions + [Touch(1, row)];
  }

  /** A pass that began one millisecond before a move marks the row after it, and the next move repeats the revision:
      the outbox stays as it is and nothing announces the second move. */
  lemma MarkCanHideRevision() returns (states: seq<State>, actions: seq<Action>, n: nat)
    ensures Run(states, actions) && n < |states|
    ensures var before, after := states[n], states[|actions|];
      && |before.log| == 2 && before.log <= after.log && |after.log| == 3
      && after.log[0].Mutated? && after.log[1].Touched? && after.log[2].Mutated?
      && after.log[0].id == after.log[1].touchedId == after.log[2].id
      && after.log[0].version == after.log[2].version
      && after.tables.outbox == before.tables.outbox
      && 1 in before.tables.appointments && 1 in after.tables.appointments && after.log[2].id == 1
      && before.tables.appointments[1].startTime != after.tables.appointments[1].startTime
  {
    var first, second := 15 * MINUTE, 30 * MINUTE;
    var a0, a2, intents := Unassigned(0, None, false, 0), Unassigned(first, Some(999), true, 999), FirstIntent();
    states, actions := [State(OneRow(a0, []), 1000, map[], [])], [];
    states, actions := MoveRuns(states, actions, 0, first, a0, []);
    assert Between(states[|actions|], Unassigned(first, None, true, 1000), intents);
    states, actions := MarkRuns(states, actions, first);
    n := |actions|;
    var marked := states[n];
    states, actions := MoveRuns(states, actions, 1, second, a2, intents);
    assert states[n] == marked;
    assert Between(states[|actions|], Unassigned(second, None, true, 1000), intents);
  }
}
