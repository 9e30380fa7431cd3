/** What every step of the reminder protocol keeps, and what it means for customers. */
module ReminderSafety {
  import opened Wrappers
  import opened ReminderProtocol

  // ---- How the log facts grow ----

  predicate IsAcceptance(e: Event, key: Key) { e.Dispatched? && e.key == key && e.answer == Accepted }

  lemma AcceptedGrows(log: seq<Event>, e: Event, key: Key)
    ensures WasAccepted(log + [e], key) <==> WasAccepted(log, key) || IsAcceptance(e, key)
  {
    var longer := log + [e];
    if WasAccepted(log, key) {
      var i: nat :| DispatchAt(log, i, key) && log[i].answer == Accepted;
      assert DispatchAt(longer, i, key);
    }
    if IsAcceptance(e, key) {
      assert DispatchAt(longer, |log|, key);
    }
    if WasAccepted(longer, key) && !IsAcceptance(e, key) {
      var i: nat :| DispatchAt(longer, i, key) && longer[i].answer == Accepted;
      assert DispatchAt(log, i, key);
    }
  }

  lemma ClearedGrows(log: seq<Event>, e: Event, key: Key)
    requires Cleared(log, key) || (e == Recorded(key, true) && RetryAllowed(log, key))
    requires !(e.Dispatched? && e.key == key)
    ensures Cleared(log + [e], key)
  {
    var longer := log + [e];
    forall i: nat | DispatchAt(longer, i, key)
      ensures MayRetry(key, longer[i].answer, longer[i].recorded) && exists m: nat :: i < m && RetryAt(longer, m, key)
    {
      assert DispatchAt(log, i, key);
      if e == Recorded(key, true) {
        assert RetryAt(longer, |log|, key);
      } else {
        var m: nat :| i < m && RetryAt(log, m, key);
        assert RetryAt(longer, m, key);
      }
    }
  }

  lemma SpacedGrows(log: seq<Event>, e: Event, key: Key)
    requires Spaced(log, key)
    requires e.Dispatched? && e.key == key ==> Cleared(log, key)
    ensures Spaced(log + [e], key)
  {
    var longer := log + [e];
    forall i: nat, j: nat | i < j && DispatchAt(longer, i, key) && DispatchAt(longer, j, key)
      ensures MayRetry(key, longer[i].answer, longer[i].recorded)
      ensures exists m: nat :: i < m < j && RetryAt(longer, m, key)
    {
      assert DispatchAt(log, i, key);
      if j < |log| {
        assert DispatchAt(log, j, key);
        var m: nat :| i < m < j && RetryAt(log, m, key);
        assert RetryAt(longer, m, key);
      } else {
        var m: nat :| i < m && RetryAt(log, m, key);
        assert RetryAt(longer, m, key);
      }
    }
  }

  // ---- The invariant on delivery rows ----

  ghost predicate OneHolder(s: State) {
    forall w, w' :: w in s.workers && w' in s.workers ==>
      forall key :: Holds(s.workers[w], key) && Holds(s.workers[w'], key) ==> w == w'
  }

  type Rows = map<Key, Delivery>

  /** What a worker that holds a row knows about it. */
  ghost predicate HolderKnows(log: seq<Event>, rows: Rows, p: Phase) {
    (p.Claimed? || p.Superseded? || p.Validated? || p.Answered?) ==>
      && p.key in rows && rows[p.key].status == Queued
      && (p.Answered? && p.answer == Accepted <==> WasAccepted(log, p.key))
      && (!p.Answered? ==> Cleared(log, p.key))
      && (p.Answered? && MayRetry(p.key, p.answer, p.recorded) ==> RetryAllowed(log, p.key))
  }

  /** The delivery row tells the truth about the provider. */
  ghost predicate RowTruth(log: seq<Event>, rows: Rows, key: Key) {
    && Spaced(log, key)
    && (key !in rows ==> Cleared(log, key) && !WasAccepted(log, key))
    && (key in rows ==>
          && (rows[key].status == Sent ==> WasAccepted(log, key))
          && (rows[key].status == Failed ==> !WasAccepted(log, key))
          && (rows[key] == Delivery(Failed, true) ==> Cleared(log, key)))
  }

  predicate HasTurn(p: Phase, channel: Channel) {
    (p.Claiming? || p.Conflicted? || p.Refused? || p.Claimed? || p.Validated? || p.Answered?) &&
        p.key.channel == channel
  }

  /** A channel that a worker will report did take the message. */
  ghost predicate ReportIsTrue(log: seq<Event>, p: Phase) {
    && (HasTurn(p, Sms) && p.emailed ==> WasAccepted(log, Key(Email, p.key.kind, p.key.start)))
    && (p.SmsTurn? && p.emailed ==> WasAccepted(log, Key(Email, p.kind, p.start)))
    && (p.Marking? ==> WasAccepted(log, Key(p.channel, p.kind, p.start)))
  }

  ghost predicate WorkersOk(log: seq<Event>, rows: Rows, workers: map<WorkerId, Phase>) {
    forall w :: w in workers ==> HolderKnows(log, rows, workers[w]) && ReportIsTrue(log, workers[w])
  }

  ghost predicate RowsOk(log: seq<Event>, rows: Rows) {
    forall key :: RowTruth(log, rows, key)
  }

  ghost predicate DeliveryInv(s: State) {
    OneHolder(s) && WorkersOk(s.log, s.deliveries, s.workers) && RowsOk(s.log, s.deliveries)
  }

  /** A log entry that is no dispatch disturbs nobody. */
  lemma QuietEntry(s: State, e: Event)
    requires DeliveryInv(s) && !e.Dispatched?
    ensures DeliveryInv(s.(log := s.log + [e]))
    ensures forall key :: WasAccepted(s.log + [e], key) <==> WasAccepted(s.log, key)
  {
    var log' := s.log + [e];
    forall key ensures WasAccepted(log', key) <==> WasAccepted(s.log, key) {
      AcceptedGrows(s.log, e, key);
    }
    forall key ensures RowTruth(log', s.deliveries, key) {
      assert RowTruth(s.log, s.deliveries, key);
      if Cleared(s.log, key) {
        ClearedGrows(s.log, e, key);
      }
      SpacedGrows(s.log, e, key);
    }
    forall w | w in s.workers
      ensures HolderKnows(log', s.deliveries, s.workers[w]) && ReportIsTrue(log', s.workers[w])
    {
      var p := s.workers[w];
      if p.Claimed? || p.Superseded? || p.Validated? {
        ClearedGrows(s.log, e, p.key);
      }
    }
  }

  lemma LeaveKeeps(s: State, w: WorkerId)
    requires DeliveryInv(s)
    ensures DeliveryInv(Leaves(s, w))
  {
  }

  /** Claiming a row that nobody holds and whose dispatches are all cleared. */
  lemma ClaimKeeps(s: State, w: WorkerId, key: Key, emailed: bool)
    requires DeliveryInv(s)
    requires key !in s.deliveries || s.deliveries[key] == Delivery(Failed, true)
    requires ReportIsTrue(s.log, Claimed(key, emailed))
    ensures DeliveryInv(Becomes(s.(deliveries := s.deliveries[key := Delivery(Queued, false)]), w,
              Claimed(key, emailed)))
  {
    var rows' := s.deliveries[key := Delivery(Queued, false)];
    assert RowTruth(s.log, s.deliveries, key);
    assert forall v :: v in s.workers ==> HolderKnows(s.log, s.deliveries, s.workers[v]) && !Holds(s.workers[v], key);
    forall k ensures RowTruth(s.log, rows', k) {
      assert RowTruth(s.log, s.deliveries, k);
    }
  }

  /** Letting go of a row while recording its outcome. */
  lemma FinishKeeps(s: State, w: WorkerId, key: Key, d: Delivery)
    requires DeliveryInv(s) && w in s.workers && Holds(s.workers[w], key)
    requires d.status == (if WasAccepted(s.log, key) then Sent else Failed)
    requires d == Delivery(Failed, true) ==> RetryAllowed(s.log, key)
    ensures DeliveryInv(FinishRow(Leaves(s, w), key, d))
    ensures forall k :: WasAccepted(FinishRow(Leaves(s, w), key, d).log, k) <==> WasAccepted(s.log, k)
  {
    var left := Leaves(s, w);
    var e := Recorded(key, d.status == Failed && d.retryable);
    var log', rows' := s.log + [e], s.deliveries[key := d];
    assert HolderKnows(s.log, s.deliveries, s.workers[w]);
    assert forall v :: v in left.workers ==> !Holds(left.workers[v], key);
    QuietEntry(left, e);
    if d == Delivery(Failed, true) {
      ClearedGrows(s.log, e, key);
    }
    forall k ensures RowTruth(log', rows', k) {
      assert RowTruth(log', s.deliveries, k);
    }
    forall v | v in left.workers
      ensures HolderKnows(log', rows', left.workers[v])
    {
      assert HolderKnows(log', s.deliveries, left.workers[v]);
    }
  }

  /** The provider call of the worker that holds the row. */
  lemma DispatchKeeps(s: State, w: WorkerId, key: Key, emailed: bool, answer: Answer, anyway: bool, recorded: bool)
    requires DeliveryInv(s) && w in s.workers && s.workers[w] == Validated(key, emailed)
    ensures DeliveryInv(Becomes(s.(log := s.log + [Dispatched(key, answer, anyway, recorded)]), w,
                                Answered(key, emailed, answer, recorded)))
  {
    var e := Dispatched(key, answer, anyway, recorded);
    var log' := s.log + [e];
    assert HolderKnows(s.log, s.deliveries, s.workers[w]) && ReportIsTrue(s.log, s.workers[w]);
    forall k ensures WasAccepted(log', k) <==> WasAccepted(s.log, k) || IsAcceptance(e, k) {
      AcceptedGrows(s.log, e, k);
    }
    forall k ensures RowTruth(log', s.deliveries, k) {
      assert RowTruth(s.log, s.deliveries, k);
      SpacedGrows(s.log, e, k);
      if k != key && Cleared(s.log, k) {
        ClearedGrows(s.log, e, k);
      }
    }
    forall v | v in s.workers && v != w
      ensures HolderKnows(log', s.deliveries, s.workers[v]) && ReportIsTrue(log', s.workers[v])
    {
      var p := s.workers[v];
      assert HolderKnows(s.log, s.deliveries, p) && ReportIsTrue(s.log, p) && !Holds(p, key);
      if p.Claimed? || p.Superseded? || p.Validated? {
        ClearedGrows(s.log, e, p.key);
      }
    }
  }

  // ---- The invariant on marks ----

  ghost predicate MarkTruth(log: seq<Event>, a: Appointment, kind: Kind) {
    && MarksSpaced(log, kind)
    && (MarkOf(a, kind).None? ==> MovedOn(log, kind))
    && (MarkOf(a, kind).Some? ==> MarkStands(log, kind, a.start, MarkOf(a, kind).value.channel))
  }

  ghost predicate MarkInv(s: State) {
    MarksBacked(s.log) && MarkTruth(s.log, s.appt, DayBefore) && MarkTruth(s.log, s.appt, SameDay)
  }

  /** An entry that neither marks the kind nor, unless the marks are cleared, moves the appointment. */
  lemma MarkTruthGrows(log: seq<Event>, e: Event, a: Appointment, a': Appointment, kind: Kind)
    requires MarkTruth(log, a, kind)
    requires !(e.Marked? && e.kind == kind)
    requires e.Moved? ==> MarkOf(a', kind).None?
    requires !e.Moved? ==> MarkOf(a', kind) == MarkOf(a, kind) && a'.start == a.start
    ensures MarkTruth(log + [e], a', kind)
  {
    var longer := log + [e];
    assert forall i: nat :: MarkAt(longer, i, kind) ==> MarkAt(log, i, kind);
    assert forall m: nat :: MoveAt(log, m) ==> MoveAt(longer, m);
    assert e.Moved? ==> MoveAt(longer, |log|);
    if MarkOf(a', kind).Some? {
      var i: nat :| MarkAt(log, i, kind) && log[i] == Marked(kind, a.start, MarkOf(a, kind).value.channel)
                    && forall m: nat :: i < m ==> !MoveAt(log, m);
      assert MarkAt(longer, i, kind);
      assert forall m: nat :: MoveAt(longer, m) ==> MoveAt(log, m);
    }
  }

  /** The mark itself, set on an appointment that has none. */
  lemma MarkTruthMarked(log: seq<Event>, a: Appointment, kind: Kind, m: Mark)
    requires MarkTruth(log, a, kind) && MarkOf(a, kind).None?
    ensures MarkTruth(log + [Marked(kind, a.start, m.channel)], WithMark(a, kind, m), kind)
  {
    var longer := log + [Marked(kind, a.start, m.channel)];
    assert MarkAt(longer, |log|, kind);
    forall i: nat, j: nat | i < j && MarkAt(longer, i, kind) && MarkAt(longer, j, kind)
      ensures exists k: nat :: i < k < j && MoveAt(longer, k)
    {
      assert MarkAt(log, i, kind);
      if j < |log| {
        assert MarkAt(log, j, kind);
        var k: nat :| i < k < j && MoveAt(log, k);
        assert MoveAt(longer, k);
      } else {
        var k: nat :| i < k && MoveAt(log, k);
        assert MoveAt(longer, k);
      }
    }
  }

  lemma MarksBackedGrows(log: seq<Event>, e: Event)
    requires MarksBacked(log)
    requires e.Marked? ==> WasAccepted(log, Key(e.channel, e.kind, e.start))
    ensures MarksBacked(log + [e])
  {
    var longer := log + [e];
    forall j: nat | j < |longer| && longer[j].Marked?
      ensures WasAccepted(longer[..j], Key(longer[j].channel, longer[j].kind, longer[j].start))
    {
      assert longer[..j] == log[..j];
      assert log[..|log|] == log;
    }
  }

  lemma QuietMarks(s: State, e: Event)
    requires MarkInv(s) && !e.Marked? && !e.Moved?
    ensures MarkInv(s.(log := s.log + [e]))
  {
    MarksBackedGrows(s.log, e);
    MarkTruthGrows(s.log, e, s.appt, s.appt, DayBefore);
    MarkTruthGrows(s.log, e, s.appt, s.appt, SameDay);
  }

  // ---- Every step keeps the invariant ----

  ghost predicate Inv(s: State) { DeliveryInv(s) && MarkInv(s) }

  lemma MoveKeeps(s: State, start: int)
    requires Inv(s)
    ensures Inv(Step(s, Move(start)))
  {
    if start != s.appt.start {
      var e, a' := Moved(start), Appointment(start, s.appt.eligible, None, None);
      QuietEntry(s, e);
      MarksBackedGrows(s.log, e);
      MarkTruthGrows(s.log, e, s.appt, a', DayBefore);
      MarkTruthGrows(s.log, e, s.appt, a', SameDay);
    }
  }

  lemma MarkStepKeeps(s: State, w: WorkerId, now: int)
    requires Inv(s) && w in s.workers && s.workers[w].Marking?
    ensures Inv(Step(s, MarkSent(w, now)))
  {
    var p := s.workers[w];
    var left := Leaves(s, w);
    LeaveKeeps(s, w);
    if s.appt.eligible && s.appt.start == p.start && MarkOf(s.appt, p.kind).None? {
      var e, m := Marked(p.kind, p.start, p.channel), Mark(p.channel, now);
      var a' := WithMark(s.appt, p.kind, m);
      QuietEntry(left, e);
      MarksBackedGrows(s.log, e);
      MarkTruthMarked(s.log, s.appt, p.kind, m);
      var other := if p.kind == DayBefore then SameDay else DayBefore;
      MarkTruthGrows(s.log, e, s.appt, a', other);
    }
  }

  /** The end of a turn on a key, for a worker that holds nothing any more. */
  lemma TurnOverKeeps(s: State, w: WorkerId, key: Key, emailed: bool, sent: bool)
    requires Inv(s)
    requires sent ==> WasAccepted(s.log, key)
    requires key.channel == Sms && emailed ==> WasAccepted(s.log, Key(Email, key.kind, key.start))
    ensures Inv(TurnOver(s, w, key, emailed, sent))
  {
    if key.channel == Email {
      assert key == Key(Email, key.kind, key.start);
    } else {
      assert key == Key(Sms, key.kind, key.start);
      ReportKeeps(s, w, key, emailed, sent);
    }
  }

  lemma ReportKeeps(s: State, w: WorkerId, key: Key, emailed: bool, sms: bool)
    requires Inv(s)
    requires sms ==> WasAccepted(s.log, Key(Sms, key.kind, key.start))
    requires emailed ==> WasAccepted(s.log, Key(Email, key.kind, key.start))
    ensures Inv(Report(s, w, key, emailed, sms))
  {
  }

  /** Recording an outcome and ending the turn. */
  lemma RecordKeeps(s: State, w: WorkerId, key: Key, d: Delivery, emailed: bool)
    requires Inv(s) && w in s.workers && Holds(s.workers[w], key)
    requires d.status == (if WasAccepted(s.log, key) then Sent else Failed)
    requires d == Delivery(Failed, true) ==> RetryAllowed(s.log, key)
    requires key.channel == Sms && emailed ==> WasAccepted(s.log, Key(Email, key.kind, key.start))
    ensures Inv(TurnOver(FinishRow(s, key, d), w, key, emailed, d.status == Sent))
    ensures Inv(Leaves(FinishRow(s, key, d), w))
  {
    FinishKeeps(s, w, key, d);
    QuietMarks(s, Recorded(key, d.status == Failed && d.retryable));
    var done := FinishRow(Leaves(s, w), key, d);
    assert done == Leaves(FinishRow(s, key, d), w);
    TurnOverKeeps(done, w, key, emailed, d.status == Sent);
    LeavesThenBecomes(FinishRow(s, key, d), w, key, emailed, d.status == Sent);
  }

  lemma LeavesThenBecomes(s: State, w: WorkerId, key: Key, emailed: bool, sent: bool)
    ensures TurnOver(Leaves(s, w), w, key, emailed, sent) == TurnOver(s, w, key, emailed, sent)
  {
    assert forall p: Phase :: Becomes(Leaves(s, w), w, p) == Becomes(s, w, p);
    assert Leaves(Leaves(s, w), w) == Leaves(s, w);
  }

  lemma FinishStepKeeps(s: State, w: WorkerId, retryable: bool, lost: bool)
    requires Inv(s) && w in s.workers && s.workers[w].Answered?
    ensures Inv(WorkerStep(s, w, s.workers[w], Finish(w, retryable, lost)))
  {
    var p := s.workers[w];
    assert HolderKnows(s.log, s.deliveries, p) && ReportIsTrue(s.log, p);
    if lost {
      TurnOverKeeps(s, w, p.key, p.emailed, p.answer == Accepted);
    } else {
      var d := if p.answer == Accepted then Delivery(Sent, false)
          else Delivery(Failed, retryable && MayRetry(p.key, p.answer, p.recorded));
      RecordKeeps(s, w, p.key, d, p.emailed);
    }
  }

  lemma ClaimStepKeeps(s: State, w: WorkerId, a: Action)
    requires Inv(s) && w in s.workers && (a.ClaimInsert? || a.ClaimReclaim? || a.ClaimRead?)
    ensures Inv(WorkerStep(s, w, s.workers[w], a))
  {
    var p := s.workers[w];
    assert ReportIsTrue(s.log, p);
    if p.Claiming? && a.ClaimInsert? && p.key !in s.deliveries {
      ClaimKeeps(s, w, p.key, p.emailed);
    } else if p.Conflicted? && a.ClaimReclaim? && p.key in s.deliveries &&
        s.deliveries[p.key] == Delivery(Failed, true) {
      ClaimKeeps(s, w, p.key, p.emailed);
    } else if p.Refused? && a.ClaimRead? {
      assert RowTruth(s.log, s.deliveries, p.key);
      TurnOverKeeps(s, w, p.key, p.emailed, p.key in s.deliveries && s.deliveries[p.key].status == Sent);
    }
  }

  /** Before the provider call: give up, validate, or let go because superseded. */
  lemma PrepareStepKeeps(s: State, w: WorkerId, a: Action)
    requires Inv(s) && w in s.workers && (a.GiveUp? || a.Validate? || a.FinishSuperseded?)
    ensures Inv(WorkerStep(s, w, s.workers[w], a))
  {
    var p := s.workers[w];
    assert HolderKnows(s.log, s.deliveries, p) && ReportIsTrue(s.log, p);
    if p.Claimed? && a.GiveUp? && p.key.channel == Email {
      RecordKeeps(s, w, p.key, Delivery(Failed, a.retryable), p.emailed);
    } else if p.Superseded? && a.FinishSuperseded? {
      RecordKeeps(s, w, p.key, Delivery(Failed, false), false);
    }
  }

  lemma DispatchStepKeeps(s: State, w: WorkerId, answer: Answer, anyway: bool, recorded: bool)
    requires Inv(s) && w in s.workers
    ensures Inv(WorkerStep(s, w, s.workers[w], Dispatch(w, answer, anyway, recorded)))
  {
    var p := s.workers[w];
    if p.Validated? {
      DispatchKeeps(s, w, p.key, p.emailed, answer, anyway, recorded);
      QuietMarks(s, Dispatched(p.key, answer, anyway, recorded));
    }
  }

  lemma SmsTurnStepKeeps(s: State, w: WorkerId, possible: bool)
    requires Inv(s) && w in s.workers
    ensures Inv(WorkerStep(s, w, s.workers[w], TakeSmsTurn(w, possible)))
  {
    var p := s.workers[w];
    assert ReportIsTrue(s.log, p);
  }

  lemma StepKeeps(s: State, a: Action)
    requires Inv(s)
    ensures Inv(Step(s, a))
  {
    match a
    case Move(start) => MoveKeeps(s, start);
    case SetEligible(eligible) =>
    case Load(w, kind) =>
    case Crash(w) => LeaveKeeps(s, w);
    case _ =>
      if a.w in s.workers {
        WorkerStepKeeps(s, a.w, a);
      }
  }

  lemma WorkerStepKeeps(s: State, w: WorkerId, a: Action)
    requires Inv(s) && w in s.workers && !a.Move? && !a.SetEligible? && !a.Load? && !a.Crash? && a.w == w
    ensures Inv(WorkerStep(s, w, s.workers[w], a))
  {
    match a
    case ClaimInsert(_) | ClaimReclaim(_) | ClaimRead(_) => ClaimStepKeeps(s, w, a);
    case GiveUp(_, _) | Validate(_, _) | FinishSuperseded(_) => PrepareStepKeeps(s, w, a);
    case Dispatch(_, answer, anyway, recorded) => DispatchStepKeeps(s, w, answer, anyway, recorded);
    case Finish(_, retryable, lost) =>
      if s.workers[w].Answered? {
        FinishStepKeeps(s, w, retryable, lost);
      }
    case TakeSmsTurn(_, possible) => SmsTurnStepKeeps(s, w, possible);
    case MarkSent(_, now) =>
      if s.workers[w].Marking? {
        MarkStepKeeps(s, w, now);
      }
  }

  lemma {:induction false} RunKeeps(s0: State, actions: seq<Action>)
    requires Init(s0)
    ensures Inv(Run(s0, actions))
    decreases |actions|
  {
    if actions != [] {
      RunKeeps(s0, actions[..|actions| - 1]);
      StepKeeps(Run(s0, actions[..|actions| - 1]), actions[|actions| - 1]);
    }
  }

  // ---- What it means ----

  /**
   * Per message: a second provider call happens only after the first was recorded as failed and retryable, which an
   * accepted one never is, nor an email whose answer was lost, nor an SMS with an attempt row unless that row says
   * there was no sender or a provider error.
   */
  lemma SecondDispatchNeedsRecordedFailure(s0: State, actions: seq<Action>, key: Key, i: nat, j: nat)
    requires Init(s0)
    requires var log := Run(s0, actions).log; i < j && DispatchAt(log, i, key) && DispatchAt(log, j, key)
    ensures var log := Run(s0, actions).log;
      && log[i].answer != Accepted
      && (key.channel == Email ==> log[i].answer != NoAnswer)
      && (key.channel == Sms && log[i].recorded ==> log[i].answer == NoSender || log[i].answer == ProviderError)
      && exists m: nat :: i < m < j && RetryAt(log, m, key)
  {
    RunKeeps(s0, actions);
    var s := Run(s0, actions);
    assert RowTruth(s.log, s.deliveries, key);
  }

  /** Each (appointment, kind, start time) gets at most one accepted message per channel. */
  lemma AtMostOneAccepted(s0: State, actions: seq<Action>, key: Key, i: nat, j: nat)
    requires Init(s0)
    requires var log := Run(s0, actions).log;
      && DispatchAt(log, i, key) && log[i].answer == Accepted
      && DispatchAt(log, j, key) && log[j].answer == Accepted
    ensures i == j
  {
    if i < j {
      SecondDispatchNeedsRecordedFailure(s0, actions, key, i, j);
    } else if j < i {
      SecondDispatchNeedsRecordedFailure(s0, actions, key, j, i);
    }
  }

  /**
   * A customer is sent the same message twice only when the provider took the first one and yet answered with an error,
   * or, for an SMS, its answer was lost together with its attempt row.
   */
  lemma SecondTakenMessageNeedsError(s0: State, actions: seq<Action>, key: Key, i: nat, j: nat)
    requires Init(s0)
    requires var log := Run(s0, actions).log;
      i < j && DispatchAt(log, i, key) && DispatchAt(log, j, key) && Taken(log[i]) && Taken(log[j])
    ensures var first := Run(s0, actions).log[i];
      first.answer == ProviderError || (key.channel == Sms && first.answer == NoAnswer && !first.recorded)
  {
    SecondDispatchNeedsRecordedFailure(s0, actions, key, i, j);
  }

  /**
   * A mark on the appointment was set for its current start time, nothing moved the appointment
   * since, and the channel it names had taken that very message.
   */
  lemma MarkBelongsToCurrentStart(s0: State, actions: seq<Action>, kind: Kind)
    requires Init(s0) && MarkOf(Run(s0, actions).appt, kind).Some?
    ensures var s := Run(s0, actions);
      && MarkStands(s.log, kind, s.appt.start, MarkOf(s.appt, kind).value.channel)
      && WasAccepted(s.log, Key(MarkOf(s.appt, kind).value.channel, kind, s.appt.start))
  {
    RunKeeps(s0, actions);
    var s := Run(s0, actions);
    var channel := MarkOf(s.appt, kind).value.channel;
    assert MarkTruth(s.log, s.appt, kind);
    var i: nat :| MarkAt(s.log, i, kind) && s.log[i] == Marked(kind, s.appt.start, channel);
    var key := Key(channel, kind, s.appt.start);
    var d: nat :| DispatchAt(s.log[..i], d, key) && s.log[..i][d].answer == Accepted;
    assert DispatchAt(s.log, d, key);
  }

  /** While a start time stands, each kind is marked at most once. */
  lemma OneMarkPerStart(s0: State, actions: seq<Action>, kind: Kind, i: nat, j: nat)
    requires Init(s0)
    requires var log := Run(s0, actions).log; i < j && MarkAt(log, i, kind) && MarkAt(log, j, kind)
    ensures exists m: nat :: i < m < j && MoveAt(Run(s0, actions).log, m)
  {
    RunKeeps(s0, actions);
    assert MarkTruth(Run(s0, actions).log, Run(s0, actions).appt, kind);
  }
}
