/**
 * Reminder passes over one appointment: concurrent workers claim a delivery row per message, call a
 * provider, record the outcome and mark the appointment, while the appointment moves under them.
 * Any worker may crash between any two steps.
 */
module ReminderProtocol {
  import opened Wrappers

  type WorkerId = nat

  datatype Kind = DayBefore | SameDay
  datatype Channel = Email | Sms

  /** The dedupe key; the event version is the start time the worker loaded. */
  datatype Key = Key(channel: Channel, kind: Kind, start: int)

  datatype Status = Queued | Sent | Failed
  datatype Delivery = Delivery(status: Status, retryable: bool)

  /**
   * How a provider call ended. `NoSender` is no call at all, `ProviderError` a status of 500 or above or one of the two
   * transient error codes, `Denied` any other refusal, and `NoAnswer` a timeout or a lost answer.
   */
  datatype Answer = Accepted | NoSender | ProviderError | Denied | NoAnswer

  datatype Mark = Mark(channel: Channel, at: int)

  datatype Appointment = Appointment(start: int, eligible: bool, dayBefore: Option<Mark>, sameDay: Option<Mark>)

  function MarkOf(a: Appointment, kind: Kind): Option<Mark> {
    if kind == DayBefore then a.dayBefore else a.sameDay
  }

  function WithMark(a: Appointment, kind: Kind, m: Mark): Appointment {
    if kind == DayBefore then a.(dayBefore := Some(m)) else a.(sameDay := Some(m))
  }

  /** Where a worker stands with one key. `emailed` is the outcome of its email turn. */
  datatype Phase =
    | Claiming(key: Key, emailed: bool)
    | Conflicted(key: Key, emailed: bool)
    | Refused(key: Key, emailed: bool)
    | Claimed(key: Key, emailed: bool)
    | Superseded(key: Key)
    | Validated(key: Key, emailed: bool)
    | Answered(key: Key, emailed: bool, answer: Answer, recorded: bool)
    | SmsTurn(kind: Kind, start: int, emailed: bool)
    | Marking(kind: Kind, start: int, channel: Channel)

  /** The worker owns the queued delivery row of its key. */
  predicate Holds(p: Phase, key: Key) {
    (p.Claimed? || p.Superseded? || p.Validated? || p.Answered?) && p.key == key
  }

  datatype Event =
    | Dispatched(key: Key, answer: Answer, anyway: bool, recorded: bool)
    | Recorded(key: Key, retryable: bool)
    | Moved(to: int)
    | Marked(kind: Kind, start: int, channel: Channel)

  /** Did the provider take the message? An error or a lost answer does not tell; `anyway` says what was the case. */
  predicate Taken(e: Event)
    requires e.Dispatched?
  {
    e.answer.Accepted? || ((e.answer.ProviderError? || e.answer.NoAnswer?) && e.anyway)
  }

  datatype State = State(appt: Appointment, deliveries: map<Key, Delivery>, workers: map<WorkerId, Phase>,
      log: seq<Event>)

  datatype Action =
    | Load(w: WorkerId, kind: Kind)
    | ClaimInsert(w: WorkerId)
    | ClaimReclaim(w: WorkerId)
    | ClaimRead(w: WorkerId)
    | GiveUp(w: WorkerId, retryable: bool)
    | Validate(w: WorkerId, due: bool)
    | FinishSuperseded(w: WorkerId)
    | Dispatch(w: WorkerId, answer: Answer, anyway: bool, recorded: bool)
    | Finish(w: WorkerId, retryable: bool, lost: bool)
    | TakeSmsTurn(w: WorkerId, possible: bool)
    | MarkSent(w: WorkerId, now: int)
    | Crash(w: WorkerId)
    | Move(start: int)
    | SetEligible(eligible: bool)

  // ---- Steps ----

  /** The conditional update of a delivery row: only a queued row is finished. */
  function FinishRow(s: State, key: Key, d: Delivery): State {
    if key in s.deliveries && s.deliveries[key].status == Queued
    then s.(deliveries := s.deliveries[key := d], log := s.log + [Recorded(key, d.status == Failed && d.retryable)])
    else s
  }

  function Becomes(s: State, w: WorkerId, p: Phase): State { s.(workers := s.workers[w := p]) }

  function Leaves(s: State, w: WorkerId): State { s.(workers := s.workers - {w}) }

  /** Which channel the pass reports: the email if it went, else the SMS if that went. */
  function Report(s: State, w: WorkerId, key: Key, emailed: bool, sms: bool): State {
    if emailed then Becomes(s, w, Marking(key.kind, key.start, Email))
    else if sms then Becomes(s, w, Marking(key.kind, key.start, Sms))
    else Leaves(s, w)
  }

  /** After a turn on a key: an email turn leads to the SMS turn, an SMS turn to the report. */
  function TurnOver(s: State, w: WorkerId, key: Key, emailed: bool, sent: bool): State {
    if key.channel == Email then Becomes(s, w, SmsTurn(key.kind, key.start, sent))
    else Report(s, w, key, emailed, sent)
  }

  function IsCurrent(a: Appointment, key: Key, due: bool): bool {
    a.eligible && a.start == key.start && MarkOf(a, key.kind).None? && due
  }

  /** The filter of the update that takes a delivery over. */
  predicate CanReclaim(rows: map<Key, Delivery>, key: Key) {
    key in rows && rows[key] == Delivery(Failed, true)
  }

  /** The filter of the update that marks the appointment. */
  predicate CanMark(a: Appointment, kind: Kind, start: int) {
    a.eligible && a.start == start && MarkOf(a, kind).None?
  }

  /**
   * When a failure may be recorded as retryable. An email is retried after every answer but a lost one. An SMS is
   * retried on what its attempt row says; when that row could not be written (`recorded` is false), the row of another
   * attempt may be read in its place.
   */
  predicate MayRetry(key: Key, answer: Answer, recorded: bool) {
    && answer != Accepted
    && (if key.channel == Email then answer != NoAnswer else recorded ==> answer == NoSender || answer == ProviderError)
  }

  /** One atomic statement, or one provider call; an action that does not apply changes nothing. */
  function Step(s: State, a: Action): State {
    match a
    case Move(start) =>
      if start == s.appt.start then s
      else s.(appt := Appointment(start, s.appt.eligible, None, None), log := s.log + [Moved(start)])
    case SetEligible(eligible) => s.(appt := s.appt.(eligible := eligible))
    case Load(w, kind) =>
      if w !in s.workers && s.appt.eligible && MarkOf(s.appt, kind).None?
      then Becomes(s, w, Claiming(Key(Email, kind, s.appt.start), false))
      else s
    case Crash(w) => Leaves(s, w)
    case _ => if a.w in s.workers then WorkerStep(s, a.w, s.workers[a.w], a) else s
  }

  function WorkerStep(s: State, w: WorkerId, p: Phase, a: Action): State
    requires !a.Move? && !a.SetEligible?
  {
    match (p, a)
    case (Claiming(key, emailed), ClaimInsert(_)) =>
      if key in s.deliveries then Becomes(s, w, Conflicted(key, emailed))
      else Becomes(s.(deliveries := s.deliveries[key := Delivery(Queued, false)]), w, Claimed(key, emailed))
    case (Conflicted(key, emailed), ClaimReclaim(_)) =>
      if CanReclaim(s.deliveries, key)
      then Becomes(s.(deliveries := s.deliveries[key := Delivery(Queued, false)]), w, Claimed(key, emailed))
      else Becomes(s, w, Refused(key, emailed))
    case (Refused(key, emailed), ClaimRead(_)) =>
      TurnOver(s, w, key, emailed, key in s.deliveries && s.deliveries[key].status == Sent)
    case (Claimed(key, emailed), GiveUp(_, retryable)) =>
      if key.channel != Email then s
      else TurnOver(FinishRow(s, key, Delivery(Failed, retryable)), w, key, emailed, false)
    case (Claimed(key, emailed), Validate(_, due)) =>
      if IsCurrent(s.appt, key, due) then Becomes(s, w, Validated(key, emailed)) else Becomes(s, w, Superseded(key))
    case (Superseded(key), FinishSuperseded(_)) =>
      Leaves(FinishRow(s, key, Delivery(Failed, false)), w)
    case (Validated(key, emailed), Dispatch(_, answer, anyway, recorded)) =>
      Becomes(s.(log := s.log + [Dispatched(key, answer, anyway, recorded)]), w,
          Answered(key, emailed, answer, recorded))
    case (Answered(key, emailed, answer, recorded), Finish(_, retryable, lost)) =>
      var d := if answer == Accepted then Delivery(Sent, false)
               else Delivery(Failed, retryable && MayRetry(key, answer, recorded));
      TurnOver(if lost then s else FinishRow(s, key, d), w, key, emailed, answer == Accepted)
    case (SmsTurn(kind, start, emailed), TakeSmsTurn(_, possible)) =>
      if possible then Becomes(s, w, Claiming(Key(Sms, kind, start), emailed))
      else Report(s, w, Key(Sms, kind, start), emailed, false)
    case (Marking(kind, start, channel), MarkSent(_, now)) =>
      if CanMark(s.appt, kind, start)
      then
        var marked := WithMark(s.appt, kind, Mark(channel, now));
        Leaves(s.(appt := marked, log := s.log + [Marked(kind, start, channel)]), w)
      else Leaves(s, w)
    case _ => s
  }

  function Run(s: State, actions: seq<Action>): State
    decreases |actions|
  {
    if actions == [] then s else Step(Run(s, actions[..|actions| - 1]), actions[|actions| - 1])
  }

  /** An appointment nobody has been reminded of. */
  predicate Init(s: State) {
    s.deliveries == map[] && s.workers == map[] && s.log == [] && s.appt.dayBefore.None? && s.appt.sameDay.None?
  }

  // ---- The statements of one worker, when nobody interrupts them ----

  class ReminderStore {
    var appt: Appointment
    var deliveries: map<Key, Delivery>

    constructor (appt: Appointment)
      ensures this.appt == appt && deliveries == map[]
    {
      this.appt, deliveries := appt, map[];
    }

    /** Insert, else take over, else read the status of the row in the way. */
    method ClaimReminderSmsDelivery(key: Key) returns (claimed: bool, status: Option<Status>)
      modifies this`deliveries
      ensures claimed <==> key !in old(deliveries) || CanReclaim(old(deliveries), key)
      ensures deliveries == if claimed then old(deliveries)[key := Delivery(Queued, false)] else old(deliveries)
      ensures status == Some(deliveries[key].status)
      ensures forall s: State, w: WorkerId, emailed: bool ::
                s.deliveries == old(deliveries) && w in s.workers && s.workers[w] == Claiming(key, emailed) ==>
                  var s' := Step(Step(s, ClaimInsert(w)), ClaimReclaim(w));
                  && s'.deliveries == deliveries
                  && s'.workers[w] == if claimed then Claimed(key, emailed) else Refused(key, emailed)
    {
      if key !in deliveries {
        deliveries := deliveries[key := Delivery(Queued, false)];
        return true, Some(Queued);
      }
      if CanReclaim(deliveries, key) {
        deliveries := deliveries[key := Delivery(Queued, false)];
        return true, Some(Queued);
      }
      return false, Some(deliveries[key].status);
    }

    /** Only a queued row is finished. */
    method FinishReminderSmsDelivery(key: Key, sent: bool, retryable: bool)
      modifies this`deliveries
      ensures deliveries == if key in old(deliveries) && old(deliveries)[key].status == Queued
                            then old(deliveries)[key := if sent then Delivery(Sent, false)
                                else Delivery(Failed, retryable)]
                            else old(deliveries)
      ensures forall s: State, w: WorkerId, emailed: bool, answer: Answer, recorded: bool ::
                s.deliveries == old(deliveries) && w in s.workers &&
                    s.workers[w] == Answered(key, emailed, answer, recorded)
                && sent == answer.Accepted? && (retryable ==> MayRetry(key, answer, recorded)) ==>
                  Step(s, Finish(w, retryable, false)).deliveries == deliveries
      ensures forall s: State, w: WorkerId ::
                s.deliveries == old(deliveries) && w in s.workers && s.workers[w] == Superseded(key) && !sent &&
                    !retryable ==>
                  Step(s, FinishSuperseded(w)).deliveries == deliveries
    {
      if key in deliveries && deliveries[key].status == Queued {
        deliveries := deliveries[key := if sent then Delivery(Sent, false) else Delivery(Failed, retryable)];
      }
    }

    method MarkReminderSent(kind: Kind, start: int, channel: Channel, now: int) returns (marked: bool)
      modifies this`appt
      ensures marked <==> CanMark(old(appt), kind, start)
      ensures appt == if marked then WithMark(old(appt), kind, Mark(channel, now)) else old(appt)
      ensures forall s: State, w: WorkerId ::
                s.appt == old(appt) && w in s.workers && s.workers[w] == Marking(kind, start, channel) ==>
                  Step(s, MarkSent(w, now)).appt == appt
    {
      marked := CanMark(appt, kind, start);
      if marked {
        appt := WithMark(appt, kind, Mark(channel, now));
      }
    }
  }

  // ---- What the log says ----

  predicate DispatchAt(log: seq<Event>, i: nat, key: Key) {
    i < |log| && log[i].Dispatched? && log[i].key == key
  }

  predicate RetryAt(log: seq<Event>, i: nat, key: Key) {
    i < |log| && log[i] == Recorded(key, true)
  }

  predicate MarkAt(log: seq<Event>, i: nat, kind: Kind) {
    i < |log| && log[i].Marked? && log[i].kind == kind
  }

  predicate MoveAt(log: seq<Event>, i: nat) {
    i < |log| && log[i].Moved?
  }

  /** The provider took a message for the key. */
  ghost predicate WasAccepted(log: seq<Event>, key: Key) {
    exists i: nat :: DispatchAt(log, i, key) && log[i].answer == Accepted
  }

  /** No dispatch so far got an answer after which a retry is ruled out. */
  ghost predicate RetryAllowed(log: seq<Event>, key: Key) {
    forall i: nat :: DispatchAt(log, i, key) ==> MayRetry(key, log[i].answer, log[i].recorded)
  }

  /** Every dispatch so far was recorded as failed and retryable afterwards. */
  ghost predicate Cleared(log: seq<Event>, key: Key) {
    && RetryAllowed(log, key)
    && forall i: nat :: DispatchAt(log, i, key) ==> exists m: nat :: i < m && RetryAt(log, m, key)
  }

  /** Between two dispatches of a key the first was recorded as failed and retryable. */
  ghost predicate Spaced(log: seq<Event>, key: Key) {
    forall i: nat, j: nat :: i < j && DispatchAt(log, i, key) && DispatchAt(log, j, key) ==>
      MayRetry(key, log[i].answer, log[i].recorded) && exists m: nat :: i < m < j && RetryAt(log, m, key)
  }

  /** Every mark of the kind was followed by a move. */
  ghost predicate MovedOn(log: seq<Event>, kind: Kind) {
    forall i: nat :: MarkAt(log, i, kind) ==> exists m: nat :: i < m && MoveAt(log, m)
  }

  /** The last mark of the kind carries this start, and no move came after it. */
  ghost predicate MarkStands(log: seq<Event>, kind: Kind, start: int, channel: Channel) {
    exists i: nat ::
      && MarkAt(log, i, kind) && log[i] == Marked(kind, start, channel)
      && forall m: nat :: i < m ==> !MoveAt(log, m)
  }

  /** Between two marks of a kind the appointment moved. */
  ghost predicate MarksSpaced(log: seq<Event>, kind: Kind) {
    forall i: nat, j: nat :: i < j && MarkAt(log, i, kind) && MarkAt(log, j, kind) ==>
      exists m: nat :: i < m < j && MoveAt(log, m)
  }

  /** Every mark reports a message that the provider had taken for exactly that start. */
  ghost predicate MarksBacked(log: seq<Event>) {
    forall j: nat :: j < |log| && log[j].Marked? ==>
        WasAccepted(log[..j], Key(log[j].channel, log[j].kind, log[j].start))
  }
}
