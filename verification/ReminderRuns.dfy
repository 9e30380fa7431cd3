/** When reminders go out and when appointments are marked: only while still wanted, and then without fail. */
module ReminderRuns {
  import opened Wrappers
  import opened ReminderProtocol

  /** The appointment stands, starts when the message says, and has not been reminded. */
  ghost predicate Wants(a: Appointment, key: Key) {
    a.eligible && a.start == key.start && (if key.kind == DayBefore then a.dayBefore else a.sameDay) == None
  }

  /** The state after the first `n` actions. */
  function After(s0: State, actions: seq<Action>, n: nat): State
    requires n <= |actions|
  {
    Run(s0, actions[..n])
  }

  lemma RunStep(s0: State, actions: seq<Action>, n: nat)
    requires n < |actions|
    ensures After(s0, actions, n + 1) == Step(After(s0, actions, n), actions[n])
  {
    assert actions[..n + 1][..n] == actions[..n];
  }

  lemma RunStarts(s0: State, actions: seq<Action>)
    ensures After(s0, actions, 0) == s0
  {
  }

  // ---- What a worker did before it called ----

  predicate InClaim(s: State, w: WorkerId, key: Key) {
    w in s.workers && (s.workers[w].Claimed? || s.workers[w].Validated?) && s.workers[w].key == key
  }

  predicate IsReady(s: State, w: WorkerId, key: Key) {
    w in s.workers && s.workers[w].Validated? && s.workers[w].key == key
  }

  /** Action `k` claimed the delivery for the worker, which has held it since. */
  ghost predicate ClaimedAt(s0: State, actions: seq<Action>, n: nat, w: WorkerId, key: Key, k: nat)
    requires n <= |actions|
  {
    && k < n && (actions[k] == ClaimInsert(w) || actions[k] == ClaimReclaim(w))
    && !InClaim(After(s0, actions, k), w, key)
    && forall i: nat :: k < i <= n ==> InClaim(After(s0, actions, i), w, key)
  }

  /** At action `j` the worker looked at the appointment, which wanted the message and for which it was due. */
  ghost predicate SawWanted(s0: State, actions: seq<Action>, n: nat, w: WorkerId, key: Key, j: nat)
    requires n <= |actions|
  {
    && j < n && actions[j] == Validate(w, true)
    && Wants(After(s0, actions, j).appt, key)
    && forall i: nat :: j < i <= n ==> IsReady(After(s0, actions, i), w, key)
  }

  lemma ClaimBegins(s: State, a: Action, w: WorkerId, key: Key)
    requires InClaim(Step(s, a), w, key) && !InClaim(s, w, key)
    ensures a == ClaimInsert(w) || a == ClaimReclaim(w)
  {
  }

  lemma LookMakesReady(s: State, a: Action, w: WorkerId, key: Key)
    requires IsReady(Step(s, a), w, key) && !IsReady(s, w, key)
    ensures a == Validate(w, true) && Wants(s.appt, key)
  {
  }

  lemma {:induction false} HeldSinceClaim(s0: State, actions: seq<Action>, n: nat, w: WorkerId, key: Key)
      returns (k: nat)
    requires Init(s0) && n <= |actions| && InClaim(After(s0, actions, n), w, key)
    ensures ClaimedAt(s0, actions, n, w, key, k)
  {
    RunStarts(s0, actions);
    RunStep(s0, actions, n - 1);
    if InClaim(After(s0, actions, n - 1), w, key) {
      k := HeldSinceClaim(s0, actions, n - 1, w, key);
    } else {
      ClaimBegins(After(s0, actions, n - 1), actions[n - 1], w, key);
      k := n - 1;
    }
  }

  lemma {:induction false} ReadySinceLook(s0: State, actions: seq<Action>, n: nat, w: WorkerId, key: Key)
      returns (j: nat)
    requires Init(s0) && n <= |actions| && IsReady(After(s0, actions, n), w, key)
    ensures SawWanted(s0, actions, n, w, key, j)
  {
    RunStarts(s0, actions);
    RunStep(s0, actions, n - 1);
    if IsReady(After(s0, actions, n - 1), w, key) {
      j := ReadySinceLook(s0, actions, n - 1, w, key);
    } else {
      LookMakesReady(After(s0, actions, n - 1), actions[n - 1], w, key);
      j := n - 1;
    }
  }

  // ---- The step that wrote an event ----

  lemma LogGrows(s: State, a: Action)
    ensures Step(s, a).log == s.log || OneLonger(s.log, Step(s, a).log)
  {
  }

  ghost predicate OneLonger(log: seq<Event>, longer: seq<Event>) {
    |longer| == |log| + 1 && longer == log + [longer[|log|]]
  }

  /** The action that wrote event `i` of the log. */
  lemma {:induction false} EventStep(s0: State, actions: seq<Action>, n: nat, i: nat) returns (k: nat)
    requires Init(s0) && n <= |actions| && i < |After(s0, actions, n).log|
    ensures k < n && |After(s0, actions, k).log| == i
    ensures Step(After(s0, actions, k), actions[k]).log
         == After(s0, actions, k).log + [After(s0, actions, n).log[i]]
  {
    RunStarts(s0, actions);
    RunStep(s0, actions, n - 1);
    LogGrows(After(s0, actions, n - 1), actions[n - 1]);
    if i < |After(s0, actions, n - 1).log| {
      k := EventStep(s0, actions, n - 1, i);
    } else {
      k := n - 1;
    }
  }

  /** A provider is called only for an appointment that still wants the message: the worker that made call `i` at
      action `n` had claimed the delivery at action `k` and then, at action `j`, while it held the claim, seen the
      appointment eligible, at the start the message names, unmarked for the kind, and due. */
  lemma DispatchIsWanted(s0: State, actions: seq<Action>, key: Key, i: nat)
      returns (w: WorkerId, k: nat, j: nat, n: nat)
    requires Init(s0) && DispatchAt(Run(s0, actions).log, i, key)
    ensures k < j < n < |actions|
    ensures actions[n].Dispatch? && actions[n].w == w && |After(s0, actions, n).log| == i
    ensures ClaimedAt(s0, actions, n, w, key, k) && SawWanted(s0, actions, n, w, key, j)
  {
    assert actions[..|actions|] == actions;
    n := EventStep(s0, actions, |actions|, i);
    var s := After(s0, actions, n);
    assert Step(s, actions[n]).log[i] == Run(s0, actions).log[i];
    DispatchIsReady(s, actions[n], key);
    w := actions[n].w;
    k := HeldSinceClaim(s0, actions, n, w, key);
    j := ReadySinceLook(s0, actions, n, w, key);
    LookFollowsClaim(s0, actions, n, w, key, k, j);
  }

  lemma DispatchIsReady(s: State, a: Action, key: Key)
    requires |Step(s, a).log| == |s.log| + 1 && DispatchAt(Step(s, a).log, |s.log|, key)
    ensures a.Dispatch? && IsReady(s, a.w, key)
  {
  }

  lemma LookFollowsClaim(s0: State, actions: seq<Action>, n: nat, w: WorkerId, key: Key, k: nat, j: nat)
    requires n <= |actions| && ClaimedAt(s0, actions, n, w, key, k) && SawWanted(s0, actions, n, w, key, j)
    ensures k < j
  {
    assert j < k ==> IsReady(After(s0, actions, k), w, key);
  }

  /** A mark is set only on an appointment that is eligible, starts when the message said and has no mark of the kind,
      by a worker that reports this channel. */
  lemma MarkIsWanted(s0: State, actions: seq<Action>, kind: Kind, i: nat) returns (n: nat)
    requires Init(s0) && MarkAt(Run(s0, actions).log, i, kind)
    ensures n < |actions| && actions[n].MarkSent? && |After(s0, actions, n).log| == i
    ensures var e, s := Run(s0, actions).log[i], After(s0, actions, n);
      && Wants(s.appt, Key(e.channel, kind, e.start))
      && actions[n].w in s.workers && s.workers[actions[n].w] == Marking(kind, e.start, e.channel)
  {
    assert actions[..|actions|] == actions;
    n := EventStep(s0, actions, |actions|, i);
    var s := After(s0, actions, n);
    assert Step(s, actions[n]).log[i] == Run(s0, actions).log[i];
  }

  // ---- What a worker took up ----

  function KindOf(p: Phase): Kind { if p.SmsTurn? || p.Marking? then p.kind else p.key.kind }

  function StartOf(p: Phase): int { if p.SmsTurn? || p.Marking? then p.start else p.key.start }

  predicate Busy(s: State, w: WorkerId, kind: Kind, start: int) {
    w in s.workers && KindOf(s.workers[w]) == kind && StartOf(s.workers[w]) == start
  }

  lemma OnlyLoadTakesUp(s: State, a: Action, w: WorkerId, kind: Kind, start: int)
    requires Busy(Step(s, a), w, kind, start) && !Busy(s, w, kind, start)
    ensures a == Load(w, kind) && Wants(s.appt, Key(Email, kind, start))
  {
  }

  /** Whatever a worker is at, it took it up from an appointment that was eligible, started then and had no mark of the
      kind; it has been at it since. */
  lemma {:induction false} WorkWasWanted(s0: State, actions: seq<Action>, n: nat, w: WorkerId, kind: Kind, start: int)
      returns (k: nat)
    requires Init(s0) && n <= |actions| && Busy(After(s0, actions, n), w, kind, start)
    ensures k < n && actions[k] == Load(w, kind) && Wants(After(s0, actions, k).appt, Key(Email, kind, start))
    ensures forall i: nat :: k < i <= n ==> Busy(After(s0, actions, i), w, kind, start)
  {
    RunStarts(s0, actions);
    RunStep(s0, actions, n - 1);
    if Busy(After(s0, actions, n - 1), w, kind, start) {
      k := WorkWasWanted(s0, actions, n - 1, w, kind, start);
    } else {
      OnlyLoadTakesUp(After(s0, actions, n - 1), actions[n - 1], w, kind, start);
      k := n - 1;
    }
  }

  // ---- A worker that nobody disturbs ----

  /** How a provider call goes: its answer, whether an unclear one took the message, whether the attempt row was
      written, and whether the failure is held to be retryable. */
  datatype Reply = Reply(answer: Answer, anyway: bool, recorded: bool, retryable: bool)

  /** One turn on a key: claim, look, call, record. */
  function Turn(s: State, w: WorkerId, due: bool, r: Reply): State {
    Step(Step(Step(Called(s, w, due, r), FinishSuperseded(w)), Finish(w, r.retryable, false)), ClaimRead(w))
  }

  function Called(s: State, w: WorkerId, due: bool, r: Reply): State {
    Step(Step(Looked(s, w), Validate(w, due)), Dispatch(w, r.answer, r.anyway, r.recorded))
  }

  function Looked(s: State, w: WorkerId): State { Step(Step(s, ClaimInsert(w)), ClaimReclaim(w)) }

  /** No row stands in the way, or one that may be taken over. */
  predicate Claimable(rows: map<Key, Delivery>, key: Key) {
    key in rows ==> rows[key] == Delivery(Failed, true)
  }

  /** What the row of a key says after an answer. An email may be tried again after every answer but acceptance and
      a lost one, an SMS with an attempt row only after one without sender or with a provider error. */
  function RowAfter(key: Key, r: Reply): Delivery {
    if r.answer.Accepted? then Delivery(Sent, false)
    else
      Delivery(Failed, r.retryable &&
        if key.channel == Email then !r.answer.NoAnswer?
        else !r.recorded || r.answer.NoSender? || r.answer.ProviderError?)
  }

  /** The call and its record. */
  function Events(key: Key, r: Reply): seq<Event> {
    [Dispatched(key, r.answer, r.anyway, r.recorded), Recorded(key, RowAfter(key, r) == Delivery(Failed, true))]
  }

  function Sending(s: State, key: Key, r: Reply): State {
    s.(deliveries := s.deliveries[key := RowAfter(key, r)], log := s.log + Events(key, r))
  }

  lemma ClaimTurn(s: State, w: WorkerId, key: Key, emailed: bool)
    requires w in s.workers && s.workers[w] == Claiming(key, emailed) && Claimable(s.deliveries, key)
    ensures Looked(s, w) == s.(deliveries := s.deliveries[key := Delivery(Queued, false)],
                               workers := s.workers[w := Claimed(key, emailed)])
  {
  }

  /** A claimable, due message that the appointment wants is sent, and its answer recorded. */
  lemma TurnSends(s: State, w: WorkerId, key: Key, emailed: bool, r: Reply)
    requires w in s.workers && s.workers[w] == Claiming(key, emailed)
    requires Claimable(s.deliveries, key) && Wants(s.appt, key)
    ensures Turn(s, w, true, r) == TurnOver(Sending(s, key, r), w, key, emailed, r.answer.Accepted?)
  {
    var called := AfterCall(s, w, key, emailed, r);
    TurnCalls(s, w, key, emailed, r);
    assert Step(called, FinishSuperseded(w)) == called;
    TurnRecords(s, called, w, key, emailed, r);
  }

  function AfterCall(s: State, w: WorkerId, key: Key, emailed: bool, r: Reply): State {
    s.(deliveries := s.deliveries[key := Delivery(Queued, false)],
       workers := s.workers[w := Answered(key, emailed, r.answer, r.recorded)],
       log := s.log + [Dispatched(key, r.answer, r.anyway, r.recorded)])
  }

  lemma TurnCalls(s: State, w: WorkerId, key: Key, emailed: bool, r: Reply)
    requires w in s.workers && s.workers[w] == Claiming(key, emailed)
    requires Claimable(s.deliveries, key) && Wants(s.appt, key)
    ensures Called(s, w, true, r) == AfterCall(s, w, key, emailed, r)
  {
    ClaimTurn(s, w, key, emailed);
    LookPasses(s, Looked(s, w), w, key, emailed);
  }

  lemma LookPasses(s: State, claimed: State, w: WorkerId, key: Key, emailed: bool)
    requires claimed == s.(deliveries := s.deliveries[key := Delivery(Queued, false)],
                           workers := s.workers[w := Claimed(key, emailed)])
    requires Wants(s.appt, key)
    ensures Step(claimed, Validate(w, true))
         == s.(deliveries := s.deliveries[key := Delivery(Queued, false)],
               workers := s.workers[w := Validated(key, emailed)])
  {
  }

  lemma TurnRecords(s: State, called: State, w: WorkerId, key: Key, emailed: bool, r: Reply)
    requires called == AfterCall(s, w, key, emailed, r)
    ensures Step(Step(called, Finish(w, r.retryable, false)), ClaimRead(w))
         == TurnOver(Sending(s, key, r), w, key, emailed, r.answer.Accepted?)
  {
    var told := Sending(s, key, r);
    assert called.deliveries[key := RowAfter(key, r)] == told.deliveries;
    assert called.log + [Events(key, r)[1]] == told.log;
    var finished := Step(called, Finish(w, r.retryable, false));
    assert finished == TurnOver(told.(workers := called.workers), w, key, emailed, r.answer.Accepted?);
    OwnPhaseOnly(told, w, Answered(key, emailed, r.answer, r.recorded), key, emailed, r.answer.Accepted?);
    assert Step(finished, ClaimRead(w)) == finished;
  }

  /** Only the worker's own phase changes when its turn is over. */
  lemma OwnPhaseOnly(s: State, w: WorkerId, p: Phase, key: Key, emailed: bool, sent: bool)
    ensures TurnOver(Becomes(s, w, p), w, key, emailed, sent) == TurnOver(s, w, key, emailed, sent)
  {
    assert forall q: Phase :: Becomes(Becomes(s, w, p), w, q) == Becomes(s, w, q);
    assert Leaves(Becomes(s, w, p), w) == Leaves(s, w);
  }

  /** A message that is claimable but no longer wanted, or not due, is not sent: its row fails for good and the worker
      goes. */
  lemma TurnLetsGo(s: State, w: WorkerId, key: Key, emailed: bool, due: bool, r: Reply)
    requires w in s.workers && s.workers[w] == Claiming(key, emailed)
    requires Claimable(s.deliveries, key) && !(Wants(s.appt, key) && due)
    ensures Turn(s, w, due, r) == Leaves(s.(deliveries := s.deliveries[key := Delivery(Failed, false)],
                                            log := s.log + [Recorded(key, false)]), w)
  {
    ClaimTurn(s, w, key, emailed);
    var stale := Step(Looked(s, w), Validate(w, due));
    assert stale.workers == s.workers[w := Superseded(key)];
    assert Called(s, w, due, r) == stale;
    assert stale.deliveries[key := Delivery(Failed, false)] == s.deliveries[key := Delivery(Failed, false)];
    assert stale.workers - {w} == s.workers - {w};
  }

  /** A message whose row may not be taken over is left to whoever has it; one already sent counts as sent. */
  lemma TurnReads(s: State, w: WorkerId, key: Key, emailed: bool, due: bool, r: Reply)
    requires w in s.workers && s.workers[w] == Claiming(key, emailed) && !Claimable(s.deliveries, key)
    ensures Turn(s, w, due, r) == TurnOver(s, w, key, emailed, s.deliveries[key].status == Sent)
  {
    assert Looked(s, w) == Becomes(s, w, Refused(key, emailed)) by {
      assert Becomes(Becomes(s, w, Conflicted(key, emailed)), w, Refused(key, emailed))
          == Becomes(s, w, Refused(key, emailed));
    }
    var refused := Becomes(s, w, Refused(key, emailed));
    assert Called(s, w, due, r) == refused;
    assert Step(Step(refused, FinishSuperseded(w)), Finish(w, r.retryable, false)) == refused;
    OwnPhaseOnly(s, w, Refused(key, emailed), key, emailed, s.deliveries[key].status == Sent);
  }

  /** An email that cannot be prepared is recorded as failed, to be tried again or not, and the SMS gets its turn; no
      provider is called. */
  lemma UnpreparedEmailMovesOn(s: State, w: WorkerId, kind: Kind, start: int, retryable: bool)
    requires var key := Key(Email, kind, start);
      && w in s.workers && s.workers[w] == Claimed(key, false)
      && key in s.deliveries && s.deliveries[key].status == Queued
    ensures var key, s' := Key(Email, kind, start), Step(s, GiveUp(w, retryable));
      && s'.deliveries == s.deliveries[key := Delivery(Failed, retryable)]
      && s'.log == s.log + [Recorded(key, retryable)]
      && s'.workers == s.workers[w := SmsTurn(kind, start, false)] && s'.appt == s.appt
  {
  }

  // ---- A whole pass ----

  /** Load, email turn, SMS turn where one is possible, mark. */
  function Pass(s: State, w: WorkerId, kind: Kind, email: Reply, possible: bool, sms: Reply, now: int): State {
    var mailed := Step(Turn(Step(s, Load(w, kind)), w, true, email), TakeSmsTurn(w, possible));
    Step(if possible then Turn(mailed, w, true, sms) else mailed, MarkSent(w, now))
  }

  /** The channel a pass reports. */
  function Reported(email: Reply, possible: bool, sms: Reply): Option<Channel> {
    if email.answer.Accepted? then Some(Email)
    else if possible && sms.answer.Accepted? then Some(Channel.Sms) else None
  }

  function Reminded(s: State, kind: Kind, channel: Option<Channel>, now: int): State {
    if channel.None? then s
    else
      var m := Some(Mark(channel.value, now));
      s.(appt := if kind == DayBefore then s.appt.(dayBefore := m) else s.appt.(sameDay := m),
         log := s.log + [Marked(kind, s.appt.start, channel.value)])
  }

  /** A worker that nobody disturbs, on an eligible appointment without a mark of the kind, whose messages are due and
      claimable: it sends the email, and the SMS where one is possible, records both answers, and marks the appointment
      with the channel that took its message, the email first. */
  lemma LonePassReminds(s: State, w: WorkerId, kind: Kind, email: Reply, possible: bool, sms: Reply, now: int)
    requires w !in s.workers
    requires var e, t := Key(Email, kind, s.appt.start), Key(Channel.Sms, kind, s.appt.start);
      Wants(s.appt, e) && Claimable(s.deliveries, e) && Claimable(s.deliveries, t)
    ensures var e, t := Key(Email, kind, s.appt.start), Key(Channel.Sms, kind, s.appt.start);
      Pass(s, w, kind, email, possible, sms, now)
      == Reminded(if possible then Sending(Sending(s, e, email), t, sms) else Sending(s, e, email), kind,
                  Reported(email, possible, sms), now)
  {
    var e, t := Key(Email, kind, s.appt.start), Key(Channel.Sms, kind, s.appt.start);
    var loaded := Step(s, Load(w, kind));
    assert loaded == Becomes(s, w, Claiming(e, false));
    TurnSends(loaded, w, e, false, email);
    var mailed := Sending(s, e, email);
    assert Turn(loaded, w, true, email) == Becomes(mailed, w, SmsTurn(kind, s.appt.start, email.answer.Accepted?)) by {
      OwnPhaseOnly(mailed, w, Claiming(e, false), e, false, email.answer.Accepted?);
      assert Sending(loaded, e, email) == Becomes(mailed, w, Claiming(e, false));
    }
    SmsTurnReminds(s, mailed, w, kind, email.answer.Accepted?, possible, sms, now);
  }

  /** The second half, from the SMS turn on. */
  lemma SmsTurnReminds(s: State, mailed: State, w: WorkerId, kind: Kind, emailed: bool, possible: bool, sms: Reply,
                       now: int)
    requires w !in s.workers && mailed.workers == s.workers && mailed.appt == s.appt
    requires var t := Key(Channel.Sms, kind, s.appt.start); Wants(s.appt, t) && Claimable(mailed.deliveries, t)
    ensures var turn := Step(Becomes(mailed, w, SmsTurn(kind, s.appt.start, emailed)), TakeSmsTurn(w, possible));
      Step(if possible then Turn(turn, w, true, sms) else turn, MarkSent(w, now))
      == Reminded(if possible then Sending(mailed, Key(Channel.Sms, kind, s.appt.start), sms) else mailed, kind,
                  if emailed then Some(Email)
                  else if possible && sms.answer.Accepted? then Some(Channel.Sms) else None, now)
  {
    var t, begun := Key(Channel.Sms, kind, s.appt.start), Becomes(mailed, w, SmsTurn(kind, s.appt.start, emailed));
    var turn := Step(begun, TakeSmsTurn(w, possible));
    if possible {
      assert turn == Becomes(mailed, w, Claiming(t, emailed)) by {
        assert Becomes(begun, w, Claiming(t, emailed)) == Becomes(mailed, w, Claiming(t, emailed));
      }
      TurnSends(turn, w, t, emailed, sms);
      var sent := Sending(mailed, t, sms);
      assert Sending(turn, t, sms) == Becomes(sent, w, Claiming(t, emailed));
      OwnPhaseOnly(sent, w, Claiming(t, emailed), t, emailed, sms.answer.Accepted?);
      ReportMarks(sent, w, t, emailed, sms.answer.Accepted?, now);
    } else {
      OwnPhaseOnly(mailed, w, SmsTurn(kind, s.appt.start, emailed), t, emailed, false);
      ReportMarks(mailed, w, t, emailed, false, now);
    }
  }

  lemma ReportMarks(s: State, w: WorkerId, key: Key, emailed: bool, sms: bool, now: int)
    requires w !in s.workers && key.channel == Channel.Sms && Wants(s.appt, key)
    ensures Step(TurnOver(s, w, key, emailed, sms), MarkSent(w, now))
         == Reminded(s, key.kind, if emailed then Some(Email) else if sms then Some(Channel.Sms) else None, now)
  {
    assert s.workers - {w} == s.workers;
    assert forall p: Phase :: Leaves(Becomes(s, w, p), w) == s;
  }
}
