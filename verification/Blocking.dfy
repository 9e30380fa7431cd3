/** Does an appointment occupy its technician's slot at a given instant? */
module Blocking {
  import opened Wrappers

  /** Milliseconds since the epoch. */
  type Instant = int

  datatype Status =
    | Pending | Confirmed | InProgress | AwaitingPayment
    | Completed | Cancelled | NoShow

  predicate UnconditionallyBlocking(s: Status) {
    s.Confirmed? || s.InProgress? || s.AwaitingPayment?
  }

  predicate IsPendingRequestBlocking(requestExpiresAt: Option<Instant>, now: Instant) {
    requestExpiresAt.None? || requestExpiresAt.value > now
  }

  predicate IsBlockingSlot(status: Status, requestExpiresAt: Option<Instant>, now: Instant) {
    if UnconditionallyBlocking(status) then true
    else if !status.Pending? then false
    else IsPendingRequestBlocking(requestExpiresAt, now)
  }

  /** The truth values of a WHERE clause. */
  datatype Truth = True | False | Unknown

  function TruthOf(b: bool): Truth { if b then True else False }

  function Or3(p: Truth, q: Truth): Truth {
    if p.True? || q.True? then True else if p.False? && q.False? then False else Unknown
  }

  function And3(p: Truth, q: Truth): Truth {
    if p.False? || q.False? then False else if p.True? && q.True? then True else Unknown
  }

  /** A comparison with NULL is unknown. */
  function Gt3(column: Option<Instant>, x: Instant): Truth {
    if column.None? then Unknown else TruthOf(column.value > x)
  }

  /** The query form, evaluated as SQL does. */
  function BlockingCondition(status: Status, requestExpiresAt: Option<Instant>, now: Instant): Truth {
    Or3(TruthOf(status in [Confirmed, InProgress, AwaitingPayment]),
        And3(TruthOf(status == Pending),
             Or3(TruthOf(requestExpiresAt.None?), Gt3(requestExpiresAt, now))))
  }

  /** The query selects a row exactly when the in-memory predicate holds, NULL deadlines included;
      it never selects on an unknown truth value. */
  lemma QueryAgreesWithPredicate(status: Status, requestExpiresAt: Option<Instant>, now: Instant)
    ensures BlockingCondition(status, requestExpiresAt, now).True? <==> IsBlockingSlot(status, requestExpiresAt, now)
  {
    assert [Confirmed, InProgress, AwaitingPayment][0] == Confirmed;
    assert status in [Confirmed, InProgress, AwaitingPayment] <==> UnconditionallyBlocking(status);
  }

  /** The three closed states never block, three open ones always do, and a pending row does until its deadline. */
  lemma WhatBlocks(status: Status, requestExpiresAt: Option<Instant>)
    ensures (forall now :: !IsBlockingSlot(status, requestExpiresAt, now)) <==> status in {Completed, Cancelled, NoShow}
    ensures (forall now :: IsBlockingSlot(status, requestExpiresAt, now))
        <==> status in {Confirmed, InProgress, AwaitingPayment} || (status == Pending && requestExpiresAt == None)
    ensures status == Pending && requestExpiresAt.Some? ==>
              forall now :: IsBlockingSlot(status, requestExpiresAt, now) <==> now < requestExpiresAt.value
  {
    assert IsBlockingSlot(status, requestExpiresAt, requestExpiresAt.Or(0) - 1)
        <==> status !in {Completed, Cancelled, NoShow};
    assert IsBlockingSlot(status, requestExpiresAt, requestExpiresAt.Or(0))
        <==> status in {Confirmed, InProgress, AwaitingPayment} || (status == Pending && requestExpiresAt == None);
  }

  /** Time alone can only free a slot, and it frees one at a single instant: the request's deadline. */
  lemma BlockingOnlyLapses(status: Status, requestExpiresAt: Option<Instant>, earlier: Instant, later: Instant)
    requires earlier <= later
    ensures IsBlockingSlot(status, requestExpiresAt, later) ==> IsBlockingSlot(status, requestExpiresAt, earlier)
    ensures IsBlockingSlot(status, requestExpiresAt, earlier) && !IsBlockingSlot(status, requestExpiresAt, later)
            <==> status.Pending? && requestExpiresAt.Some? && earlier < requestExpiresAt.value <= later
  {
  }
}
