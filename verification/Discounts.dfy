/** What a run of service changes does to the discount and the price of one appointment. */
module Discounts {
  import opened Wrappers
  import opened Blocking
  import opened Appointments
  import opened ManageSpec
  import opened ManageLaws

  // ---- Runs ----

  /** What happens to the tables: a locked mutation of the appointment, or a write by anybody else. */
  datatype Happening =
    | Mutation(loaded: Managed, req: Request, x: Surroundings, c: Clocks)
    | Elsewhere

  /** Every field that decides the price is the same. */
  predicate SamePrice(a: Managed, b: Managed) {
    && a.appointment.totalPrice == b.appointment.totalPrice
    && a.appointment.basePriceCents == b.appointment.basePriceCents
    && a.appointment.addOnsPriceCents == b.appointment.addOnsPriceCents
    && a.appointment.subtotalBeforeDiscountCents == b.appointment.subtotalBeforeDiscountCents
    && a.appointment.discountType == b.appointment.discountType
    && a.services == b.services && a.addOns == b.addOns
  }

  /** Other writers touch marks, status, calendar fields and other appointments, but not this one's price. */
  ghost predicate Steps(id: AppointmentId, t: Tables, h: Happening, t': Tables) {
    && id in t.appointments && id in t'.appointments
    && OrdinaryIntentsAreAuthoritative(t)
    && match h
       case Mutation(loaded, req, x, c) => Mutate(t, id, loaded, req, x, c) == Ok(t')
       case Elsewhere => SamePrice(Load(t, id), Load(t', id))
  }

  /** States from first to last, one happening between each and the next. */
  ghost predicate PriceRun(id: AppointmentId, ts: seq<Tables>, hs: seq<Happening>) {
    && |ts| == |hs| + 1
    && id in ts[0].appointments
    && forall n :: 0 <= n < |hs| ==> Steps(id, ts[n], hs[n], ts[n + 1])
  }

  predicate ChangesService(h: Happening) { h.Mutation? && h.req.operation.ChangeService? }

  // ---- One step ----

  function Row(t: Tables, id: AppointmentId): Managed {
    if id in t.appointments then Load(t, id) else Managed(Sliver(0, 0, 1, 0), [], [])
  }

  function Subtotal(t: Tables, id: AppointmentId): int { CurrentSubtotal(Row(t, id)) }

  function Price(t: Tables, id: AppointmentId): int { Row(t, id).appointment.totalPrice }

  predicate FirstVisitRow(t: Tables, id: AppointmentId) { Row(t, id).appointment.discountType == Some(FirstVisit) }

  /** The discount a row actually grants. */
  function Granted(m: Managed): nat { AtLeastZero(CurrentSubtotal(m) - m.appointment.totalPrice) }

  function Effective(t: Tables, id: AppointmentId): nat { Granted(Row(t, id)) }

  lemma DraftSplitsSubtotal(m: Managed, op: Operation, x: Surroundings, technician: Option<TechnicianId>,
                            clock: Instant)
    requires op.ChangeService? && MakePlan(m, op, x).Ok?
    ensures var d := Draft(m, op, MakePlan(m, op, x).value, technician, x, clock).value;
      var was, now := Granted(m), Granted(d);
      && CurrentSubtotal(d) >= 0 && d.appointment.totalPrice >= 0
      && d.appointment.discountType == m.appointment.discountType
      && d.appointment.totalPrice + now == CurrentSubtotal(d)
      && (m.appointment.discountType != Some(FirstVisit) ==>
          now == if CurrentSubtotal(d) < was then CurrentSubtotal(d) else was)
      && (m.appointment.discountType == Some(FirstVisit) ==> now == CurrentSubtotal(d) / 4)
  {
  }

  lemma PublishedPrice(t: Tables, id: AppointmentId, draft: Managed)
    requires id in t.appointments
    ensures id in Publish(t, id, draft).appointments && SamePrice(Load(Publish(t, id, draft), id), draft)
  {
    DeleteThenInsertReplaces(t.services, id, draft.services);
    DeleteThenInsertReplaces(t.addOns, id, draft.addOns);
  }

  /** A mutation that wrote something published the draft of its operation. */
  lemma MutationPublishes(id: AppointmentId, t: Tables, h: Happening, t': Tables)
      returns (p: Plan, technician: Option<TechnicianId>)
    requires Steps(id, t, h, t') && h.Mutation? && t' != t
    ensures var m, op := Load(t, id), h.req.operation;
      && MakePlan(m, op, h.x) == Ok(p)
      && Draft(m, op, p, technician, h.x, h.c.versionClock).Ok?
      && SamePrice(Load(t', id), Draft(m, op, p, technician, h.x, h.c.versionClock).value)
  {
    var m, op := Load(t, id), h.req.operation;
    p := MakePlan(m, op, h.x).value;
    technician := ValidateSlot(t.appointments, id, p, h.x, h.c.guardNow).value;
    PublishedPrice(t, id, Draft(m, op, p, technician, h.x, h.c.versionClock).value);
  }

  /** A committed service change: price and granted discount add up to the new subtotal, neither is negative, and the
      discount is what was granted before, capped by the new subtotal, or a quarter of it for a first visit. */
  lemma ChangeSplitsSubtotal(id: AppointmentId, t: Tables, h: Happening, t': Tables)
    requires Steps(id, t, h, t') && ChangesService(h)
    ensures Subtotal(t', id) >= 0 && Price(t', id) >= 0
    ensures Price(t', id) + Effective(t', id) == Subtotal(t', id)
    ensures FirstVisitRow(t', id) == FirstVisitRow(t, id)
    ensures !FirstVisitRow(t, id) ==>
              Effective(t', id) == if Subtotal(t', id) < Effective(t, id) then Subtotal(t', id) else Effective(t, id)
    ensures FirstVisitRow(t, id) ==> Effective(t', id) == Subtotal(t', id) / 4
  {
    ChangeWrites(id, t, h, t');
    var p, technician := MutationPublishes(id, t, h, t');
    DraftSplitsSubtotal(Load(t, id), h.req.operation, h.x, technician, h.c.versionClock);
  }

  lemma ChangeWrites(id: AppointmentId, t: Tables, h: Happening, t': Tables)
    requires Steps(id, t, h, t') && ChangesService(h)
    ensures t' != t
  {
    MutationIsNotLost(t, id, h.loaded, h.req, h.x, h.c);
  }

  /** Moves, reassignments and other writers change no price. */
  lemma OthersKeepPrice(id: AppointmentId, t: Tables, h: Happening, t': Tables)
    requires Steps(id, t, h, t') && !ChangesService(h)
    ensures Subtotal(t', id) == Subtotal(t, id) && Price(t', id) == Price(t, id)
    ensures FirstVisitRow(t', id) == FirstVisitRow(t, id)
  {
    if h.Mutation? && t' != t {
      var p, technician := MutationPublishes(id, t, h, t');
    }
  }

  // ---- Whole runs ----

  /** The least of `d` and the subtotals that the service changes of a run led to. */
  ghost function LeastOf(id: AppointmentId, d: nat, ts: seq<Tables>, hs: seq<Happening>): int
    requires |ts| == |hs| + 1
  {
    if hs == [] then d
    else
      var least, subtotal := LeastOf(id, d, ts[..|hs|], hs[..|hs| - 1]), Subtotal(ts[|hs|], id);
      if ChangesService(hs[|hs| - 1]) && subtotal < least then subtotal else least
  }

  lemma RunPrefix(id: AppointmentId, ts: seq<Tables>, hs: seq<Happening>)
    requires PriceRun(id, ts, hs) && |hs| > 0
    ensures PriceRun(id, ts[..|hs|], hs[..|hs| - 1])
    ensures ts[..|hs|][|hs| - 1] == ts[|hs| - 1] && Steps(id, ts[|hs| - 1], hs[|hs| - 1], ts[|hs|])
  {
    var init := hs[..|hs| - 1];
    forall k | 0 <= k < |init|
      ensures Steps(id, ts[..|hs|][k], init[k], ts[..|hs|][k + 1])
    {
      assert Steps(id, ts[k], hs[k], ts[k + 1]);
    }
    var n := |hs| - 1;
    assert Steps(id, ts[n], hs[n], ts[n + 1]);
  }

  /** Over any run without the first-visit discount, the granted discount is the least of the first one and every
      subtotal a service change led to. */
  lemma {:induction false} DiscountIsLeastSubtotal(id: AppointmentId, ts: seq<Tables>, hs: seq<Happening>)
    requires PriceRun(id, ts, hs) && !FirstVisitRow(ts[0], id)
    ensures !FirstVisitRow(ts[|hs|], id)
    ensures Effective(ts[|hs|], id) == LeastOf(id, Effective(ts[0], id), ts, hs)
    decreases |hs|
  {
    if |hs| > 0 {
      var n := |hs| - 1;
      RunPrefix(id, ts, hs);
      DiscountIsLeastSubtotal(id, ts[..n + 1], hs[..n]);
      if ChangesService(hs[n]) {
        ChangeSplitsSubtotal(id, ts[n], hs[n], ts[n + 1]);
      } else {
        OthersKeepPrice(id, ts[n], hs[n], ts[n + 1]);
      }
    }
  }

  /** No service change of the run led to a subtotal below `d`. */
  ghost predicate NeverBelow(id: AppointmentId, d: nat, ts: seq<Tables>, hs: seq<Happening>)
    requires |ts| == |hs| + 1
  {
    forall k :: 0 <= k < |hs| && ChangesService(hs[k]) ==> d <= Subtotal(ts[k + 1], id)
  }

  lemma {:induction false} LeastIsKeptIff(id: AppointmentId, d: nat, ts: seq<Tables>, hs: seq<Happening>)
    requires |ts| == |hs| + 1
    ensures LeastOf(id, d, ts, hs) <= d
    ensures LeastOf(id, d, ts, hs) == d <==> NeverBelow(id, d, ts, hs)
    decreases |hs|
  {
    if |hs| > 0 {
      var n := |hs| - 1;
      var ts', hs' := ts[..|hs|], hs[..n];
      LeastIsKeptIff(id, d, ts', hs');
      assert NeverBelow(id, d, ts, hs) ==> NeverBelow(id, d, ts', hs') by {
        assert forall k :: 0 <= k < |hs'| ==> hs'[k] == hs[k] && ts'[k + 1] == ts[k + 1];
      }
      if NeverBelow(id, d, ts', hs') && (ChangesService(hs[n]) ==> d <= Subtotal(ts[n + 1], id)) {
        forall k | 0 <= k < |hs| && ChangesService(hs[k])
          ensures d <= Subtotal(ts[k + 1], id)
        {
          if k < n {
            assert hs'[k] == hs[k] && ts'[k + 1] == ts[k + 1];
          }
        }
      }
    }
  }

  ghost predicate HasChange(hs: seq<Happening>) {
    exists k :: 0 <= k < |hs| && ChangesService(hs[k])
  }

  lemma HasChangePrefix(hs: seq<Happening>)
    requires |hs| > 0
    ensures HasChange(hs) <==> ChangesService(hs[|hs| - 1]) || HasChange(hs[..|hs| - 1])
  {
    var init := hs[..|hs| - 1];
    if HasChange(hs) && !ChangesService(hs[|hs| - 1]) {
      var k :| 0 <= k < |hs| && ChangesService(hs[k]);
      assert ChangesService(init[k]);
    }
    if HasChange(init) {
      var k :| 0 <= k < |init| && ChangesService(init[k]);
      assert ChangesService(hs[k]);
    }
  }

  /** Price and granted discount add up to the subtotal, and a first visit is granted a quarter of it. */
  predicate SplitRow(t: Tables, id: AppointmentId) {
    && Price(t, id) >= 0
    && Price(t, id) + Effective(t, id) == Subtotal(t, id)
    && (FirstVisitRow(t, id) ==> Effective(t, id) == Subtotal(t, id) / 4)
  }

  lemma StepSplits(id: AppointmentId, t: Tables, h: Happening, t': Tables)
    requires Steps(id, t, h, t')
    ensures FirstVisitRow(t', id) == FirstVisitRow(t, id)
    ensures ChangesService(h) || SplitRow(t, id) ==> SplitRow(t', id)
  {
    if ChangesService(h) {
      ChangeSplitsSubtotal(id, t, h, t');
    } else {
      OthersKeepPrice(id, t, h, t');
    }
  }

  /** After a service change the row is split for the rest of the run. */
  lemma {:induction false} SplitStays(id: AppointmentId, ts: seq<Tables>, hs: seq<Happening>)
    requires PriceRun(id, ts, hs)
    ensures FirstVisitRow(ts[|hs|], id) == FirstVisitRow(ts[0], id)
    ensures HasChange(hs) ==> SplitRow(ts[|hs|], id)
    decreases |hs|
  {
    if |hs| > 0 {
      var n := |hs| - 1;
      RunPrefix(id, ts, hs);
      HasChangePrefix(hs);
      StepSplits(id, ts[n], hs[n], ts[n + 1]);
      SplitStays(id, ts[..n + 1], hs[..n]);
    }
  }

  /** Coming back to the first subtotal by service changes restores the first price exactly when the first price was
      not above its subtotal and no subtotal on the way fell below the discount. */
  lemma ReturnRestoresPriceIff(id: AppointmentId, ts: seq<Tables>, hs: seq<Happening>)
    requires PriceRun(id, ts, hs) && !FirstVisitRow(ts[0], id)
    requires HasChange(hs)
    requires Subtotal(ts[|hs|], id) == Subtotal(ts[0], id)
    ensures Price(ts[|hs|], id) == Price(ts[0], id)
        <==> Price(ts[0], id) <= Subtotal(ts[0], id) && NeverBelow(id, Effective(ts[0], id), ts, hs)
  {
    DiscountIsLeastSubtotal(id, ts, hs);
    LeastIsKeptIff(id, Effective(ts[0], id), ts, hs);
    SplitStays(id, ts, hs);
  }

  /** Under the first-visit discount the price after a service change depends on the last subtotal alone. */
  lemma FirstVisitForgets(id: AppointmentId, ts: seq<Tables>, hs: seq<Happening>)
    requires PriceRun(id, ts, hs) && FirstVisitRow(ts[0], id)
    requires HasChange(hs)
    ensures Price(ts[|hs|], id) == Subtotal(ts[|hs|], id) - Subtotal(ts[|hs|], id) / 4
  {
    SplitStays(id, ts, hs);
  }
}
