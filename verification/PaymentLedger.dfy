/** The tender ledger of an appointment and its cached total. */
module PaymentLedger {
  import opened Wrappers

  const MAX_SAFE_INTEGER := 9_007_199_254_740_991

  /** A JavaScript number: a whole one, or any other (fractions, infinities, NaN). */
  datatype Number = Whole(n: int) | NotWhole

  predicate IsSafeInteger(x: Number) { x.Whole? && -MAX_SAFE_INTEGER <= x.n <= MAX_SAFE_INTEGER }

  datatype PaymentRow = PaymentRow(salonId: Option<string>, amountCents: Number, voided: bool)

  datatype Input = Input(cachedAmountPaidCents: Option<Number>, paymentRows: seq<PaymentRow>,
      expectedSalonId: Option<string>,
                         appointmentStatus: Option<string>, paymentStatus: Option<string>)

  datatype LedgerState = Ledger | ExplicitZero | UntrackedZero | LegacyPaid

  datatype Resolution =
    | Resolved(state: LedgerState, appointmentPaymentsCents: Option<int>, ledgerPaymentsCents: int,
        hasPaymentRows: bool)
    | Blocked(ledgerCents: Option<int>, hasRows: bool)

  // ---- What the rows amount to ----

  predicate GoodAmount(row: PaymentRow) { IsSafeInteger(row.amountCents) && row.amountCents.n > 0 }

  predicate GoodAmounts(rows: seq<PaymentRow>) { forall row :: row in rows ==> GoodAmount(row) }

  predicate OwnSalon(rows: seq<PaymentRow>, expected: Option<string>) {
    expected.Some? ==> forall row :: row in rows ==> row.salonId == expected
  }

  function LiveCents(row: PaymentRow): nat {
    if GoodAmount(row) && !row.voided then row.amountCents.n else 0
  }

  /** The non-voided rows, added up. */
  function LiveSum(rows: seq<PaymentRow>): nat {
    if rows == [] then 0 else LiveSum(rows[..|rows| - 1]) + LiveCents(rows[|rows| - 1])
  }

  predicate SumIsSafe(rows: seq<PaymentRow>) { LiveSum(rows) <= MAX_SAFE_INTEGER }

  /** What the resolution must be. */
  function Resolve(input: Input): Resolution {
    var rows, cached := input.paymentRows, input.cachedAmountPaidCents;
    var hasRows := rows != [];
    if !OwnSalon(rows, input.expectedSalonId) then Blocked(None, hasRows)
    else if cached.Some? && (!IsSafeInteger(cached.value) || cached.value.n < 0) then Blocked(None, hasRows)
    else if !GoodAmounts(rows) || !SumIsSafe(rows) then Blocked(None, hasRows)
    else if hasRows then
      if cached.Some? && cached.value.n != LiveSum(rows) then Blocked(Some(LiveSum(rows)), true)
      else Resolved(Ledger, Some(LiveSum(rows)), LiveSum(rows), true)
    else if cached.Some? then
      if cached.value.n > 0 then Blocked(Some(0), false) else Resolved(ExplicitZero, Some(0), 0, false)
    else if input.appointmentStatus == Some("completed") && input.paymentStatus == Some("paid") then
      Resolved(LegacyPaid, None, 0, false)
    else if input.appointmentStatus == Some("completed") && input.paymentStatus != Some("comp") then
      Blocked(Some(0), false)
    else Resolved(UntrackedZero, Some(0), 0, false)
  }

  /** The literal conditions on what was recorded: the rows are the salon's, each amount is a positive safe integer, the
      live ones add up to one, and a cached total is a safe integer that is not negative. */
  ghost predicate Sound(input: Input) {
    && (input.expectedSalonId.Some? ==> forall row :: row in input.paymentRows ==> row.salonId == input.expectedSalonId)
    && (forall row :: row in input.paymentRows ==>
          row.amountCents.Whole? && 0 < row.amountCents.n <= 9_007_199_254_740_991)
    && LiveSum(input.paymentRows) <= 9_007_199_254_740_991
    && (input.cachedAmountPaidCents.Some? ==>
          var cached := input.cachedAmountPaidCents.value; cached.Whole? && 0 <= cached.n <= 9_007_199_254_740_991)
  }

  lemma SoundIff(input: Input)
    ensures Sound(input) <==>
      && OwnSalon(input.paymentRows, input.expectedSalonId) && GoodAmounts(input.paymentRows)
      && SumIsSafe(input.paymentRows)
      && (input.cachedAmountPaidCents.Some? ==>
            IsSafeInteger(input.cachedAmountPaidCents.value) && input.cachedAmountPaidCents.value.n >= 0)
  {
    if GoodAmounts(input.paymentRows) {
      forall row | row in input.paymentRows
        ensures row.amountCents.Whole? && 0 < row.amountCents.n <= 9_007_199_254_740_991
      {
        assert GoodAmount(row);
      }
    }
  }

  /** With rows, the ledger resolves exactly when the records are sound and no cached total contradicts the rows, and
      then to their live sum. */
  lemma RowsResolveIff(input: Input)
    requires input.paymentRows != []
    ensures var sum, cached := LiveSum(input.paymentRows), input.cachedAmountPaidCents;
      && (Resolve(input).Resolved? <==> Sound(input) && cached in {None, Some(Whole(sum))})
      && (Resolve(input).Resolved? ==> Resolve(input) == Resolved(Ledger, Some(sum), sum, true))
      && (Resolve(input).Blocked? ==> Resolve(input) == Blocked(if Sound(input) then Some(sum) else None, true))
  {
    SoundIff(input);
  }

  /** Without rows: a zero that was written, the paid appointments from before there were rows, and the ones nobody has
      to pay for yet or at all; anything else is blocked. */
  lemma NoRowsResolveIff(input: Input)
    requires input.paymentRows == []
    ensures var r, cached := Resolve(input), input.cachedAmountPaidCents;
      var completed := input.appointmentStatus == Some("completed");
      && (r == Resolved(ExplicitZero, Some(0), 0, false) <==> cached == Some(Whole(0)))
      && (r == Resolved(LegacyPaid, None, 0, false) <==>
          cached == None && completed && input.paymentStatus == Some("paid"))
      && (r == Resolved(UntrackedZero, Some(0), 0, false) <==>
          cached == None && (!completed || input.paymentStatus == Some("comp")))
      && (r == Blocked(Some(0), false) <==>
          if cached.Some? then cached.value.Whole? && 0 < cached.value.n <= 9_007_199_254_740_991
          else completed && input.paymentStatus !in {Some("paid"), Some("comp")})
      && (r == Blocked(None, false) <==> !Sound(input))
  {
    SoundIff(input);
  }

  /** A row counts in full unless it is voided. */
  lemma LiveSumOfOne(row: PaymentRow)
    requires row.amountCents.Whole? && 0 < row.amountCents.n <= 9_007_199_254_740_991
    ensures LiveSum([row]) == if row.voided then 0 else row.amountCents.n
  {
    assert [row][..0] == [];
  }

  lemma {:induction false} LiveSumGrows(rows: seq<PaymentRow>, k: nat)
    requires k <= |rows|
    ensures LiveSum(rows[..k]) <= LiveSum(rows)
  {
    if k == |rows| {
      assert rows[..k] == rows;
    } else {
      var most := rows[..|rows| - 1];
      LiveSumGrows(most, k);
      assert most[..k] == rows[..k];
    }
  }

  /** The accumulating loop, with its early exits. */
  method SumLedger(rows: seq<PaymentRow>) returns (sum: Option<int>)
    ensures sum == if GoodAmounts(rows) && SumIsSafe(rows) then Some(LiveSum(rows)) else None
  {
    var ledgerPaymentsCents := 0;
    for k := 0 to |rows|
      invariant GoodAmounts(rows[..k]) && ledgerPaymentsCents == LiveSum(rows[..k]) <= MAX_SAFE_INTEGER
    {
      var row := rows[k];
      assert rows[..k + 1] == rows[..k] + [row] && row in rows;
      if !IsSafeInteger(row.amountCents) || row.amountCents.n <= 0 {
        return None;
      }
      if !row.voided {
        var next := ledgerPaymentsCents + row.amountCents.n;
        if !IsSafeInteger(Whole(next)) {
          LiveSumGrows(rows, k + 1);
          return None;
        }
        ledgerPaymentsCents := next;
      }
    }
    assert rows[..|rows|] == rows;
    return Some(ledgerPaymentsCents);
  }

  method ResolveAppointmentPaymentLedger(input: Input) returns (r: Resolution)
    ensures r == Resolve(input)
  {
    var rows, cached := input.paymentRows, input.cachedAmountPaidCents;
    if input.expectedSalonId.Some? && exists row :: row in rows && row.salonId != input.expectedSalonId {
      return Blocked(None, |rows| > 0);
    }
    if cached.Some? && (!IsSafeInteger(cached.value) || cached.value.n < 0) {
      return Blocked(None, |rows| > 0);
    }
    var sum := SumLedger(rows);
    if sum.None? {
      return Blocked(None, |rows| > 0);
    }
    if |rows| == 0 {
      if cached.Some? && cached.value.n > 0 {
        return Blocked(sum, false);
      }
      if cached.Some? {
        return Resolved(ExplicitZero, Some(0), sum.value, false);
      }
      if input.appointmentStatus == Some("completed") && input.paymentStatus == Some("paid") {
        return Resolved(LegacyPaid, None, sum.value, false);
      }
      if input.appointmentStatus == Some("completed") && input.paymentStatus != Some("comp") {
        return Blocked(sum, false);
      }
      return Resolved(UntrackedZero, Some(0), sum.value, false);
    }
    if cached.Some? && cached.value.n != sum.value {
      return Blocked(sum, true);
    }
    return Resolved(Ledger, sum, sum.value, true);
  }

  // ---- The verdict does not depend on row order ----

  lemma {:induction false} LiveSumConcat(s: seq<PaymentRow>, t: seq<PaymentRow>)
    ensures LiveSum(s + t) == LiveSum(s) + LiveSum(t)
  {
    if t == [] {
      assert s + t == s;
    } else {
      var all, most := s + t, t[..|t| - 1];
      LiveSumConcat(s, most);
      assert all[..|all| - 1] == s + most && all[|all| - 1] == t[|t| - 1];
    }
  }

  lemma LiveSumSplit(before: seq<PaymentRow>, row: PaymentRow, after: seq<PaymentRow>)
    ensures LiveSum(before + [row] + after) == LiveSum(before) + LiveCents(row) + LiveSum(after)
  {
    var upTo := before + [row];
    assert upTo[..|upTo| - 1] == before && upTo[|upTo| - 1] == row;
    LiveSumConcat(upTo, after);
  }

  lemma WithoutRow(s: seq<PaymentRow>, i: nat)
    requires i < |s|
    ensures multiset(s[..i] + s[i + 1..]) == multiset(s) - multiset{s[i]}
    ensures s == s[..i] + [s[i]] + s[i + 1..]
  {
    assert s == s[..i] + [s[i]] + s[i + 1..];
  }

  lemma LiveSumWithout(s: seq<PaymentRow>, i: nat)
    requires i < |s|
    ensures LiveSum(s) == LiveSum(s[..i] + s[i + 1..]) + LiveCents(s[i])
  {
    WithoutRow(s, i);
    LiveSumConcat(s[..i], s[i + 1..]);
    LiveSumSplit(s[..i], s[i], s[i + 1..]);
  }

  lemma {:induction false} LiveSumOfPermutation(s: seq<PaymentRow>, t: seq<PaymentRow>)
    requires multiset(s) == multiset(t)
    ensures LiveSum(s) == LiveSum(t)
    decreases |s|
  {
    assert |s| == |multiset(s)| && |t| == |multiset(t)|;
    if s != [] {
      assert s[0] in multiset(t);
      var i :| 0 <= i < |t| && t[i] == s[0];
      var s', t' := s[..0] + s[1..], t[..i] + t[i + 1..];
      WithoutRow(s, 0);
      WithoutRow(t, i);
      assert multiset(s') == multiset(t') && |s'| < |s|;
      LiveSumOfPermutation(s', t');
      LiveSumWithout(s, 0);
      LiveSumWithout(t, i);
    }
  }

  lemma VerdictIgnoresOrder(input: Input, rows: seq<PaymentRow>)
    requires multiset(rows) == multiset(input.paymentRows)
    ensures Resolve(input.(paymentRows := rows)) == Resolve(input)
  {
    LiveSumOfPermutation(rows, input.paymentRows);
    assert forall row :: row in rows <==> row in multiset(rows);
    assert forall row :: row in input.paymentRows <==> row in multiset(input.paymentRows);
    assert |rows| == |multiset(rows)| && |input.paymentRows| == |multiset(input.paymentRows)|;
  }

  // ---- Any run of payments and voids ----

  datatype Event = Payment(amountCents: int) | Void(index: nat)

  predicate ValidEvent(e: Event) { e.Payment? ==> 0 < e.amountCents <= MAX_SAFE_INTEGER }

  function WithPayment(rows: seq<PaymentRow>, salon: string, amountCents: int): seq<PaymentRow> {
    rows + [PaymentRow(Some(salon), Whole(amountCents), false)]
  }

  function WithVoid(rows: seq<PaymentRow>, index: nat): seq<PaymentRow> {
    if index < |rows| then rows[index := rows[index].(voided := true)] else rows
  }

  function RowsAfter(salon: string, events: seq<Event>): seq<PaymentRow> {
    if events == [] then []
    else
      var rows := RowsAfter(salon, events[..|events| - 1]);
      match events[|events| - 1]
      case Payment(amount) => WithPayment(rows, salon, amount)
      case Void(index) => WithVoid(rows, index)
  }

  lemma {:induction false} RowsAfterAreGood(salon: string, events: seq<Event>)
    requires forall e :: e in events ==> ValidEvent(e)
    ensures GoodAmounts(RowsAfter(salon, events)) && OwnSalon(RowsAfter(salon, events), Some(salon))
    ensures RowsAfter(salon, events) == [] <==> forall e :: e in events ==> e.Void?
  {
    if events != [] {
      var last, most := events[|events| - 1], events[..|events| - 1];
      assert events == most + [last] && last in events;
      assert forall e :: e in events <==> e in most || e == last;
      RowsAfterAreGood(salon, most);
      EventKeepsGood(RowsAfter(salon, most), salon, last);
    }
  }

  lemma EventKeepsGood(rows: seq<PaymentRow>, salon: string, e: Event)
    requires ValidEvent(e) && GoodAmounts(rows) && OwnSalon(rows, Some(salon))
    ensures e.Payment? ==>
              && GoodAmounts(WithPayment(rows, salon, e.amountCents))
              && OwnSalon(WithPayment(rows, salon, e.amountCents), Some(salon))
    ensures e.Void? ==> GoodAmounts(WithVoid(rows, e.index)) && OwnSalon(WithVoid(rows, e.index), Some(salon))
  {
    if e.Void? && e.index < |rows| {
      assert rows[e.index] in rows;
      assert forall row :: row in WithVoid(rows, e.index) ==> row in rows || row == rows[e.index].(voided := true);
    }
  }

  /** With the cache rewritten from the non-voided rows, a run with a payment resolves to that sum exactly
      while it is safe. */
  lemma RunResolvesIffSafe(salon: string, events: seq<Event>, status: Option<string>, paymentStatus: Option<string>)
    requires forall e :: e in events ==> ValidEvent(e)
    requires exists e :: e in events && e.Payment?
    ensures var rows := RowsAfter(salon, events);
      var r := Resolve(Input(Some(Whole(LiveSum(rows))), rows, Some(salon), status, paymentStatus));
      && (SumIsSafe(rows) ==> r == Resolved(Ledger, Some(LiveSum(rows)), LiveSum(rows), true))
      && (!SumIsSafe(rows) ==> r == Blocked(None, true))
  {
    RowsAfterAreGood(salon, events);
  }

  // ---- The routes keep the cache by increments ----

  lemma SplitAt(rows: seq<PaymentRow>, index: nat, row: PaymentRow)
    requires index < |rows|
    ensures rows == rows[..index] + [rows[index]] + rows[index + 1..]
    ensures rows[index := row] == rows[..index] + [row] + rows[index + 1..]
  {
  }

  lemma LiveSumAfterVoid(rows: seq<PaymentRow>, index: nat)
    requires index < |rows|
    ensures LiveSum(WithVoid(rows, index)) == LiveSum(rows) - LiveCents(rows[index])
  {
    var before, row, after := rows[..index], rows[index], rows[index + 1..];
    var gone := row.(voided := true);
    SplitAt(rows, index, gone);
    LiveSumSplit(before, row, after);
    LiveSumSplit(before, gone, after);
    assert LiveCents(gone) == 0;
  }

  /** The outcome of a route: refused before any write, rolled back by its own check, or committed. */
  datatype Outcome = Refused | RolledBack | Committed

  class Tender {
    const salonId: string
    const status: Option<string>
    const paymentStatus: Option<string>
    var rows: seq<PaymentRow>
    var amountPaidCents: Option<Number>

    constructor (salonId: string, status: Option<string>, paymentStatus: Option<string>, rows: seq<PaymentRow>,
                 cached: Option<Number>)
      ensures this.salonId == salonId && this.status == status && this.paymentStatus == paymentStatus
      ensures this.rows == rows && amountPaidCents == cached
    {
      this.salonId, this.status, this.paymentStatus := salonId, status, paymentStatus;
      this.rows, amountPaidCents := rows, cached;
    }

    function Verdict(): Resolution
      reads this
    {
      Resolve(Input(amountPaidCents, rows, Some(salonId), status, paymentStatus))
    }

    /** The cache is the recomputed sum of the non-voided rows. */
    ghost predicate InStep()
      reads this
    {
      amountPaidCents == Some(Whole(LiveSum(rows))) && Verdict().Resolved?
    }

    /** `SELECT ... WHERE voided_at IS NULL`, summed. */
    method SumNonVoidedPayments() returns (sum: int)
      requires GoodAmounts(rows)
      ensures sum == LiveSum(rows)
    {
      sum := 0;
      for k := 0 to |rows|
        invariant sum == LiveSum(rows[..k])
      {
        assert rows[..k + 1][..k] == rows[..k] && rows[k] in rows;
        if !rows[k].voided {
          sum := sum + rows[k].amountCents.n;
        }
      }
      assert rows[..|rows|] == rows;
    }

    /**
     * Adding to the cache and checking afterwards gives what recomputing would: the check fails, and
     * rolls back, exactly when the new sum is no safe integer.
     */
    method RecordPayment(amountCents: int, withinBalance: bool) returns (outcome: Outcome)
      requires 0 < amountCents <= MAX_SAFE_INTEGER
      modifies this
      ensures outcome == if old(Verdict()).Blocked? || !withinBalance then Refused
                         else if !SumIsSafe(WithPayment(old(rows), salonId, amountCents)) then RolledBack
                         else Committed
      ensures outcome != Committed ==> rows == old(rows) && amountPaidCents == old(amountPaidCents)
      ensures outcome == Committed ==> rows == WithPayment(old(rows), salonId, amountCents) && InStep()
    {
      var before := ResolveAppointmentPaymentLedger(Input(amountPaidCents, rows, Some(salonId), status, paymentStatus));
      if before.Blocked? || !withinBalance {
        return Refused;
      }
      var rowsAfter := WithPayment(rows, salonId, amountCents);
      var paid := Whole(before.ledgerPaymentsCents + amountCents);
      assert rowsAfter[..|rows|] == rows && before.ledgerPaymentsCents == LiveSum(rows);
      var after := ResolveAppointmentPaymentLedger(Input(Some(paid), rowsAfter, Some(salonId), status, paymentStatus));
      if after.Blocked? {
        return RolledBack;
      }
      rows, amountPaidCents := rowsAfter, Some(paid);
      return Committed;
    }

    /** Subtracting from the cache likewise; here the check never fails. */
    method VoidPayment(index: nat, allowed: bool) returns (outcome: Outcome)
      modifies this
      ensures outcome == if index >= |old(rows)| || old(rows)[index].voided || old(Verdict()).Blocked? || !allowed
                         then Refused else Committed
      ensures outcome == Refused ==> rows == old(rows) && amountPaidCents == old(amountPaidCents)
      ensures outcome == Committed ==> rows == WithVoid(old(rows), index) && InStep()
    {
      if index >= |rows| || rows[index].voided {
        return Refused;
      }
      var before := ResolveAppointmentPaymentLedger(Input(amountPaidCents, rows, Some(salonId), status, paymentStatus));
      if before.Blocked? || !allowed {
        return Refused;
      }
      assert rows[index] in rows;
      var paid := Whole(before.ledgerPaymentsCents - rows[index].amountCents.n);
      var rowsAfter := WithVoid(rows, index);
      LiveSumAfterVoid(rows, index);
      var after := ResolveAppointmentPaymentLedger(Input(Some(paid), rowsAfter, Some(salonId), status, paymentStatus));
      if after.Blocked? {
        return RolledBack;
      }
      rows, amountPaidCents := rowsAfter, Some(paid);
      return Committed;
    }
  }
}
