/** The one-pass rule that the appointment backfill must implement. */
module BackfillSpec {
  import opened Wrappers

  type ClientId = nat

  datatype Appointment = Appointment(id: nat, salonId: string, clientPhone: Option<string>, createdAt: int,
                                     salonClientId: Option<ClientId>)

  datatype SalonClient = SalonClient(id: ClientId, salonId: string, phone: string)

  // ---- Phones ----

  predicate IsDigit(c: char) { '0' <= c <= '9' }

  function Digits(s: string): string {
    if s == [] then [] else (if IsDigit(s[0]) then [s[0]] else []) + Digits(s[1..])
  }

  function NormalizePhone(phone: string): Option<string> {
    var digits := Digits(phone);
    if |digits| == 11 && digits[0] == '1' then Some(digits[1..])
    else if |digits| == 10 then Some(digits)
    else None
  }

  lemma {:induction false} DigitsKeepDigits(s: string)
    ensures forall k :: 0 <= k < |Digits(s)| ==> IsDigit(Digits(s)[k])
    ensures (forall k :: 0 <= k < |s| ==> IsDigit(s[k])) ==> Digits(s) == s
  {
    if s != [] {
      DigitsKeepDigits(s[1..]);
    }
  }

  /** A normalized phone is ten digits and normalizes to itself. */
  lemma NormalizedPhoneIsCanonical(phone: string)
    requires NormalizePhone(phone).Some?
    ensures var p := NormalizePhone(phone).value;
      |p| == 10 && (forall k :: 0 <= k < 10 ==> IsDigit(p[k])) && NormalizePhone(p) == Some(p)
  {
    DigitsKeepDigits(phone);
    DigitsKeepDigits(NormalizePhone(phone).value);
  }

  lemma {:induction false} DigitsConcat(s: string, t: string)
    ensures Digits(s + t) == Digits(s) + Digits(t)
  {
    if s == [] {
      assert s + t == t;
    } else {
      var rest, first := s[1..], if IsDigit(s[0]) then [s[0]] else [];
      DigitsConcat(rest, t);
      assert (s + t)[0] == s[0] && (s + t)[1..] == rest + t;
      assert Digits(s + t) == first + (Digits(rest) + Digits(t));
      assert first + (Digits(rest) + Digits(t)) == first + Digits(rest) + Digits(t);
    }
  }

  /** Digits and nothing else. */
  predicate AllDigits(s: string) { forall k :: 0 <= k < |s| ==> '0' <= s[k] <= '9' }

  /** What is no digit can stand anywhere in a phone and changes nothing. */
  lemma FormattingIsIgnored(before: string, c: char, after: string)
    requires !('0' <= c <= '9')
    ensures NormalizePhone(before + [c] + after) == NormalizePhone(before + after)
  {
    DigitsConcat(before + [c], after);
    DigitsConcat(before, [c]);
    DigitsConcat(before, after);
    assert Digits([c]) == [] && Digits(before) + [] == Digits(before);
  }

  /** Ten digits normalize to themselves, with or without the country code. */
  lemma TenDigitsNormalize(p: string)
    requires |p| == 10 && AllDigits(p)
    ensures NormalizePhone(p) == Some(p) && NormalizePhone("1" + p) == Some(p)
  {
    DigitsKeepDigits(p);
    DigitsKeepDigits("1" + p);
    assert ("1" + p)[1..] == p;
  }

  /** Any other number of digits, or eleven that do not start with the country code, is no phone. */
  lemma OtherNumbersAreRefused(digits: string)
    requires AllDigits(digits) && |digits| != 10 && !(|digits| == 11 && digits[0] == '1')
    ensures NormalizePhone(digits) == None
  {
    DigitsKeepDigits(digits);
  }

  /** The digits of the phone are these ten, with or without the country code. */
  predicate Reads(phone: string, p: string) {
    |p| == 10 && AllDigits(p) && (Digits(phone) == p || Digits(phone) == "1" + p)
  }

  lemma NormalizesIff(phone: string, p: string)
    ensures NormalizePhone(phone) == Some(p) <==> Reads(phone, p)
  {
    DigitsKeepDigits(phone);
    var digits := Digits(phone);
    if |digits| == 11 && digits[0] == '1' {
      assert digits == "1" + digits[1..];
    }
  }

  /** The lookup key of the batch. */
  function MapKey(salonId: string, phone: string): string { salonId + ":" + phone }

  /** Ten-character phones make the key unambiguous, whatever the salon id contains. */
  lemma MapKeyIsInjective(salon: string, phone: string, salon': string, phone': string)
    requires |phone| == 10 && |phone'| == 10 && MapKey(salon, phone) == MapKey(salon', phone')
    ensures salon == salon' && phone == phone'
  {
    var key := MapKey(salon, phone);
    assert |key| == |salon| + 11 && |key| == |salon'| + 11;
    assert salon == key[..|salon|] && salon' == key[..|salon'|];
    assert phone == key[|salon| + 1..] && phone' == key[|salon'| + 1..];
  }

  // ---- The rule ----

  /** The lowest id among the clients of the salon with exactly this phone. */
  function LowestClient(clients: seq<SalonClient>, salonId: string, phone: string): Option<ClientId> {
    if clients == [] then None
    else
      var rest := LowestClient(clients[1..], salonId, phone);
      if clients[0].salonId != salonId || clients[0].phone != phone then rest
      else if rest.Some? && rest.value <= clients[0].id then rest
      else Some(clients[0].id)
  }

  lemma {:induction false} LowestClientIsLowest(clients: seq<SalonClient>, salonId: string, phone: string)
    ensures LowestClient(clients, salonId, phone).None?
        <==> forall c :: c in clients ==> c.salonId != salonId || c.phone != phone
    ensures LowestClient(clients, salonId, phone).Some? ==>
              var id := LowestClient(clients, salonId, phone).value;
              && SalonClient(id, salonId, phone) in clients
              && forall c :: c in clients && c.salonId == salonId && c.phone == phone ==> id <= c.id
  {
    if clients != [] {
      LowestClientIsLowest(clients[1..], salonId, phone);
      assert forall c :: c in clients <==> c == clients[0] || c in clients[1..];
    }
  }

  datatype UnmatchedReason = NoPhone | InvalidPhone | NoSalonClientMatch

  datatype Outcome = Matched(client: ClientId) | Unmatched(reason: UnmatchedReason)

  function Classify(clients: seq<SalonClient>, a: Appointment): Outcome {
    if a.clientPhone.None? || a.clientPhone.value == "" then Unmatched(NoPhone)
    else
      var phone := NormalizePhone(a.clientPhone.value);
      if phone.None? then Unmatched(InvalidPhone)
      else
        var client := LowestClient(clients, a.salonId, phone.value);
        if client.None? then Unmatched(NoSalonClientMatch) else Matched(client.value)
  }

  /** What the pass leaves of one row. */
  function Linked(clients: seq<SalonClient>, a: Appointment): Appointment {
    if a.salonClientId.Some? then a
    else
      match Classify(clients, a)
      case Matched(c) => a.(salonClientId := Some(c))
      case Unmatched(_) => a
  }

  function OnePass(clients: seq<SalonClient>, table: seq<Appointment>): (after: seq<Appointment>)
    ensures |after| == |table|
    ensures forall i :: 0 <= i < |table| ==> after[i] == Linked(clients, table[i])
  {
    seq(|table|, (i: int) requires 0 <= i < |table| => Linked(clients, table[i]))
  }

  /** The client is the one of lowest id among those of the row's salon that have exactly the number the row's phone
      reads. */
  ghost predicate IsHis(clients: seq<SalonClient>, a: Appointment, c: ClientId) {
    && a.clientPhone.Some?
    && exists p :: Reads(a.clientPhone.value, p) && SalonClient(c, a.salonId, p) in clients
         && forall d :: d in clients && d.salonId == a.salonId && d.phone == p ==> c <= d.id
  }

  lemma MatchedIff(clients: seq<SalonClient>, a: Appointment, c: ClientId)
    ensures Classify(clients, a) == Matched(c) <==> IsHis(clients, a, c)
  {
    if a.clientPhone.Some? {
      var phone, p := a.clientPhone.value, NormalizePhone(a.clientPhone.value);
      if p.Some? {
        NormalizesIff(phone, p.value);
        LowestClientIsLowest(clients, a.salonId, p.value);
      }
      if q :| Reads(phone, q) && SalonClient(c, a.salonId, q) in clients
              && forall d :: d in clients && d.salonId == a.salonId && d.phone == q ==> c <= d.id {
        NormalizesIff(phone, q);
      }
    }
  }

  /** The row's phone reads a number that no client of its salon has. */
  ghost predicate HasUnknownNumber(clients: seq<SalonClient>, a: Appointment) {
    && a.clientPhone.Some?
    && exists p :: Reads(a.clientPhone.value, p) && forall c :: c in clients ==> c.salonId != a.salonId || c.phone != p
  }

  /** The reason of a row without a match: no phone, no number in it, or no client with the number. */
  lemma UnmatchedMeans(clients: seq<SalonClient>, a: Appointment)
    ensures Classify(clients, a) == Unmatched(NoPhone) <==> a.clientPhone.None? || a.clientPhone.value == ""
    ensures Classify(clients, a) == Unmatched(InvalidPhone) <==>
            a.clientPhone.Some? && a.clientPhone.value != "" && forall p :: !Reads(a.clientPhone.value, p)
    ensures Classify(clients, a) == Unmatched(NoSalonClientMatch) <==> HasUnknownNumber(clients, a)
  {
    if a.clientPhone.Some? {
      var phone, p := a.clientPhone.value, NormalizePhone(a.clientPhone.value);
      if p.Some? {
        NormalizesIff(phone, p.value);
        LowestClientIsLowest(clients, a.salonId, p.value);
      }
      forall q | Reads(phone, q)
        ensures p == Some(q)
      {
        NormalizesIff(phone, q);
      }
    }
  }

  /** The whole pass, row by row: a linked row stays as it is, an unlinked one is given its client if it has one, and
      nothing else of it changes. */
  lemma PassLinksHisClient(clients: seq<SalonClient>, table: seq<Appointment>, i: nat, c: ClientId)
    requires i < |table|
    ensures var a, after := table[i], OnePass(clients, table)[i];
      && after == a.(salonClientId := after.salonClientId)
      && (after.salonClientId == Some(c) <==>
          a.salonClientId == Some(c) || (a.salonClientId == None && IsHis(clients, a, c)))
  {
    MatchedIff(clients, table[i], c);
  }

  /** Rows of a salon whose phones read the same number are linked alike, however they are written. */
  lemma SameNumberLinkedAlike(clients: seq<SalonClient>, table: seq<Appointment>, i: nat, j: nat, p: string)
    requires i < |table| && j < |table|
    requires var a, b := table[i], table[j];
      && a.salonId == b.salonId && a.salonClientId == b.salonClientId
      && a.clientPhone.Some? && b.clientPhone.Some?
      && Reads(a.clientPhone.value, p) && Reads(b.clientPhone.value, p)
    ensures OnePass(clients, table)[i].salonClientId == OnePass(clients, table)[j].salonClientId
  {
    NormalizesIff(table[i].clientPhone.value, p);
    NormalizesIff(table[j].clientPhone.value, p);
  }

  /** The rows the filter of the loop selects, in table order. */
  function Unlinked(table: seq<Appointment>): seq<Appointment> {
    if table == [] then []
    else if table[0].salonClientId.None? then [table[0]] + Unlinked(table[1..])
    else Unlinked(table[1..])
  }

  datatype UnmatchedEntry = UnmatchedEntry(appointmentId: nat, reason: UnmatchedReason)

  /** The report of the pass: one entry per unlinked row without a match, in order. */
  function UnmatchedIn(clients: seq<SalonClient>, rows: seq<Appointment>): seq<UnmatchedEntry> {
    if rows == [] then []
    else
      UnmatchedIn(clients, rows[..|rows| - 1]) +
      (match Classify(clients, rows[|rows| - 1])
       case Matched(_) => []
       case Unmatched(r) => [UnmatchedEntry(rows[|rows| - 1].id, r)])
  }

  lemma {:induction false} UnlinkedConcat(s: seq<Appointment>, t: seq<Appointment>)
    ensures Unlinked(s + t) == Unlinked(s) + Unlinked(t)
  {
    if s == [] {
      assert s + t == t;
    } else {
      var rest := s[1..];
      UnlinkedConcat(rest, t);
      assert (s + t)[1..] == rest + t && (s + t)[0] == s[0];
    }
  }

  lemma OnePassConcat(clients: seq<SalonClient>, s: seq<Appointment>, t: seq<Appointment>)
    ensures OnePass(clients, s + t) == OnePass(clients, s) + OnePass(clients, t)
  {
  }

  lemma {:induction false} UnlinkedMembers(s: seq<Appointment>)
    ensures forall a :: a in Unlinked(s) <==> a in s && a.salonClientId.None?
    ensures |Unlinked(s)| <= |s|
  {
    if s != [] {
      UnlinkedMembers(s[1..]);
      assert forall a :: a in s <==> a == s[0] || a in s[1..];
    }
  }

  /** The rule is settled after one pass: a second pass leaves the table alone and finds nothing to link. */
  lemma {:induction false} SecondPassIsIdle(clients: seq<SalonClient>, table: seq<Appointment>)
    ensures OnePass(clients, OnePass(clients, table)) == OnePass(clients, table)
    ensures forall a :: a in Unlinked(OnePass(clients, table)) ==> a in table && Classify(clients, a).Unmatched?
  {
    var after := OnePass(clients, table);
    UnlinkedMembers(after);
    forall a | a in Unlinked(after)
      ensures a in table && Classify(clients, a).Unmatched?
    {
      var i :| 0 <= i < |after| && after[i] == a;
      assert a == Linked(clients, table[i]);
    }
  }

  /** A run that stopped after any number of rows can simply be run again. */
  lemma RerunCompletesPartialPass(clients: seq<SalonClient>, behind: seq<Appointment>, ahead: seq<Appointment>)
    ensures OnePass(clients, OnePass(clients, behind) + ahead) == OnePass(clients, behind + ahead)
  {
    SecondPassIsIdle(clients, behind);
    OnePassConcat(clients, OnePass(clients, behind), ahead);
    OnePassConcat(clients, behind, ahead);
  }

  lemma {:induction false} UnmatchedConcat(clients: seq<SalonClient>, s: seq<Appointment>, t: seq<Appointment>)
    ensures UnmatchedIn(clients, s + t) == UnmatchedIn(clients, s) + UnmatchedIn(clients, t)
  {
    if t == [] {
      assert s + t == s;
    } else {
      var rows, most := s + t, t[..|t| - 1];
      UnmatchedConcat(clients, s, most);
      assert rows[..|rows| - 1] == s + most && rows[|rows| - 1] == t[|t| - 1];
    }
  }

  /** The report is about exactly these rows, in this order. */
  ghost predicate Reports(entries: seq<UnmatchedEntry>, rows: seq<Appointment>) {
    |entries| == |rows| && forall k :: 0 <= k < |rows| ==> entries[k].appointmentId == rows[k].id
  }

  /** The integrity check after a run: the rows still unlinked are the rows reported unmatched. */
  lemma {:induction false} RemainingRowsAreReported(clients: seq<SalonClient>, table: seq<Appointment>)
    ensures Reports(UnmatchedIn(clients, Unlinked(table)), Unlinked(OnePass(clients, table)))
  {
    if table != [] {
      RemainingRowsAreReported(clients, table[1..]);
      var first := if table[0].salonClientId.None? then [table[0]] else [];
      UnmatchedConcat(clients, first, Unlinked(table[1..]));
      assert Unlinked(table) == first + Unlinked(table[1..]);
      assert first != [] ==> first[..0] == [];
      assert OnePass(clients, table)[1..] == OnePass(clients, table[1..]);
      assert Unlinked(OnePass(clients, table))
          == (if Linked(clients, table[0]).salonClientId.None? then [Linked(clients, table[0])] else [])
             + Unlinked(OnePass(clients, table[1..]));
    }
  }

  /** A run over a finished table links nothing: every row it visits is unmatched. */
  lemma SecondPassLinksNothing(clients: seq<SalonClient>, table: seq<Appointment>)
    ensures var again := Unlinked(OnePass(clients, table)); |UnmatchedIn(clients, again)| == |again|
  {
    SecondPassIsIdle(clients, table);
    RemainingRowsAreReported(clients, OnePass(clients, table));
  }

  // ---- The queries ----

  datatype Cursor = Cursor(createdAt: int, id: nat)

  predicate After(a: Appointment, c: Cursor) {
    a.createdAt > c.createdAt || (a.createdAt == c.createdAt && a.id > c.id)
  }

  predicate InOrder(a: Appointment, b: Appointment) {
    a.createdAt < b.createdAt || (a.createdAt == b.createdAt && a.id < b.id)
  }

  /** The table in the order (created_at, id), a strict total order on its rows. */
  ghost predicate Sorted(table: seq<Appointment>) {
    forall i, j :: 0 <= i < j < |table| ==> InOrder(table[i], table[j]) && table[i].id != table[j].id
  }

  /** SELECT ... WHERE salon_client_id IS NULL AND (created_at, id) > cursor ORDER BY created_at, id */
  function Selected(table: seq<Appointment>, cursor: Option<Cursor>): seq<Appointment> {
    if table == [] then []
    else if table[0].salonClientId.None? && (cursor.None? || After(table[0], cursor.value))
    then [table[0]] + Selected(table[1..], cursor)
    else Selected(table[1..], cursor)
  }

  function Limit<T>(s: seq<T>, n: nat): seq<T> { if |s| <= n then s else s[..n] }

  /** SELECT DISTINCT ON (phone) ... WHERE salon_id = salon AND phone = ANY(phones) ORDER BY phone, id */
  function QueryClients(clients: seq<SalonClient>, salonId: string, phones: seq<string>): seq<SalonClient> {
    if phones == [] then []
    else
      (match LowestClient(clients, salonId, phones[0])
       case None => []
       case Some(id) => [SalonClient(id, salonId, phones[0])])
      + QueryClients(clients, salonId, phones[1..])
  }

  lemma {:induction false} QueryFindsLowest(clients: seq<SalonClient>, salonId: string, phones: seq<string>)
    ensures forall c :: c in QueryClients(clients, salonId, phones) <==>
              c.salonId == salonId && c.phone in phones && LowestClient(clients, salonId, c.phone) == Some(c.id)
  {
    if phones != [] {
      QueryFindsLowest(clients, salonId, phones[1..]);
      assert forall p :: p in phones <==> p == phones[0] || p in phones[1..];
    }
  }

  /** UPDATE appointment SET salon_client_id = client WHERE id = id AND salon_client_id IS NULL */
  function Update(table: seq<Appointment>, id: nat, client: ClientId): (after: seq<Appointment>)
    ensures |after| == |table|
    ensures forall i :: 0 <= i < |table| ==>
              after[i] == if table[i].id == id && table[i].salonClientId.None?
                  then table[i].(salonClientId := Some(client)) else table[i]
  {
    seq(|table|, (i: int) requires 0 <= i < |table| =>
          if table[i].id == id && table[i].salonClientId.None? then table[i].(salonClientId := Some(client))
              else table[i])
  }

  /** Behind the cursor nothing is selected; ahead of it every unlinked row is. */
  lemma {:induction false} SelectedSkipsBehind(behind: seq<Appointment>, ahead: seq<Appointment>,
                                               cursor: Option<Cursor>)
    requires cursor.Some? ==> forall a :: a in behind ==> !After(a, cursor.value)
    requires cursor.Some? ==> forall a :: a in ahead ==> After(a, cursor.value)
    requires cursor.None? ==> behind == []
    ensures Selected(behind + ahead, cursor) == Unlinked(ahead)
  {
    if behind != [] {
      var all := behind + ahead;
      SelectedSkipsBehind(behind[1..], ahead, cursor);
      assert all[1..] == behind[1..] + ahead && all[0] == behind[0] && behind[0] in behind;
    } else {
      assert behind + ahead == ahead;
      SelectedAhead(ahead, cursor);
    }
  }

  lemma {:induction false} SelectedAhead(ahead: seq<Appointment>, cursor: Option<Cursor>)
    requires cursor.Some? ==> forall a :: a in ahead ==> After(a, cursor.value)
    ensures Selected(ahead, cursor) == Unlinked(ahead)
  {
    if ahead != [] {
      assert ahead[0] in ahead && forall a :: a in ahead[1..] ==> a in ahead;
      SelectedAhead(ahead[1..], cursor);
    }
  }

  /** `b` is the unlinked rows of `head`, and the last row of `head` is one of them. */
  ghost predicate IsBatch(head: seq<Appointment>, b: seq<Appointment>) {
    && b == Unlinked(head)
    && (b == [] ==> head == [])
    && (b != [] ==> head != [] && head[|head| - 1] == b[|b| - 1])
  }

  /** One more row in front of a batch. */
  lemma BatchExtends(a: Appointment, head: seq<Appointment>, b: seq<Appointment>)
    requires IsBatch(head, b)
    ensures a.salonClientId.None? ==> IsBatch([a] + head, [a] + b)
    ensures a.salonClientId.Some? && b != [] ==> IsBatch([a] + head, b)
  {
    assert ([a] + head)[1..] == head;
  }

  /** A batch is all the unlinked rows of some prefix. */
  lemma {:induction false} BatchIsPrefix(s: seq<Appointment>, limit: nat)
      returns (head: seq<Appointment>, rest: seq<Appointment>)
    ensures s == head + rest && IsBatch(head, Limit(Unlinked(s), limit))
  {
    head, rest := [], s;
    if s != [] && limit > 0 {
      var found := Unlinked(s[1..]);
      if s[0].salonClientId.None? {
        head, rest := BatchIsPrefix(s[1..], limit - 1);
        BatchExtends(s[0], head, Limit(found, limit - 1));
        assert Limit([s[0]] + found, limit) == [s[0]] + Limit(found, limit - 1);
        head := [s[0]] + head;
      } else if found != [] {
        head, rest := BatchIsPrefix(s[1..], limit);
        BatchExtends(s[0], head, Limit(found, limit));
        head := [s[0]] + head;
      }
    }
  }
}
