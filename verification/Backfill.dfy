/** The backfill script: keyset paging over a filter that its own updates shrink. */
module Backfill {
  import opened Wrappers
  import opened BackfillSpec

  const BATCH_SIZE := 500
  const MAX_PHONES_PER_BATCH := 1000

  datatype Processed = Processed(appt: Appointment, normalizedPhone: string, reason: Option<UnmatchedReason>)

  /** The first half of the classification, before any lookup. */
  function ProcessOf(a: Appointment): Processed {
    if a.clientPhone.None? || a.clientPhone.value == "" then Processed(a, "", Some(NoPhone))
    else
      var phone := NormalizePhone(a.clientPhone.value);
      if phone.None? then Processed(a, "", Some(InvalidPhone)) else Processed(a, phone.value, None)
  }

  /** The phones to look up per salon, salons in the order they were first seen. */
  datatype Lookups = Lookups(salons: seq<string>, phones: map<string, seq<string>>)

  predicate Covers(l: Lookups, p: Processed) {
    p.reason.None? ==> p.appt.salonId in l.phones && p.normalizedPhone in l.phones[p.appt.salonId]
  }

  ghost predicate TenCharacterPhones(l: Lookups) {
    && (forall s :: s in l.salons <==> s in l.phones)
    && (forall s, p :: s in l.phones && p in l.phones[s] ==> |p| == 10)
  }

  /** `existing.add(normalizedPhone)` on the set of the row's salon. */
  function AddLookup(l: Lookups, p: Processed): (l': Lookups)
    requires TenCharacterPhones(l) && p == ProcessOf(p.appt)
    ensures TenCharacterPhones(l') && Covers(l', p)
    ensures forall q :: Covers(l, q) ==> Covers(l', q)
  {
    if p.reason.Some? then l
    else
      NormalizedPhoneIsCanonical(p.appt.clientPhone.value);
      var salon, phone := p.appt.salonId, p.normalizedPhone;
      var existing := if salon in l.phones then l.phones[salon] else [];
      var extended := if phone in existing then existing else existing + [phone];
      Lookups(if salon in l.phones then l.salons else l.salons + [salon], l.phones[salon := extended])
  }

  method BuildLookups(batch: seq<Appointment>) returns (processed: seq<Processed>, l: Lookups)
    ensures |processed| == |batch|
    ensures forall k :: 0 <= k < |batch| ==> processed[k] == ProcessOf(batch[k]) && Covers(l, processed[k])
    ensures TenCharacterPhones(l)
  {
    processed, l := [], Lookups([], map[]);
    for k := 0 to |batch|
      invariant |processed| == k
      invariant forall j :: 0 <= j < k ==> processed[j] == ProcessOf(batch[j]) && Covers(l, processed[j])
      invariant TenCharacterPhones(l)
    {
      var p := ProcessOf(batch[k]);
      processed := processed + [p];
      l := AddLookup(l, p);
    }
  }

  /** Every entry of the lookup map is the lowest client of its salon and phone. */
  ghost predicate SoundMap(clients: seq<SalonClient>, m: map<string, ClientId>) {
    forall salon, phone :: |phone| == 10 && MapKey(salon, phone) in m
      ==> LowestClient(clients, salon, phone) == Some(m[MapKey(salon, phone)])
  }

  ghost predicate HasAll(clients: seq<SalonClient>, m: map<string, ClientId>, salon: string, phones: seq<string>) {
    forall p :: p in phones && LowestClient(clients, salon, p).Some? ==> MapKey(salon, p) in m
  }

  lemma HasAllConcat(clients: seq<SalonClient>, m: map<string, ClientId>, salon: string, s: seq<string>, t: seq<string>)
    ensures HasAll(clients, m, salon, s + t) <==> HasAll(clients, m, salon, s) && HasAll(clients, m, salon, t)
  {
    assert forall p :: p in s + t <==> p in s || p in t;
  }

  /** One query and the entries its rows add. */
  method LookUpChunk(clients: seq<SalonClient>, salon: string, chunk: seq<string>, m0: map<string, ClientId>)
    returns (m: map<string, ClientId>)
    requires SoundMap(clients, m0) && forall p :: p in chunk ==> |p| == 10
    ensures SoundMap(clients, m) && HasAll(clients, m, salon, chunk) && m0.Keys <= m.Keys
  {
    m := m0;
    var rows := QueryClients(clients, salon, chunk);
    QueryFindsLowest(clients, salon, chunk);
    for j := 0 to |rows|
      invariant SoundMap(clients, m) && m0.Keys <= m.Keys
      invariant forall k :: 0 <= k < j ==> MapKey(salon, rows[k].phone) in m
    {
      assert rows[j] in rows;
      m := Remember(clients, m, rows[j]);
    }
    forall p | p in chunk && LowestClient(clients, salon, p).Some?
      ensures MapKey(salon, p) in m
    {
      assert SalonClient(LowestClient(clients, salon, p).value, salon, p) in rows;
    }
  }

  method LookUpSalon(clients: seq<SalonClient>, salon: string, phones: seq<string>, m0: map<string, ClientId>)
    returns (m: map<string, ClientId>)
    requires SoundMap(clients, m0) && forall p :: p in phones ==> |p| == 10
    ensures SoundMap(clients, m) && HasAll(clients, m, salon, phones) && m0.Keys <= m.Keys
  {
    m := m0;
    var i := 0;
    while i < |phones|
      invariant 0 <= i <= |phones|
      invariant SoundMap(clients, m) && HasAll(clients, m, salon, phones[..i]) && m0.Keys <= m.Keys
    {
      var end := if i + MAX_PHONES_PER_BATCH <= |phones| then i + MAX_PHONES_PER_BATCH else |phones|;
      m := LookUpChunk(clients, salon, phones[i..end], m);
      HasAllConcat(clients, m, salon, phones[..i], phones[i..end]);
      assert phones[..end] == phones[..i] + phones[i..end];
      i := end;
    }
    assert phones[..i] == phones;
  }

  lemma KeyNamesOneClient(c: SalonClient)
    requires |c.phone| == 10
    ensures forall salon, phone | |phone| == 10 && MapKey(salon, phone) == MapKey(c.salonId, c.phone) ::
              salon == c.salonId && phone == c.phone
  {
    forall salon, phone | |phone| == 10 && MapKey(salon, phone) == MapKey(c.salonId, c.phone)
      ensures salon == c.salonId && phone == c.phone
    {
      MapKeyIsInjective(salon, phone, c.salonId, c.phone);
    }
  }

  /** `salonClientMap.set` for one query row. */
  function Remember(clients: seq<SalonClient>, m: map<string, ClientId>, c: SalonClient): (m': map<string, ClientId>)
    requires SoundMap(clients, m) && |c.phone| == 10 && LowestClient(clients, c.salonId, c.phone) == Some(c.id)
    ensures SoundMap(clients, m') && m'.Keys == m.Keys + {MapKey(c.salonId, c.phone)}
  {
    KeyNamesOneClient(c);
    m[MapKey(c.salonId, c.phone) := c.id]
  }

  /** The map answers exactly as the rule for every phone to look up. */
  ghost predicate Answers(clients: seq<SalonClient>, m: map<string, ClientId>, l: Lookups) {
    forall salon, p :: salon in l.phones && p in l.phones[salon] ==>
      LowestClient(clients, salon, p) == if MapKey(salon, p) in m then Some(m[MapKey(salon, p)]) else None
  }

  method LookUpClients(clients: seq<SalonClient>, l: Lookups) returns (m: map<string, ClientId>)
    requires TenCharacterPhones(l)
    ensures Answers(clients, m, l)
  {
    m := map[];
    for k := 0 to |l.salons|
      invariant SoundMap(clients, m)
      invariant forall j :: 0 <= j < k ==> HasAll(clients, m, l.salons[j], l.phones[l.salons[j]])
    {
      assert l.salons[k] in l.salons;
      ghost var before := m;
      m := LookUpSalon(clients, l.salons[k], l.phones[l.salons[k]], m);
      assert forall j :: 0 <= j < k ==> HasAll(clients, before, l.salons[j], l.phones[l.salons[j]]);
    }
    forall salon, p | salon in l.phones && p in l.phones[salon]
      ensures LowestClient(clients, salon, p) == if MapKey(salon, p) in m then Some(m[MapKey(salon, p)]) else None
    {
      var k :| 0 <= k < |l.salons| && l.salons[k] == salon;
      assert HasAll(clients, m, l.salons[k], l.phones[l.salons[k]]);
    }
  }

  /** How the batch decides about a row. */
  function Decision(p: Processed, m: map<string, ClientId>): Outcome {
    var key := MapKey(p.appt.salonId, p.normalizedPhone);
    if p.reason.Some? then Unmatched(p.reason.value)
    else if key in m then Matched(m[key])
    else Unmatched(NoSalonClientMatch)
  }

  lemma ProcessedClassifies(clients: seq<SalonClient>, m: map<string, ClientId>, l: Lookups, p: Processed)
    requires Answers(clients, m, l) && Covers(l, p) && p == ProcessOf(p.appt)
    ensures Classify(clients, p.appt) == Decision(p, m)
  {
  }

  /** The processed row stands for `a` and is decided as the rule does. */
  ghost predicate Decided(clients: seq<SalonClient>, a: Appointment, p: Processed, m: map<string, ClientId>) {
    p.appt == a && Classify(clients, a) == Decision(p, m)
  }

  ghost predicate AllDecided(clients: seq<SalonClient>, batch: seq<Appointment>, processed: seq<Processed>,
                             m: map<string, ClientId>) {
    && |processed| == |batch|
    && forall k {:trigger Decided(clients, batch[k], processed[k], m)} ::
         0 <= k < |batch| ==> Decided(clients, batch[k], processed[k], m)
  }

  /** The lookups of a batch decide each of its rows as the rule does. */
  method Prepare(clients: seq<SalonClient>, batch: seq<Appointment>)
      returns (processed: seq<Processed>, m: map<string, ClientId>)
    ensures |processed| == |batch|
    ensures AllDecided(clients, batch, processed, m)
  {
    var lookups;
    processed, lookups := BuildLookups(batch);
    m := LookUpClients(clients, lookups);
    forall k | 0 <= k < |batch|
      ensures Decided(clients, batch[k], processed[k], m)
    {
      ProcessedClassifies(clients, m, lookups, processed[k]);
    }
  }

  ghost predicate UniqueIds(table: seq<Appointment>) {
    forall i, j :: 0 <= i < j < |table| ==> table[i].id != table[j].id
  }

  /** The table after the rows of `done` were visited. */
  ghost function VisitIn(clients: seq<SalonClient>, table: seq<Appointment>,
                         done: seq<Appointment>): (after: seq<Appointment>)
    ensures |after| == |table|
    ensures forall i :: 0 <= i < |table| ==>
              after[i] == if table[i] in done then Linked(clients, table[i]) else table[i]
  {
    seq(|table|, (i: int) requires 0 <= i < |table| => if table[i] in done then Linked(clients, table[i]) else table[i])
  }

  lemma UpdateVisitsOne(clients: seq<SalonClient>, before: seq<Appointment>, done: seq<Appointment>, a: Appointment)
    requires UniqueIds(before) && a in before && a.salonClientId.None?
    ensures VisitIn(clients, before, done + [a]) ==
            match Classify(clients, a)
            case Matched(c) => Update(VisitIn(clients, before, done), a.id, c)
            case Unmatched(_) => VisitIn(clients, before, done)
  {
    var table := VisitIn(clients, before, done);
    var after := if Classify(clients, a).Matched? then Update(table, a.id, Classify(clients, a).client) else table;
    forall i | 0 <= i < |before|
      ensures after[i] == VisitIn(clients, before, done + [a])[i]
    {
      assert before[i].id == a.id ==> before[i] == a;
    }
    assert after == VisitIn(clients, before, done + [a]);
  }

  lemma VisitConcat(clients: seq<SalonClient>, s: seq<Appointment>, t: seq<Appointment>, done: seq<Appointment>)
    ensures VisitIn(clients, s + t, done) == VisitIn(clients, s, done) + VisitIn(clients, t, done)
  {
  }

  lemma VisitNone(clients: seq<SalonClient>, s: seq<Appointment>, done: seq<Appointment>)
    requires forall i :: 0 <= i < |s| ==> s[i] !in done
    ensures VisitIn(clients, s, done) == s
  {
  }

  lemma VisitUnlinked(clients: seq<SalonClient>, head: seq<Appointment>)
    ensures VisitIn(clients, head, Unlinked(head)) == OnePass(clients, head)
  {
    UnlinkedMembers(head);
    assert forall i :: 0 <= i < |head| ==> head[i] in head;
  }

  // ---- Where the loop stands: the rows of the initial table behind the cursor, and those ahead ----

  ghost predicate Progress(clients: seq<SalonClient>, dryRun: bool, behind: seq<Appointment>, ahead: seq<Appointment>,
                           table: seq<Appointment>) {
    table == (if dryRun then behind else OnePass(clients, behind)) + ahead
  }

  /** A run that stopped early committed the one-pass rule on the rows of a prefix. */
  ghost predicate Partway(clients: seq<SalonClient>, dryRun: bool, t0: seq<Appointment>, table: seq<Appointment>) {
    exists behind, ahead :: t0 == behind + ahead && Progress(clients, dryRun, behind, ahead, table)
  }

  ghost predicate CursorAt(behind: seq<Appointment>, cursor: Option<Cursor>) {
    if behind == [] then cursor == None
    else cursor == Some(Cursor(behind[|behind| - 1].createdAt, behind[|behind| - 1].id))
  }

  /** Rows with the same keys as the rows behind the cursor are not after it. */
  lemma CursorSplits(behind: seq<Appointment>, now: seq<Appointment>, ahead: seq<Appointment>, cursor: Option<Cursor>)
    requires Sorted(behind + ahead) && CursorAt(behind, cursor)
    requires |now| == |behind|
    requires forall i {:trigger now[i]} {:trigger behind[i]} :: 0 <= i < |behind| ==>
                now[i].id == behind[i].id && now[i].createdAt == behind[i].createdAt
    ensures UniqueIds(now + ahead)
    ensures behind == [] <==> cursor == None
    ensures cursor.Some? ==> forall i :: 0 <= i < |now| ==> !After(now[i], cursor.value)
    ensures cursor.Some? ==> forall i :: 0 <= i < |ahead| ==> After(ahead[i], cursor.value)
  {
    var t0, table := behind + ahead, now + ahead;
    var n := |behind|;
    assert forall i :: 0 <= i < |t0| ==> table[i].id == t0[i].id;
    if n > 0 {
      forall i | 0 <= i < |now|
        ensures !After(now[i], cursor.value)
      {
        assert t0[i] == behind[i] && t0[n - 1] == behind[n - 1];
        assert i < n - 1 ==> InOrder(t0[i], t0[n - 1]);
      }
      forall i | 0 <= i < |ahead|
        ensures After(ahead[i], cursor.value)
      {
        assert ahead[i] == t0[n + i] && InOrder(t0[n - 1], t0[n + i]);
      }
    }
  }

  /** Whatever was written behind the cursor, the next fetch sees the initial table. */
  lemma FetchLooksAhead(clients: seq<SalonClient>, dryRun: bool, behind: seq<Appointment>, ahead: seq<Appointment>,
                        table: seq<Appointment>, cursor: Option<Cursor>)
    requires Sorted(behind + ahead) && Progress(clients, dryRun, behind, ahead, table) && CursorAt(behind, cursor)
    ensures Selected(table, cursor) == Unlinked(ahead)
    ensures UniqueIds(table)
  {
    var now := if dryRun then behind else OnePass(clients, behind);
    CursorSplits(behind, now, ahead, cursor);
    SelectedSkipsBehind(now, ahead, cursor);
  }

  /** Visiting a batch moves its rows from ahead to behind. */
  lemma BatchAdvances(clients: seq<SalonClient>, behind: seq<Appointment>, head: seq<Appointment>,
                      rest: seq<Appointment>,
                      table: seq<Appointment>)
    requires Progress(clients, false, behind, head + rest, table) && UniqueIds(table)
    ensures Progress(clients, false, behind + head, rest, VisitIn(clients, table, Unlinked(head)))
  {
    var done, batch := OnePass(clients, behind), Unlinked(head);
    DisjointSegments(done, head, rest);
    VisitSegments(clients, done, head, rest);
    OnePassConcat(clients, behind, head);
  }

  lemma VisitSegments(clients: seq<SalonClient>, done: seq<Appointment>, head: seq<Appointment>, rest: seq<Appointment>)
    requires forall i :: 0 <= i < |done| ==> done[i] !in Unlinked(head)
    requires forall i :: 0 <= i < |rest| ==> rest[i] !in Unlinked(head)
    ensures VisitIn(clients, done + (head + rest), Unlinked(head)) == done + OnePass(clients, head) + rest
  {
    var batch := Unlinked(head);
    VisitConcat(clients, done, head + rest, batch);
    VisitConcat(clients, head, rest, batch);
    VisitNone(clients, done, batch);
    VisitUnlinked(clients, head);
    VisitNone(clients, rest, batch);
  }

  lemma DisjointSegments(done: seq<Appointment>, head: seq<Appointment>, rest: seq<Appointment>)
    requires UniqueIds(done + (head + rest))
    ensures forall i :: 0 <= i < |done| ==> done[i] !in Unlinked(head)
    ensures forall i :: 0 <= i < |rest| ==> rest[i] !in Unlinked(head)
  {
    var table := done + (head + rest);
    UnlinkedMembers(head);
    assert forall i :: 0 <= i < |done| ==> table[i] == done[i];
    assert forall j :: 0 <= j < |head| ==> table[|done| + j] == head[j];
    assert forall k :: 0 <= k < |rest| ==> table[|done| + |head| + k] == rest[k];
  }

  lemma BatchIsInTable(now: seq<Appointment>, head: seq<Appointment>, rest: seq<Appointment>)
    ensures forall a :: a in Unlinked(head) ==> a in now + (head + rest) && a.salonClientId.None?
  {
    UnlinkedMembers(head);
  }

  /** The last row of a batch is where the rows behind the next cursor end. */
  lemma CursorMoves(behind: seq<Appointment>, head: seq<Appointment>, rest: seq<Appointment>, batch: seq<Appointment>)
    requires IsBatch(head, batch) && batch != []
    ensures CursorAt(behind + head, Some(Cursor(batch[|batch| - 1].createdAt, batch[|batch| - 1].id)))
    ensures behind + (head + rest) == (behind + head) + rest && |rest| < |head + rest|
  {
    assert (behind + head)[|behind + head| - 1] == head[|head| - 1];
  }

  /** When nothing unlinked is ahead, the pass over the rows behind was the whole pass. */
  lemma NothingAhead(clients: seq<SalonClient>, behind: seq<Appointment>, ahead: seq<Appointment>)
    requires Unlinked(ahead) == []
    ensures OnePass(clients, behind) + ahead == OnePass(clients, behind + ahead)
    ensures Unlinked(behind) == Unlinked(behind + ahead)
  {
    UnlinkedConcat(behind, ahead);
    OnePassConcat(clients, behind, ahead);
    UnlinkedMembers(ahead);
    assert forall i :: 0 <= i < |ahead| ==> ahead[i] in ahead;
    assert OnePass(clients, ahead) == ahead;
  }

  lemma Longer(was: seq<Appointment>, batch: seq<Appointment>, k: nat, done: seq<Appointment>)
    requires k < |batch| && done == batch[..k]
    ensures was + done + [batch[k]] == was + (done + [batch[k]]) && done + [batch[k]] == batch[..k + 1]
  {
  }

  class Script {
    const clients: seq<SalonClient>
    var appointments: seq<Appointment>
    var totalProcessed: nat
    var totalUpdated: nat
    var batchCount: nat
    var unmatched: seq<UnmatchedEntry>
    /** The rows visited so far, in order. */
    ghost var visited: seq<Appointment>

    constructor (clients: seq<SalonClient>, appointments: seq<Appointment>)
      ensures this.clients == clients && this.appointments == appointments
    {
      this.clients, this.appointments := clients, appointments;
      totalProcessed, totalUpdated, batchCount, unmatched, visited := 0, 0, 0, [], [];
    }

    /** The counters say what the visited rows amount to. */
    ghost predicate Counted()
      reads this
    {
      && totalProcessed == |visited|
      && totalUpdated + |unmatched| == totalProcessed
      && unmatched == UnmatchedIn(clients, visited)
    }

    /** One row of the batch. */
    method LinkRow(dryRun: bool, p: Processed, salonClientMap: map<string, ClientId>)
      requires Counted()
      requires Classify(clients, p.appt) == Decision(p, salonClientMap)
      modifies this`appointments, this`totalProcessed, this`totalUpdated, this`unmatched, this`visited
      ensures Counted() && visited == old(visited) + [p.appt]
      ensures appointments == match Classify(clients, p.appt)
                              case Matched(c) =>
                                if dryRun then old(appointments) else Update(old(appointments), p.appt.id, c)
                              case Unmatched(_) => old(appointments)
    {
      totalProcessed := totalProcessed + 1;
      visited := visited + [p.appt];
      assert visited[..|visited| - 1] == old(visited);
      var key := MapKey(p.appt.salonId, p.normalizedPhone);
      if p.reason.Some? {
        unmatched := unmatched + [UnmatchedEntry(p.appt.id, p.reason.value)];
      } else if key !in salonClientMap {
        unmatched := unmatched + [UnmatchedEntry(p.appt.id, NoSalonClientMatch)];
      } else {
        if !dryRun {
          appointments := Update(appointments, p.appt.id, salonClientMap[key]);
        }
        totalUpdated := totalUpdated + 1;
      }
    }

    /** One more row, after the rows `done` of the table `before`. */
    method LinkNext(dryRun: bool, p: Processed, salonClientMap: map<string, ClientId>,
                    ghost a: Appointment, ghost before: seq<Appointment>, ghost done: seq<Appointment>)
      requires Counted() && UniqueIds(before) && a in before && a.salonClientId.None?
      requires appointments == if dryRun then before else VisitIn(clients, before, done)
      requires Decided(clients, a, p, salonClientMap)
      modifies this`appointments, this`totalProcessed, this`totalUpdated, this`unmatched, this`visited
      ensures Counted() && visited == old(visited) + [a]
      ensures appointments == if dryRun then before else VisitIn(clients, before, done + [a])
    {
      UpdateVisitsOne(clients, before, done, a);
      LinkRow(dryRun, p, salonClientMap);
    }

    /** The statements of one batch, up to its commit. */
    method LinkBatch(dryRun: bool, batch: seq<Appointment>)
      requires Counted() && UniqueIds(appointments)
      requires forall a :: a in batch ==> a in appointments && a.salonClientId.None?
      modifies this`appointments, this`totalProcessed, this`totalUpdated, this`unmatched, this`visited
      ensures Counted() && visited == old(visited) + batch
      ensures dryRun ==> appointments == old(appointments)
      ensures !dryRun ==> appointments == VisitIn(clients, old(appointments), batch)
    {
      ghost var before, was, done := appointments, visited, [];
      var processed, salonClientMap := Prepare(clients, batch);
      VisitNone(clients, before, []);
      for k := 0 to |processed|
        invariant done == batch[..k]
        invariant Counted() && visited == was + done
        invariant appointments == if dryRun then before else VisitIn(clients, before, done)
      {
        LinkNext(dryRun, processed[k], salonClientMap, batch[k], before, done);
        Longer(was, batch, k, done);
        done := done + [batch[k]];
      }
      assert batch[..|processed|] == batch;
    }

    /** The transaction of one batch, which `fails` or commits. */
    method CommitBatch(dryRun: bool, fails: bool, batch: seq<Appointment>,
                       ghost behind: seq<Appointment>, ghost head: seq<Appointment>, ghost rest: seq<Appointment>)
      requires Progress(clients, dryRun, behind, head + rest, appointments) && UniqueIds(appointments)
      requires IsBatch(head, batch)
      requires Counted() && visited == Unlinked(behind)
      modifies this`appointments, this`totalProcessed, this`totalUpdated, this`unmatched, this`visited
      ensures fails ==> appointments == old(appointments)
      ensures !fails ==> Progress(clients, dryRun, behind + head, rest, appointments)
      ensures !fails ==> Counted() && visited == Unlinked(behind + head)
    {
      var snapshot := appointments;
      BatchIsInTable(if dryRun then behind else OnePass(clients, behind), head, rest);
      UnlinkedConcat(behind, head);
      LinkBatch(dryRun, batch);
      if fails {
        appointments := snapshot;
      } else if dryRun {
        assert behind + (head + rest) == behind + head + rest;
      } else {
        BatchAdvances(clients, behind, head, rest, snapshot);
      }
    }

    /** One turn of the loop: fetch past the cursor, then link. */
    method NextBatch(dryRun: bool, fails: bool, cursor: Option<Cursor>, ghost behind: seq<Appointment>,
                     ghost ahead: seq<Appointment>)
      returns (cursor': Option<Cursor>, fetched: nat, ghost behind': seq<Appointment>, ghost ahead': seq<Appointment>)
      requires Sorted(behind + ahead) && Progress(clients, dryRun, behind, ahead, appointments) &&
                 CursorAt(behind, cursor)
      requires Counted() && visited == Unlinked(behind)
      modifies this`appointments, this`totalProcessed, this`totalUpdated, this`unmatched, this`visited
      ensures fetched == 0 ==>
                appointments == old(appointments) && Counted() && visited == old(visited) && Unlinked(ahead) == []
      ensures fetched > 0 && fails ==> appointments == old(appointments)
      ensures fetched > 0 && !fails ==>
                && behind' + ahead' == behind + ahead && |ahead'| < |ahead|
                && Progress(clients, dryRun, behind', ahead', appointments) && CursorAt(behind', cursor')
                && Counted() && visited == Unlinked(behind')
    {
      FetchLooksAhead(clients, dryRun, behind, ahead, appointments, cursor);
      var batch := Limit(Selected(appointments, cursor), BATCH_SIZE);
      fetched, cursor', behind', ahead' := |batch|, cursor, behind, ahead;
      if |batch| > 0 {
        var last := batch[|batch| - 1];
        cursor' := Some(Cursor(last.createdAt, last.id));
        ghost var head, rest := BatchIsPrefix(ahead, BATCH_SIZE);
        CursorMoves(behind, head, rest, batch);
        CommitBatch(dryRun, fails, batch, behind, head, rest);
        behind', ahead' := behind + head, rest;
      }
    }

    /**
     * The script's main loop. `failing` names the batch whose transaction fails, if any: that batch
     * rolls back and the script stops.
     */
    method Run(dryRun: bool, failing: Option<nat>) returns (completed: bool)
      requires Sorted(appointments)
      requires Counted() && visited == [] && batchCount == 0
      modifies this
      ensures completed ==>
                && appointments == (if dryRun then old(appointments) else OnePass(clients, old(appointments)))
                && visited == Unlinked(old(appointments))
                && Counted()
      ensures !completed ==> Partway(clients, dryRun, old(appointments), appointments)
      ensures failing == None ==> completed
    {
      ghost var t0 := appointments;
      ghost var behind: seq<Appointment>, ahead := [], t0;
      assert behind + ahead == t0;
      if |Unlinked(appointments)| == 0 {
        NothingAhead(clients, behind, ahead);
        return true;
      }
      var cursor: Option<Cursor> := None;
      while true
        invariant t0 == behind + ahead && Progress(clients, dryRun, behind, ahead, appointments) &&
                    CursorAt(behind, cursor)
        invariant Counted() && visited == Unlinked(behind)
        decreases |ahead|
      {
        batchCount := batchCount + 1;
        var fetched;
        ghost var behind', ahead';
        cursor, fetched, behind', ahead' := NextBatch(dryRun, failing == Some(batchCount), cursor, behind, ahead);
        if fetched == 0 {
          NothingAhead(clients, behind, ahead);
          return true;
        } else if failing == Some(batchCount) {
          return false;
        }
        behind, ahead := behind', ahead';
      }
    }
  }
}
