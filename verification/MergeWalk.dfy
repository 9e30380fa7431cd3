/** The merge-chain walk of the client lifecycle rehearsal: two recursive queries over the client table, the
    preflight counts drawn from one and the terminal map drawn from the other. */
module MergeWalk {
  import opened Wrappers

  const MAX_CHAIN_DEPTH := 16

  type ClientId = nat

  datatype Client = Client(salonId: nat, mergedInto: Option<ClientId>, archived: bool)

  type Clients = map<ClientId, Client>

  /** The row a same-salon join on the target id finds. */
  function Target(t: Clients, salonId: nat, id: ClientId): Option<Client> {
    if id in t && t[id].salonId == salonId then Some(t[id]) else None
  }

  // ---- The recursive queries ----

  /** `current` is absent when the left join found no target. */
  datatype WalkRow = WalkRow(salonId: nat, origin: ClientId, current: Option<ClientId>, next: Option<ClientId>,
                             archived: bool, visited: seq<ClientId>, depth: nat, cycle: bool, missing: bool)

  function Start(t: Clients, c: ClientId): WalkRow
    requires c in t
  {
    WalkRow(t[c].salonId, c, Some(c), t[c].mergedInto, t[c].archived, [c], 0, false, false)
  }

  predicate Extends(w: WalkRow) {
    w.next.Some? && !w.cycle && !w.missing && w.depth < MAX_CHAIN_DEPTH - 1
  }

  function Extend(t: Clients, w: WalkRow): WalkRow
    requires Extends(w)
  {
    var id := w.next.value;
    var target := Target(t, w.salonId, id);
    if target.Some?
    then WalkRow(w.salonId, w.origin, Some(id), target.value.mergedInto, target.value.archived,
                 w.visited + [id], w.depth + 1, id in w.visited, false)
    else WalkRow(w.salonId, w.origin, None, None, false, w.visited + [id], w.depth + 1, false, true)
  }

  /** The rows `merge_walk` produces in its k-th round: merged clients, then a left join. */
  ghost function MergeRound(t: Clients, k: nat): set<WalkRow> {
    if k == 0 then set c | c in t && t[c].mergedInto.Some? :: Start(t, c)
    else set w | w in MergeRound(t, k - 1) && Extends(w) :: Extend(t, w)
  }

  /** The rows `client_walk` produces in its k-th round: all clients, then an inner join. */
  ghost function ClientRound(t: Clients, k: nat): set<WalkRow> {
    if k == 0 then set c | c in t :: Start(t, c)
    else set w | w in ClientRound(t, k - 1) && Extends(w) && Target(t, w.salonId, w.next.value).Some? :: Extend(t, w)
  }

  /** All rows of the two queries; the depth bound leaves the later rounds empty. */
  ghost function MergeRows(t: Clients): set<WalkRow> {
    set k: nat, w | k < MAX_CHAIN_DEPTH && w in MergeRound(t, k) :: w
  }

  ghost function ClientRows(t: Clients): set<WalkRow> {
    set k: nat, w | k < MAX_CHAIN_DEPTH && w in ClientRound(t, k) :: w
  }

  // ---- What is drawn from them ----

  ghost function MissingTargetRows(t: Clients): nat {
    |set c | c in t && t[c].mergedInto.Some? && Target(t, t[c].salonId, t[c].mergedInto.value).None?|
  }

  ghost function CycleRows(t: Clients): nat {
    |set w | w in MergeRows(t) && w.cycle :: w.origin|
  }

  predicate TooDeep(w: WalkRow) { w.depth == MAX_CHAIN_DEPTH - 1 && w.next.Some? && !w.cycle && !w.missing }

  ghost function ExcessiveDepthRows(t: Clients): nat {
    |set w | w in MergeRows(t) && TooDeep(w) :: w.origin|
  }

  predicate EndsInactive(w: WalkRow) { w.next.None? && w.depth > 0 && w.archived && !w.cycle && !w.missing }

  ghost function InactiveTerminalRows(t: Clients): nat {
    |set w | w in MergeRows(t) && EndsInactive(w) :: w.origin|
  }

  /** All four counts are zero. */
  ghost predicate PreflightClean(t: Clients) {
    MissingTargetRows(t) == 0 && CycleRows(t) == 0 && ExcessiveDepthRows(t) == 0 && InactiveTerminalRows(t) == 0
  }

  predicate Terminates(w: WalkRow) { w.next.None? && !w.cycle }

  /** `terminal_client`: of each origin's terminating rows, the deepest. */
  ghost predicate TerminalClient(t: Clients, origin: ClientId, terminal: ClientId) {
    exists w :: w in ClientRows(t) && Terminates(w) && w.origin == origin && w.current == Some(terminal)
      && forall v :: v in ClientRows(t) && Terminates(v) && v.origin == origin && v.salonId == w.salonId
           ==> v.depth <= w.depth
  }

  // ---- The reference: following the pointers ----

  /** Where `n` same-salon hops along the merge pointers lead. */
  function Hop(t: Clients, c: ClientId, n: nat): Option<ClientId>
    requires c in t
    ensures Hop(t, c, n).Some? ==> Hop(t, c, n).value in t && t[Hop(t, c, n).value].salonId == t[c].salonId
  {
    if n == 0 then Some(c)
    else
      var x := Hop(t, c, n - 1);
      if x.None? || t[x.value].mergedInto.None? then None
      else if Target(t, t[c].salonId, t[x.value].mergedInto.value).None? then None
      else t[x.value].mergedInto
  }

  /** `n` hops lead to an unmerged client. */
  ghost predicate Reaches(t: Clients, c: ClientId, n: nat, x: ClientId) {
    c in t && Hop(t, c, n) == Some(x) && t[x].mergedInto.None?
  }

  lemma {:induction false} HopsCompose(t: Clients, c: ClientId, a: nat, b: nat)
    requires c in t && Hop(t, c, a).Some?
    ensures Hop(t, c, a + b) == Hop(t, Hop(t, c, a).value, b)
  {
    if b > 0 {
      HopsCompose(t, c, a, b - 1);
    }
  }

  /** The chain of a client ends at most once. */
  lemma TerminalIsUnique(t: Clients, c: ClientId, n: nat, x: ClientId, m: nat, y: ClientId)
    requires Reaches(t, c, n, x) && Reaches(t, c, m, y)
    ensures n == m && x == y
  {
    if n < m {
      HopsCompose(t, c, n, m - n);
      NoHopPastTheEnd(t, x, m - n);
    } else if m < n {
      HopsCompose(t, c, m, n - m);
      NoHopPastTheEnd(t, y, n - m);
    }
  }

  lemma {:induction false} NoHopPastTheEnd(t: Clients, x: ClientId, n: nat)
    requires x in t && t[x].mergedInto.None? && n > 0
    ensures Hop(t, x, n) == None
  {
    if n > 1 {
      NoHopPastTheEnd(t, x, n - 1);
    } else {
      assert Hop(t, x, 0) == Some(x);
    }
  }

  /** A chain that ends never visits a client twice before its end. */
  lemma NoRepeatBeforeTheEnd(t: Clients, c: ClientId, i: nat, j: nat, n: nat, x: ClientId)
    requires Reaches(t, c, n, x) && i < j <= n
    ensures Hop(t, c, i).Some? && Hop(t, c, j).Some? && Hop(t, c, i) != Hop(t, c, j)
  {
    HopsAreDownwardClosed(t, c, i, n);
    HopsAreDownwardClosed(t, c, j, n);
    if Hop(t, c, i) == Hop(t, c, j) {
      HopsCompose(t, c, i, n - j);
      HopsCompose(t, c, j, n - j);
      TerminalIsUnique(t, c, n, x, i + (n - j), x);
    }
  }

  lemma {:induction false} HopsAreDownwardClosed(t: Clients, c: ClientId, k: nat, n: nat)
    requires c in t && k <= n && Hop(t, c, n).Some?
    ensures Hop(t, c, k).Some?
    decreases n - k
  {
    if k < n {
      HopsAreDownwardClosed(t, c, k + 1, n);
    }
  }

  // ---- One origin's walk ----

  /** The row of one origin in round k of a left-join walk, if it has one. */
  function RowAt(t: Clients, c: ClientId, k: nat): Option<WalkRow>
    requires c in t
  {
    if k == 0 then Some(Start(t, c))
    else
      var w := RowAt(t, c, k - 1);
      if w.Some? && Extends(w.value) then Some(Extend(t, w.value)) else None
  }

  /** The row of round k is the k-th hop, with the whole path behind it, and its cycle flag says that the hop
      was visited before. */
  lemma {:induction false} RowFollowsHops(t: Clients, c: ClientId, k: nat)
    requires c in t && RowAt(t, c, k).Some?
    ensures var w := RowAt(t, c, k).value;
      && w.origin == c && w.salonId == t[c].salonId && w.depth == k && k < MAX_CHAIN_DEPTH && |w.visited| == k + 1
      && (w.missing <==> Hop(t, c, k).None?)
      && (!w.missing ==>
            && w.current == Hop(t, c, k)
            && w.next == t[w.current.value].mergedInto && w.archived == t[w.current.value].archived
            && (forall j :: 0 <= j <= k ==> Hop(t, c, j) == Some(w.visited[j]))
            && (w.cycle <==> exists j :: 0 <= j < k && Hop(t, c, j) == Hop(t, c, k)))
      && (w.missing ==> w.next.None? && !w.cycle && !w.archived)
  {
    if k > 0 {
      RowFollowsHops(t, c, k - 1);
      var was := RowAt(t, c, k - 1).value;
      var w := RowAt(t, c, k).value;
      assert forall j :: 0 <= j < k ==> w.visited[j] == was.visited[j];
      if !w.missing {
        assert w.visited[k] == was.next.value && Hop(t, c, k) == was.next;
        assert w.cycle <==> exists j :: 0 <= j < k && was.visited[j] == w.visited[k];
      }
    }
  }

  lemma {:induction false} MergeRoundIsRowAt(t: Clients, k: nat)
    ensures forall w :: w in MergeRound(t, k) <==>
              w.origin in t && t[w.origin].mergedInto.Some? && RowAt(t, w.origin, k) == Some(w)
  {
    if k > 0 {
      MergeRoundIsRowAt(t, k - 1);
      forall w: WalkRow | w.origin in t && t[w.origin].mergedInto.Some? && RowAt(t, w.origin, k) == Some(w)
        ensures w in MergeRound(t, k)
      {
        var was := RowAt(t, w.origin, k - 1).value;
        assert was in MergeRound(t, k - 1) && Extends(was) && Extend(t, was) == w;
      }
    }
  }

  lemma {:induction false} ClientRoundIsRowAt(t: Clients, k: nat)
    ensures forall w :: w in ClientRound(t, k) <==> w.origin in t && RowAt(t, w.origin, k) == Some(w) && !w.missing
  {
    if k > 0 {
      ClientRoundIsRowAt(t, k - 1);
      forall w: WalkRow | w.origin in t && RowAt(t, w.origin, k) == Some(w) && !w.missing
        ensures w in ClientRound(t, k)
      {
        var was := RowAt(t, w.origin, k - 1).value;
        assert was in ClientRound(t, k - 1) && Extends(was) && Extend(t, was) == w;
      }
    }
  }

  lemma LaterRoundsAreEmpty(t: Clients, k: nat)
    requires k >= MAX_CHAIN_DEPTH
    ensures MergeRound(t, k) == {} && ClientRound(t, k) == {}
  {
    MergeRoundIsRowAt(t, k);
    ClientRoundIsRowAt(t, k);
    forall c | c in t
      ensures RowAt(t, c, k).None?
    {
      if RowAt(t, c, k).Some? {
        RowFollowsHops(t, c, k);
      }
    }
  }

  // ---- The theorem ----

  /** A chain that ends within the depth limit has a row for each of its hops and none is flagged. */
  lemma {:induction false} EndingChainIsWalked(t: Clients, c: ClientId, n: nat, x: ClientId, k: nat)
    requires Reaches(t, c, n, x) && k <= n < MAX_CHAIN_DEPTH
    ensures RowAt(t, c, k).Some? && !RowAt(t, c, k).value.missing && !RowAt(t, c, k).value.cycle
    ensures RowAt(t, c, k).value.next.Some? <==> k < n
  {
    if k > 0 {
      EndingChainIsWalked(t, c, n, x, k - 1);
      RowFollowsHops(t, c, k - 1);
    }
    RowFollowsHops(t, c, k);
    HopsAreDownwardClosed(t, c, k, n);
    forall j | 0 <= j < k
      ensures Hop(t, c, j) != Hop(t, c, k)
    {
      NoRepeatBeforeTheEnd(t, c, j, k, n, x);
    }
    if k < n {
      HopsAreDownwardClosed(t, c, k + 1, n);
    }
  }

  /** A walk either ends at an unmerged client within the limit or stops at a row the preflight counts: a missing
      target, a repeated client, or the last depth with the chain still going. */
  lemma {:induction false} WalkEndsOrIsFlagged(t: Clients, c: ClientId, k: nat) returns (n: nat)
    requires c in t && k < MAX_CHAIN_DEPTH && RowAt(t, c, k).Some?
    ensures k <= n < MAX_CHAIN_DEPTH && RowAt(t, c, n).Some?
    ensures var w := RowAt(t, c, n).value;
      w.missing || w.cycle || TooDeep(w) || (!w.missing && w.next.None? && Reaches(t, c, n, w.current.value))
    decreases MAX_CHAIN_DEPTH - k
  {
    RowFollowsHops(t, c, k);
    var w := RowAt(t, c, k).value;
    if Extends(w) {
      n := WalkEndsOrIsFlagged(t, c, k + 1);
    } else {
      n := k;
    }
  }

  /** Every merged client's chain ends within 15 hops at an unarchived, unmerged client of its salon. */
  ghost predicate EveryChainEndsWell(t: Clients) {
    forall c :: c in t && t[c].mergedInto.Some? ==>
      exists n: nat, x :: 0 < n <= 15 && Reaches(t, c, n, x) && !t[x].archived
  }

  lemma EmptyImage(rows: set<WalkRow>, p: WalkRow -> bool)
    ensures |set w | w in rows && p(w) :: w.origin| == 0 <==> forall w :: w in rows ==> !p(w)
  {
    var image := set w | w in rows && p(w) :: w.origin;
    if w :| w in rows && p(w) {
      assert w.origin in image;
    } else {
      assert image == {};
    }
  }

  lemma CyclesAreZeroIff(t: Clients)
    ensures CycleRows(t) == 0 <==> forall w :: w in MergeRows(t) ==> !w.cycle
  {
    var cycle := (w: WalkRow) => w.cycle;
    EmptyImage(MergeRows(t), cycle);
    assert (set w | w in MergeRows(t) && w.cycle :: w.origin) == (set w | w in MergeRows(t) && cycle(w) :: w.origin);
  }

  lemma DepthsAreZeroIff(t: Clients)
    ensures ExcessiveDepthRows(t) == 0 <==> forall w :: w in MergeRows(t) ==> !TooDeep(w)
  {
    var deep := (w: WalkRow) => TooDeep(w);
    EmptyImage(MergeRows(t), deep);
    assert (set w | w in MergeRows(t) && TooDeep(w) :: w.origin) == (set w | w in MergeRows(t) && deep(w) :: w.origin);
  }

  lemma InactivesAreZeroIff(t: Clients)
    ensures InactiveTerminalRows(t) == 0 <==> forall w :: w in MergeRows(t) ==> !EndsInactive(w)
  {
    var inactive := (w: WalkRow) => EndsInactive(w);
    EmptyImage(MergeRows(t), inactive);
    assert (set w | w in MergeRows(t) && EndsInactive(w) :: w.origin)
        == (set w | w in MergeRows(t) && inactive(w) :: w.origin);
  }

  lemma MissingTargetsAreZeroIff(t: Clients)
    ensures MissingTargetRows(t) == 0
        <==> forall c :: c in t && t[c].mergedInto.Some? ==> Target(t, t[c].salonId, t[c].mergedInto.value).Some?
  {
    var missing := set c | c in t && t[c].mergedInto.Some? && Target(t, t[c].salonId, t[c].mergedInto.value).None?;
    assert forall c :: c in missing <==>
             c in t && t[c].mergedInto.Some? && Target(t, t[c].salonId, t[c].mergedInto.value).None?;
    if missing != {} {
      var c :| c in missing;
    }
  }

  lemma CleanMeansNoFlaggedRow(t: Clients)
    ensures PreflightClean(t) <==>
      && (forall c :: c in t && t[c].mergedInto.Some? ==> Target(t, t[c].salonId, t[c].mergedInto.value).Some?)
      && (forall w :: w in MergeRows(t) ==> !w.cycle && !TooDeep(w) && !EndsInactive(w))
  {
    CyclesAreZeroIff(t);
    DepthsAreZeroIff(t);
    InactivesAreZeroIff(t);
    MissingTargetsAreZeroIff(t);
  }

  /** The four counts are all zero exactly when every chain ends well. */
  lemma PreflightIsExact(t: Clients)
    ensures PreflightClean(t) <==> EveryChainEndsWell(t)
  {
    CleanMeansNoFlaggedRow(t);
    if PreflightClean(t) {
      forall c | c in t && t[c].mergedInto.Some?
        ensures exists n: nat, x :: 0 < n < MAX_CHAIN_DEPTH && Reaches(t, c, n, x) && !t[x].archived
      {
        CleanChainEndsWell(t, c);
      }
    }
    if EveryChainEndsWell(t) {
      forall c | c in t && t[c].mergedInto.Some?
        ensures Target(t, t[c].salonId, t[c].mergedInto.value).Some?
      {
        var n: nat, x :| 0 < n < MAX_CHAIN_DEPTH && Reaches(t, c, n, x);
        HopsAreDownwardClosed(t, c, 1, n);
        assert Hop(t, c, 0) == Some(c);
      }
      forall w | w in MergeRows(t)
        ensures !w.cycle && !TooDeep(w) && !EndsInactive(w)
      {
        var k :| 0 <= k < MAX_CHAIN_DEPTH && w in MergeRound(t, k);
        MergeRoundIsRowAt(t, k);
        WellEndingRowIsUnflagged(t, w, k);
      }
    }
  }

  lemma WellEndingRowIsUnflagged(t: Clients, w: WalkRow, k: nat)
    requires EveryChainEndsWell(t) && k < MAX_CHAIN_DEPTH
    requires w.origin in t && t[w.origin].mergedInto.Some? && RowAt(t, w.origin, k) == Some(w)
    ensures !w.cycle && !TooDeep(w) && !EndsInactive(w)
  {
    var c := w.origin;
    var n: nat, x :| 0 < n < MAX_CHAIN_DEPTH && Reaches(t, c, n, x) && !t[x].archived;
    RowFollowsHops(t, c, k);
    if k <= n {
      EndingChainIsWalked(t, c, n, x, k);
      if k == n {
        assert w.current == Some(x);
      }
    } else {
      EndingChainIsWalked(t, c, n, x, n);
      NoRowPast(t, c, n, k);
    }
  }

  lemma {:induction false} NoRowPast(t: Clients, c: ClientId, n: nat, k: nat)
    requires c in t && n < k && RowAt(t, c, n).Some? && !Extends(RowAt(t, c, n).value)
    ensures RowAt(t, c, k).None?
  {
    if n + 1 < k {
      NoRowPast(t, c, n, k - 1);
    }
  }

  lemma CleanChainEndsWell(t: Clients, c: ClientId)
    requires PreflightClean(t) && c in t && t[c].mergedInto.Some?
    ensures exists n: nat, x :: 0 < n < MAX_CHAIN_DEPTH && Reaches(t, c, n, x) && !t[x].archived
  {
    CleanMeansNoFlaggedRow(t);
    var n := WalkEndsOrIsFlagged(t, c, 0);
    MergeRoundIsRowAt(t, n);
    RowFollowsHops(t, c, n);
    var w := RowAt(t, c, n).value;
    assert w in MergeRound(t, n);
    assert Reaches(t, c, n, w.current.value);
  }

  /** On any table, `terminal_client` maps a client exactly to the unmerged client its chain reaches within the
      depth limit. */
  lemma TerminalClientIsTheChainEnd(t: Clients, c: ClientId, x: ClientId)
    requires c in t
    ensures TerminalClient(t, c, x) <==> exists n: nat :: n < MAX_CHAIN_DEPTH && Reaches(t, c, n, x)
  {
    forall k: nat
      ensures forall w :: w in ClientRound(t, k) <==> w.origin in t && RowAt(t, w.origin, k) == Some(w) && !w.missing
    {
      ClientRoundIsRowAt(t, k);
    }
    if TerminalClient(t, c, x) {
      var w :| w in ClientRows(t) && Terminates(w) && w.origin == c && w.current == Some(x);
      var k :| 0 <= k < MAX_CHAIN_DEPTH && w in ClientRound(t, k);
      RowFollowsHops(t, c, k);
      assert Reaches(t, c, k, x);
    }
    if n: nat :| n < MAX_CHAIN_DEPTH && Reaches(t, c, n, x) {
      EndingChainIsWalked(t, c, n, x, n);
      RowFollowsHops(t, c, n);
      var w := RowAt(t, c, n).value;
      assert w in ClientRound(t, n) && Terminates(w) && w.current == Some(x);
      forall v | v in ClientRows(t) && Terminates(v) && v.origin == c
        ensures v.depth <= w.depth
      {
        var k :| 0 <= k < MAX_CHAIN_DEPTH && v in ClientRound(t, k);
        RowFollowsHops(t, c, k);
        TerminalIsUnique(t, c, n, x, k, v.current.value);
      }
    }
  }

  /** When the four counts are zero, every client has exactly one terminal: the unmerged client of its salon that
      its chain reaches in at most 15 hops, unarchived as soon as a hop is taken, and `terminal_client` is it. */
  lemma CleanPreflightGivesTerminals(t: Clients, c: ClientId) returns (n: nat, x: ClientId)
    requires PreflightClean(t) && c in t
    ensures n < MAX_CHAIN_DEPTH && Reaches(t, c, n, x) && t[x].salonId == t[c].salonId
    ensures n > 0 ==> !t[x].archived
    ensures forall m: nat, y :: Reaches(t, c, m, y) ==> m == n && y == x
    ensures forall y :: TerminalClient(t, c, y) <==> y == x
  {
    if t[c].mergedInto.Some? {
      CleanChainEndsWell(t, c);
      n, x :| 0 < n < MAX_CHAIN_DEPTH && Reaches(t, c, n, x) && !t[x].archived;
    } else {
      n, x := 0, c;
    }
    forall m: nat, y | Reaches(t, c, m, y)
      ensures m == n && y == x
    {
      TerminalIsUnique(t, c, n, x, m, y);
    }
    forall y
      ensures TerminalClient(t, c, y) <==> y == x
    {
      TerminalClientIsTheChainEnd(t, c, y);
      assert Reaches(t, c, n, x);
    }
  }

  /** A cycle of any length, however long, makes one of the counts nonzero. */
  lemma CycleIsCounted(t: Clients, c: ClientId, length: nat)
    requires c in t && length > 0 && Hop(t, c, length) == Some(c)
    ensures !PreflightClean(t)
  {
    if PreflightClean(t) {
      var n, x := CleanPreflightGivesTerminals(t, c);
      HopsCompose(t, c, length, n);
      TerminalIsUnique(t, c, n, x, length + n, x);
    }
  }
}
