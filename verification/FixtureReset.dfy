/** The preview fixture script: apply and reset a fixed set of rows inside one transaction. */
module FixtureReset {
  import opened Wrappers
  import opened ForeignKeys

  /** `columns` are the foreign-key columns the row lists, null or not; `refs` those that are not null. */
  datatype FixtureRow = FixtureRow(columns: set<Edge>, refs: map<Edge, RowId>, cells: map<nat, nat>)

  type Fixture = map<RowId, FixtureRow>

  predicate IsTarget(t: Table) { !t.Other? }

  predicate IsLink(t: Table) { t.ServiceAddOn? || t.TechnicianServices? || t.AdminSalonMembership? }

  /** When the reset deletes the table: the tables of one rank are checked together. */
  function Rank(t: Table): nat {
    match t
    case ServiceAddOn | TechnicianServices | AdminSalonMembership => 0
    case Service | AddOn | Technician => 1
    case SalonLocation => 2
    case Salon | AdminUser => 3
    case Other(_) => 4
  }

  /** The attested schema: no edge points at a link table. */
  ghost predicate ValidSchema(schema: set<Edge>) {
    forall e :: e in schema ==> !IsLink(e.parent)
  }

  ghost predicate ValidFixture(schema: set<Edge>, f: Fixture) {
    && (forall id :: id in f ==> IsTarget(id.table) && f[id].refs.Keys <= f[id].columns)
    && (forall id, e :: id in f && e in f[id].refs ==>
        e in schema && e.child == id.table && e.parent == f[id].refs[e].table)
  }

  function RowsOf(f: Fixture, t: Table): set<RowId> {
    set id | id in f && id.table == t
  }

  // ---- Statements ----

  /** INSERT ... ON CONFLICT (key) DO UPDATE: the listed columns are set, the others kept. */
  function Upserted(db: Database, id: RowId, r: FixtureRow): Row {
    if id in db then Row((db[id].refs - r.columns) + r.refs, db[id].cells + r.cells) else Row(r.refs, r.cells)
  }

  function Overlay(f: Fixture, db: Database, ids: set<RowId>): Database
    requires ids <= f.Keys
  {
    map id | id in db.Keys + ids :: if id in ids then Upserted(db, id, f[id]) else db[id]
  }

  /** The foreign-key check of the statement. */
  predicate Resolved(f: Fixture, db: Database, ids: set<RowId>)
    requires ids <= f.Keys
  {
    forall id :: id in ids ==> forall e :: e in f[id].refs ==> f[id].refs[e] in db
  }

  function Upsert(f: Fixture, db: Database, t: Table): Option<Database> {
    var after := Overlay(f, db, RowsOf(f, t));
    if Resolved(f, after, RowsOf(f, t)) then Some(after) else None
  }

  /** The rows of the child table whose foreign key equals the key of some fixture row of the parent table. */
  function Referrers(f: Fixture, db: Database, e: Edge): set<RowId> {
    set id | id in db && id.table == e.child && e in db[id].refs && db[id].refs[e] in RowsOf(f, e.parent)
  }

  // ---- When a reset commits ----

  /**
   * Every reference to a fixture row comes from a fixture row that is deleted strictly earlier.
   * This says both that nothing outside the fixture uses it and that its own rows are layered.
   */
  ghost predicate Clear(f: Fixture, db: Database) {
    forall id, e :: id in db && e in db[id].refs && db[id].refs[e] in f ==>
      id in f && Rank(id.table) < Rank(db[id].refs[e].table)
  }

  /** Once the rows `gone` are deleted, no row refers to a fixture row of rank `k`. */
  ghost predicate Unreferenced(f: Fixture, db: Database, gone: set<RowId>, k: nat) {
    forall id, e :: id in db && id !in gone && e in db[id].refs ==>
      !(db[id].refs[e] in f && Rank(db[id].refs[e].table) == k)
  }

  /** Deleting one more table of the rank that is not referenced. */
  lemma DeleteStep(schema: set<Edge>, f: Fixture, db: Database, gone: set<RowId>, t: Table)
    requires WellFormed(schema, Without(db, gone)) && Unreferenced(f, db, gone, Rank(t))
    ensures Delete(Without(db, gone), RowsOf(f, t)) == Some(Without(db, gone + RowsOf(f, t)))
    ensures WellFormed(schema, Without(db, gone + RowsOf(f, t)))
  {
    DeleteUnreferenced(schema, Without(db, gone), RowsOf(f, t));
    assert Without(Without(db, gone), RowsOf(f, t)) == Without(db, gone + RowsOf(f, t));
  }

  lemma LinksAreUnreferenced(schema: set<Edge>, f: Fixture, db: Database)
    requires ValidSchema(schema) && WellFormed(schema, db)
    ensures Unreferenced(f, db, {}, 0)
  {
    forall id, e | id in db && e in db[id].refs
      ensures !(db[id].refs[e] in f && Rank(db[id].refs[e].table) == 0)
    {
      assert e in schema && e.parent == db[id].refs[e].table;
    }
  }

  /** The rows of the ranks below `k`. */
  function Below(f: Fixture, k: nat): set<RowId> {
    set id | id in f && Rank(id.table) < k
  }

  lemma StartOfReset(schema: set<Edge>, f: Fixture, db: Database)
    requires ValidSchema(schema) && WellFormed(schema, db)
    ensures Unreferenced(f, db, Below(f, 0), 0) && Without(db, Below(f, 0)) == db
  {
    LinksAreUnreferenced(schema, f, db);
    assert Below(f, 0) == {};
  }

  /** Deleting the tables of a rank, one after another, leaves the next rank's starting point. */
  lemma RanksAddUp(f: Fixture)
    ensures Below(f, 0) + RowsOf(f, ServiceAddOn) + RowsOf(f, TechnicianServices) + RowsOf(f, AdminSalonMembership)
         == Below(f, 1)
    ensures Below(f, 1) + RowsOf(f, Service) + RowsOf(f, AddOn) + RowsOf(f, Technician) == Below(f, 2)
    ensures Below(f, 2) + RowsOf(f, SalonLocation) == Below(f, 3)
    ensures Below(f, 3) + RowsOf(f, Salon) + RowsOf(f, AdminUser) == Below(f, 4)
  {
  }

  lemma EveryRowHasRank(schema: set<Edge>, f: Fixture)
    requires ValidFixture(schema, f)
    ensures Below(f, 4) == f.Keys
  {
  }

  /** The three checks, each made once the earlier ranks are gone, amount to `Clear`. */
  lemma ChecksAreClear(schema: set<Edge>, f: Fixture, db: Database)
    requires ValidSchema(schema) && ValidFixture(schema, f) && WellFormed(schema, db)
    ensures Clear(f, db) <==>
            && Unreferenced(f, db, Below(f, 1), 1)
            && Unreferenced(f, db, Below(f, 2), 2)
            && Unreferenced(f, db, Below(f, 3), 3)
  {
    if && Unreferenced(f, db, Below(f, 1), 1)
       && Unreferenced(f, db, Below(f, 2), 2)
       && Unreferenced(f, db, Below(f, 3), 3)
    {
      forall id, e | id in db && e in db[id].refs && db[id].refs[e] in f
        ensures id in f && Rank(id.table) < Rank(db[id].refs[e].table)
      {
        assert e in schema && e.parent == db[id].refs[e].table;
      }
    }
  }

  // ---- When an apply commits, and what a reset does to it ----

  /** The fixture's own references point at rows that are deleted strictly later. */
  ghost predicate Layered(f: Fixture) {
    forall id, e :: id in f && e in f[id].refs && f[id].refs[e] in f ==> Rank(id.table) < Rank(f[id].refs[e].table)
  }

  /**
   * On a database without fixture rows, apply adds exactly the fixture rows; a reset of the result
   * commits exactly when the fixture is layered, and then gives the database back.
   */
  lemma ResetUndoesApply(schema: set<Edge>, f: Fixture, db: Database)
    requires ValidFixture(schema, f) && WellFormed(schema, db) && db.Keys !! f.Keys
    ensures var applied := Overlay(f, db, f.Keys);
      && applied.Keys == db.Keys + f.Keys
      && (Clear(f, applied) <==> Layered(f))
      && Without(applied, f.Keys) == db
  {
    var applied := Overlay(f, db, f.Keys);
    assert forall id :: id in f ==> applied[id].refs == f[id].refs;
  }

  /**
   * On any database, apply gives every fixture row its listed cells and foreign keys, null ones included, keeps
   * what else a row already had, and alters no other row; applying again changes nothing.
   */
  lemma ApplySetsListedColumns(schema: set<Edge>, f: Fixture, db: Database, id: RowId)
    requires ValidFixture(schema, f)
    ensures var applied := Overlay(f, db, f.Keys);
      && Overlay(f, applied, f.Keys) == applied
      && (id !in f ==> (id in applied <==> id in db) && (id in db ==> applied[id] == db[id]))
      && (id in f ==>
            && id in applied
            && (forall e :: e in f[id].refs ==> e in applied[id].refs && applied[id].refs[e] == f[id].refs[e])
            && (forall e :: e in f[id].columns && e !in f[id].refs ==> e !in applied[id].refs)
            && (forall c :: c in f[id].cells ==> c in applied[id].cells && applied[id].cells[c] == f[id].cells[c])
            && (id in db ==>
                  && (forall e :: e in db[id].refs && e !in f[id].columns ==>
                      e in applied[id].refs && applied[id].refs[e] == db[id].refs[e])
                  && (forall c :: c in db[id].cells && c !in f[id].cells ==>
                      c in applied[id].cells && applied[id].cells[c] == db[id].cells[c])))
  {
    var applied := Overlay(f, db, f.Keys);
    forall k | k in applied
      ensures Overlay(f, applied, f.Keys)[k] == applied[k]
    {
      if k in f {
        UpsertTwice(db, applied, k, f[k]);
      }
    }
  }

  lemma UpsertTwice(db: Database, after: Database, id: RowId, r: FixtureRow)
    requires r.refs.Keys <= r.columns
    requires id in after && after[id] == Upserted(db, id, r)
    ensures Upserted(after, id, r) == after[id]
  {
    var once, twice := after[id], Upserted(after, id, r);
    assert twice.refs == once.refs;
    assert twice.cells == once.cells;
  }

  /** The place of the table among the upserts of apply. */
  function Place(t: Table): nat {
    match t
    case Salon => 0
    case SalonLocation => 1
    case Service => 2
    case AddOn => 3
    case Technician => 4
    case ServiceAddOn => 5
    case TechnicianServices => 6
    case AdminUser => 7
    case AdminSalonMembership => 8
    case Other(_) => 9
  }

  function Applied(f: Fixture, k: nat): set<RowId> {
    set id | id in f && Place(id.table) < k
  }

  /** A reference that the upsert of its row finds: to a row already there, or to a fixture row applied no later. */
  predicate Found(f: Fixture, db: Database, target: RowId, k: nat) {
    target in db || (target in f && Place(target.table) <= k)
  }

  /** The fixture rows of the first `k` upserts find everything they refer to. */
  ghost predicate ReadyBelow(f: Fixture, db: Database, k: nat) {
    forall id, e :: id in f && Place(id.table) < k && e in f[id].refs ==> Found(f, db, f[id].refs[e], Place(id.table))
  }

  /** Apply commits exactly on these databases. */
  ghost predicate Ready(f: Fixture, db: Database) {
    forall id, e :: id in f && e in f[id].refs ==> Found(f, db, f[id].refs[e], Place(id.table))
  }

  /** The foreign keys between the fixture's tables, as the script attests them. */
  predicate IsForeignKey(child: Table, parent: Table) {
    match child
    case SalonLocation | AddOn => parent.Salon?
    case Service => parent.Salon? || parent.Service?
    case Technician => parent.Salon? || parent.SalonLocation?
    case ServiceAddOn => parent.Salon? || parent.Service? || parent.AddOn?
    case TechnicianServices => parent.Technician? || parent.Service?
    case AdminSalonMembership => parent.Salon? || parent.AdminUser?
    case _ => false
  }

  /** A fixture that refers only to itself, along these keys, can be applied to any database, and reset again exactly
      when none of its services has a parent service. */
  lemma FixtureOfTheseKeys(f: Fixture, db: Database)
    requires forall id, e :: id in f && e in f[id].refs ==>
               f[id].refs[e] in f && IsForeignKey(id.table, f[id].refs[e].table)
    ensures Ready(f, db)
    ensures Layered(f) <==>
      forall id, e :: id in f && e in f[id].refs ==> !(id.table.Service? && f[id].refs[e].table.Service?)
  {
    forall id, e | id in f && e in f[id].refs
      ensures Found(f, db, f[id].refs[e], Place(id.table))
      ensures Rank(id.table) < Rank(f[id].refs[e].table) <==> !(id.table.Service? && f[id].refs[e].table.Service?)
    {
      KeysClimb(id.table, f[id].refs[e].table);
    }
  }

  lemma KeysClimb(child: Table, parent: Table)
    requires IsForeignKey(child, parent)
    ensures Place(parent) <= Place(child)
    ensures Rank(child) < Rank(parent) <==> !(child.Service? && parent.Service?)
  {
  }

  lemma OverlayOverlay(f: Fixture, db: Database, t: Table)
    ensures Overlay(f, Overlay(f, db, Applied(f, Place(t))), RowsOf(f, t))
         == Overlay(f, db, Applied(f, Place(t)) + RowsOf(f, t))
  {
  }

  lemma PlacesAreDistinct(f: Fixture, t: Table)
    requires IsTarget(t)
    ensures Applied(f, Place(t)) + RowsOf(f, t) == Applied(f, Place(t) + 1)
  {
    assert forall id: RowId :: Place(id.table) == Place(t) <==> id.table == t;
  }

  lemma UpsertStep(f: Fixture, db: Database, t: Table)
    requires IsTarget(t) && ReadyBelow(f, db, Place(t))
    ensures Upsert(f, Overlay(f, db, Applied(f, Place(t))), t) ==
            if ReadyBelow(f, db, Place(t) + 1) then Some(Overlay(f, db, Applied(f, Place(t) + 1))) else None
  {
    OverlayOverlay(f, db, t);
    PlacesAreDistinct(f, t);
    var k := Place(t);
    var after := Overlay(f, db, Applied(f, k + 1));
    assert forall target: RowId :: target in after <==> Found(f, db, target, k);
    assert forall id: RowId :: id in f ==> (id in RowsOf(f, t) <==> Place(id.table) == k);
  }

  lemma AllApplied(schema: set<Edge>, f: Fixture, db: Database)
    requires ValidFixture(schema, f) && ReadyBelow(f, db, 9)
    ensures Applied(f, 9) == f.Keys && Ready(f, db)
  {
    assert forall id :: id in f ==> Place(id.table) < 9;
  }

  lemma AppliedIsWellFormed(schema: set<Edge>, f: Fixture, db: Database)
    requires ValidFixture(schema, f) && WellFormed(schema, db) && Ready(f, db)
    ensures WellFormed(schema, Overlay(f, db, f.Keys))
  {
    var after := Overlay(f, db, f.Keys);
    forall id, e | id in after && e in after[id].refs
      ensures e in schema && e.child == id.table && e.parent == after[id].refs[e].table && after[id].refs[e] in after
    {
      if id in f && e in f[id].refs {
        assert Found(f, db, f[id].refs[e], Place(id.table));
      } else {
        assert id in db && e in db[id].refs;
      }
    }
  }

  // ---- The script ----

  datatype Error = CollisionRejected | StateRejected | OperationFailed

  datatype Outcome = Pass | Fail(error: Error) {
    predicate IsFailure() { Fail? }
    function PropagateFailure(): Outcome requires Fail? { this }
  }

  datatype Command = Apply | Reset

  class Script {
    const schema: set<Edge>
    const fixture: Fixture
    /** The incoming foreign keys of the target tables, read from the catalog. */
    const references: seq<Edge>
    var rows: Database

    constructor (schema: set<Edge>, fixture: Fixture, references: seq<Edge>, rows: Database)
      ensures this.schema == schema && this.fixture == fixture && this.references == references && this.rows == rows
    {
      this.schema, this.fixture, this.references, this.rows := schema, fixture, references, rows;
    }

    /** What the session and schema attestation established. */
    ghost predicate Attested()
      reads this
    {
      && ValidSchema(schema) && ValidFixture(schema, fixture) && WellFormed(schema, rows)
      && forall e :: e in references <==> e in schema && IsTarget(e.parent)
    }

    method UpsertRows(t: Table) returns (outcome: Outcome)
      modifies this`rows
      ensures match Upsert(fixture, old(rows), t)
              case Some(after) => outcome == Pass && rows == after
              case None => outcome == Fail(OperationFailed) && rows == old(rows)
    {
      var after := Upsert(fixture, rows, t);
      if after.None? {
        return Fail(OperationFailed);
      }
      rows := after.value;
      return Pass;
    }

    /** One upsert of apply on top of `db0`. */
    method UpsertNext(t: Table, ghost db0: Database) returns (outcome: Outcome)
      requires IsTarget(t) && ReadyBelow(fixture, db0, Place(t))
      requires rows == Overlay(fixture, db0, Applied(fixture, Place(t)))
      modifies this`rows
      ensures outcome == Pass ==> ReadyBelow(fixture, db0, Place(t) + 1)
      ensures outcome == Pass ==> rows == Overlay(fixture, db0, Applied(fixture, Place(t) + 1))
      ensures outcome != Pass ==> !Ready(fixture, db0) && outcome == Fail(OperationFailed)
    {
      UpsertStep(fixture, db0, t);
      outcome := UpsertRows(t);
    }

    /** The salons and their locations. */
    method ApplySalons(ghost db0: Database) returns (outcome: Outcome)
      requires rows == db0
      modifies this`rows
      ensures outcome == Pass ==> ReadyBelow(fixture, db0, 2) && rows == Overlay(fixture, db0, Applied(fixture, 2))
      ensures outcome != Pass ==> !Ready(fixture, db0) && outcome == Fail(OperationFailed)
    {
      assert Overlay(fixture, db0, Applied(fixture, 0)) == db0;
      outcome := UpsertNext(Salon, db0);
      if outcome == Pass {
        outcome := UpsertNext(SalonLocation, db0);
      }
    }

    /** The services, add-ons and technicians. */
    method ApplyCatalog(ghost db0: Database) returns (outcome: Outcome)
      requires ReadyBelow(fixture, db0, 2) && rows == Overlay(fixture, db0, Applied(fixture, 2))
      modifies this`rows
      ensures outcome == Pass ==> ReadyBelow(fixture, db0, 5) && rows == Overlay(fixture, db0, Applied(fixture, 5))
      ensures outcome != Pass ==> !Ready(fixture, db0) && outcome == Fail(OperationFailed)
    {
      outcome := UpsertNext(Service, db0);
      if outcome == Pass {
        outcome := UpsertNext(AddOn, db0);
      }
      if outcome == Pass {
        outcome := UpsertNext(Technician, db0);
      }
    }

    /** The links of services and technicians. */
    method ApplyLinks(ghost db0: Database) returns (outcome: Outcome)
      requires ReadyBelow(fixture, db0, 5) && rows == Overlay(fixture, db0, Applied(fixture, 5))
      modifies this`rows
      ensures outcome == Pass ==> ReadyBelow(fixture, db0, 7) && rows == Overlay(fixture, db0, Applied(fixture, 7))
      ensures outcome != Pass ==> !Ready(fixture, db0) && outcome == Fail(OperationFailed)
    {
      outcome := UpsertNext(ServiceAddOn, db0);
      if outcome == Pass {
        outcome := UpsertNext(TechnicianServices, db0);
      }
    }

    /** The admin and the memberships. */
    method ApplyAdmin(ghost db0: Database) returns (outcome: Outcome)
      requires ReadyBelow(fixture, db0, 7) && rows == Overlay(fixture, db0, Applied(fixture, 7))
      modifies this`rows
      ensures outcome == Pass ==> ReadyBelow(fixture, db0, 9) && rows == Overlay(fixture, db0, Applied(fixture, 9))
      ensures outcome != Pass ==> !Ready(fixture, db0) && outcome == Fail(OperationFailed)
    {
      outcome := UpsertNext(AdminUser, db0);
      if outcome == Pass {
        outcome := UpsertNext(AdminSalonMembership, db0);
      }
    }

    method ApplyFixture() returns (outcome: Outcome)
      requires Attested()
      modifies this`rows
      ensures outcome == if Ready(fixture, old(rows)) then Pass else Fail(OperationFailed)
      ensures outcome == Pass ==> rows == Overlay(fixture, old(rows), fixture.Keys) && WellFormed(schema, rows)
    {
      ghost var db0 := rows;
      :- ApplySalons(db0);
      :- ApplyCatalog(db0);
      :- ApplyLinks(db0);
      :- ApplyAdmin(db0);
      AllApplied(schema, fixture, db0);
      AppliedIsWellFormed(schema, fixture, db0);
      return Pass;
    }

    method DeleteRows(t: Table) returns (outcome: Outcome)
      modifies this`rows
      ensures match Delete(old(rows), RowsOf(fixture, t))
              case Some(after) => outcome == Pass && rows == after
              case None => outcome == Fail(OperationFailed) && rows == old(rows)
    {
      var after := Delete(rows, RowsOf(fixture, t));
      if after.None? {
        return Fail(OperationFailed);
      }
      rows := after.value;
      return Pass;
    }

    method AssertNoIncomingReferences(parents: set<Table>) returns (outcome: Outcome)
      ensures outcome == if exists e :: e in references && e.parent in parents && Referrers(fixture, rows, e) != {}
                         then Fail(CollisionRejected) else Pass
    {
      for k := 0 to |references|
        invariant forall j :: 0 <= j < k && references[j].parent in parents ==>
                    Referrers(fixture, rows, references[j]) == {}
      {
        var e := references[k];
        if e.parent in parents && |Referrers(fixture, rows, e)| != 0 {
          return Fail(CollisionRejected);
        }
      }
      return Pass;
    }

    /** One check of the reset, over all the tables of rank `k`. */
    method AssertNext(parents: set<Table>, ghost k: nat, ghost db0: Database, ghost gone: set<RowId>)
        returns (outcome: Outcome)
      requires Attested() && rows == Without(db0, gone)
      requires k < 4 && forall t :: t in parents <==> Rank(t) == k
      ensures outcome == if Unreferenced(fixture, db0, gone, k) then Pass else Fail(CollisionRejected)
    {
      outcome := AssertNoIncomingReferences(parents);
      if outcome == Pass {
        forall id, e | id in db0 && id !in gone && e in db0[id].refs
          ensures !(db0[id].refs[e] in fixture && Rank(db0[id].refs[e].table) == k)
        {
          assert id in rows && e in rows[id].refs && e.parent == rows[id].refs[e].table;
          assert e.parent in parents ==> e in references && id !in Referrers(fixture, rows, e);
        }
      } else {
        ghost var e :| e in references && e.parent in parents && Referrers(fixture, rows, e) != {};
        ghost var id :| id in Referrers(fixture, rows, e);
        assert e in db0[id].refs && db0[id].refs[e].table == e.parent;
      }
    }

    /** One DELETE of the reset, where `gone` says which rows of `db0` went before. */
    method DeleteNext(t: Table, ghost db0: Database, ghost gone: set<RowId>) returns (ghost gone': set<RowId>)
      requires rows == Without(db0, gone) && WellFormed(schema, rows)
      requires Unreferenced(fixture, db0, gone, Rank(t))
      modifies this`rows
      ensures gone' == gone + RowsOf(fixture, t)
      ensures rows == Without(db0, gone') && WellFormed(schema, rows) && Unreferenced(fixture, db0, gone', Rank(t))
    {
      DeleteStep(schema, fixture, db0, gone, t);
      var outcome := DeleteRows(t);
      gone' := gone + RowsOf(fixture, t);
    }

    /** Nothing refers to a link row, so no check comes first. */
    method DeleteLinks(ghost db0: Database)
      requires Attested() && rows == Without(db0, Below(fixture, 0)) && Unreferenced(fixture, db0, Below(fixture, 0), 0)
      modifies this`rows
      ensures Attested() && rows == Without(db0, Below(fixture, 1))
    {
      ghost var gone := Below(fixture, 0);
      gone := DeleteNext(ServiceAddOn, db0, gone);
      gone := DeleteNext(TechnicianServices, db0, gone);
      gone := DeleteNext(AdminSalonMembership, db0, gone);
      RanksAddUp(fixture);
    }

    /** Check the entities of the catalog, then delete them. */
    method DeleteCatalog(ghost db0: Database) returns (outcome: Outcome)
      requires Attested() && rows == Without(db0, Below(fixture, 1))
      modifies this`rows
      ensures outcome == if Unreferenced(fixture, db0, Below(fixture, 1), 1) then Pass else Fail(CollisionRejected)
      ensures outcome == Pass ==> Attested() && rows == Without(db0, Below(fixture, 2))
    {
      ghost var gone := Below(fixture, 1);
      outcome := AssertNext({Service, AddOn, Technician}, 1, db0, gone);
      if outcome == Pass {
        gone := DeleteNext(Service, db0, gone);
        gone := DeleteNext(AddOn, db0, gone);
        gone := DeleteNext(Technician, db0, gone);
        RanksAddUp(fixture);
      }
    }

    method DeleteLocations(ghost db0: Database) returns (outcome: Outcome)
      requires Attested() && rows == Without(db0, Below(fixture, 2))
      modifies this`rows
      ensures outcome == if Unreferenced(fixture, db0, Below(fixture, 2), 2) then Pass else Fail(CollisionRejected)
      ensures outcome == Pass ==> Attested() && rows == Without(db0, Below(fixture, 3))
    {
      ghost var gone := Below(fixture, 2);
      outcome := AssertNext({SalonLocation}, 2, db0, gone);
      if outcome == Pass {
        gone := DeleteNext(SalonLocation, db0, gone);
        RanksAddUp(fixture);
      }
    }

    method DeleteOwners(ghost db0: Database) returns (outcome: Outcome)
      requires Attested() && rows == Without(db0, Below(fixture, 3))
      modifies this`rows
      ensures outcome == if Unreferenced(fixture, db0, Below(fixture, 3), 3) then Pass else Fail(CollisionRejected)
      ensures outcome == Pass ==> Attested() && rows == Without(db0, Below(fixture, 4))
    {
      ghost var gone := Below(fixture, 3);
      outcome := AssertNext({Salon, AdminUser}, 3, db0, gone);
      if outcome == Pass {
        gone := DeleteNext(Salon, db0, gone);
        gone := DeleteNext(AdminUser, db0, gone);
        RanksAddUp(fixture);
      }
    }

    method ResetFixture() returns (outcome: Outcome)
      requires Attested()
      modifies this`rows
      ensures outcome == if Clear(fixture, old(rows)) then Pass else Fail(CollisionRejected)
      ensures outcome == Pass ==> Attested() && rows == Without(old(rows), fixture.Keys)
    {
      ghost var db0 := rows;
      ChecksAreClear(schema, fixture, db0);
      EveryRowHasRank(schema, fixture);
      StartOfReset(schema, fixture, db0);
      DeleteLinks(db0);
      outcome := DeleteCatalog(db0);
      if outcome == Pass {
        outcome := DeleteLocations(db0);
      }
      if outcome == Pass {
        outcome := DeleteOwners(db0);
      }
    }

    /** The count checks after a reset: no fixture row of the six entity tables is left. */
    method VerifyReset() returns (outcome: Outcome)
      ensures outcome == if exists id :: id in fixture && id in rows && !IsLink(id.table)
                         then Fail(StateRejected) else Pass
    {
      var left := set id | id in fixture && id in rows && !IsLink(id.table);
      if |left| == 0 {
        assert forall id :: id in fixture && id in rows && !IsLink(id.table) ==> id in left;
        return Pass;
      }
      assert exists id :: id in left;
      return Fail(StateRejected);
    }

    method Operation(command: Command, verified: bool) returns (outcome: Outcome)
      requires Attested()
      modifies this`rows
      ensures command == Apply ==> (outcome == Pass <==> Ready(fixture, old(rows)) && verified)
      ensures command == Apply && outcome == Pass ==> rows == Overlay(fixture, old(rows), fixture.Keys) && Attested()
      ensures command == Reset ==> (outcome == Pass <==> Clear(fixture, old(rows)) && verified)
      ensures command == Reset && outcome == Pass ==> rows == Without(old(rows), fixture.Keys) && Attested()
    {
      match command
      case Apply =>
        :- ApplyFixture();
        return if verified then Pass else Fail(StateRejected);
      case Reset =>
        :- ResetFixture();
        outcome := VerifyReset();
        if outcome == Pass && !verified {
          outcome := Fail(CollisionRejected);
        }
    }

    /**
     * `withTransaction`: the ownership attestation (`owned`) comes first, the verification queries
     * (`verified`) last, and any failure rolls back.
     */
    method WithTransaction(command: Command, owned: bool, verified: bool) returns (outcome: Outcome)
      requires Attested()
      modifies this`rows
      ensures Attested()
      ensures outcome.Fail? ==> rows == old(rows)
      ensures command == Apply ==> (outcome == Pass <==> owned && verified && Ready(fixture, old(rows)))
      ensures command == Apply && outcome == Pass ==> rows == Overlay(fixture, old(rows), fixture.Keys)
      ensures command == Reset ==> (outcome == Pass <==> owned && verified && Clear(fixture, old(rows)))
      ensures command == Reset && outcome == Pass ==> rows == Without(old(rows), fixture.Keys)
    {
      if !owned {
        return Fail(CollisionRejected);
      }
      var snapshot := rows;
      outcome := Operation(command, verified);
      if outcome.Fail? {
        rows := snapshot;
      }
    }

    /**
     * Both transactions in sequence, on a database without fixture rows: the reset of a committed apply commits exactly
     * when the fixture is layered, and then every row is as before; a failed one leaves the applied fixture.
     */
    method ApplyThenReset(owned: bool, verified: bool) returns (applied: Outcome, reset: Outcome)
      requires Attested() && rows.Keys !! fixture.Keys
      modifies this`rows
      ensures Attested()
      ensures applied.Fail? ==> reset.Fail? && rows == old(rows)
      ensures applied == Pass ==> (reset == Pass <==> owned && verified && Layered(fixture))
      ensures reset == Pass ==> rows == old(rows)
      ensures applied == Pass && reset.Fail? ==> rows == Overlay(fixture, old(rows), fixture.Keys)
    {
      applied := WithTransaction(Apply, true, true);
      reset := applied;
      if applied == Pass {
        ResetUndoesApply(schema, fixture, old(rows));
        reset := WithTransaction(Reset, owned, verified);
      }
    }
  }
}
