/** A relational database whose DELETE follows foreign keys. */
module ForeignKeys {
  import opened Wrappers

  datatype Table =
    | Salon | SalonLocation | Service | AddOn | Technician | AdminUser
    | ServiceAddOn | TechnicianServices | AdminSalonMembership
    | Other(oid: nat)

  datatype Action = NoAction | Restrict | Cascade | SetNull

  datatype Edge = Edge(child: Table, constraint: nat, parent: Table, onDelete: Action)

  datatype RowId = RowId(table: Table, key: nat)

  /** `refs` holds the foreign keys that are not null, `cells` every other column. */
  datatype Row = Row(refs: map<Edge, RowId>, cells: map<nat, nat>)

  type Database = map<RowId, Row>


  /** Every reference belongs to a declared edge and is not dangling. */
  ghost predicate WellFormed(schema: set<Edge>, db: Database) {
    forall id, e :: id in db && e in db[id].refs ==>
      && e in schema && e.child == id.table && e.parent == db[id].refs[e].table
      && db[id].refs[e] in db
  }

  function Without(db: Database, gone: set<RowId>): Database {
    map id | id in db && id !in gone :: db[id]
  }

  // ---- DELETE ----

  predicate RefersBy(db: Database, id: RowId, action: Action, targets: set<RowId>)
    requires id in db
  {
    exists e :: e in db[id].refs && e.onDelete == action && db[id].refs[e] in targets
  }

  /** One round of ON DELETE CASCADE. */
  function Swept(db: Database, gone: set<RowId>): set<RowId> {
    gone + set id | id in db && RefersBy(db, id, Cascade, gone)
  }

  /** The rows that go when `gone` goes. */
  function Closure(db: Database, gone: set<RowId>): (all: set<RowId>)
    ensures gone <= all && Swept(db, all) == all
    decreases db.Keys - gone
  {
    var next := Swept(db, gone);
    if next == gone then gone
    else
      assert db.Keys - next < db.Keys - gone by {
        var id :| id in next && id !in gone;
        assert id in db.Keys - gone && id !in db.Keys - next;
      }
      Closure(db, next)
  }

  /** No smaller set will do: every set that holds `gone` and is closed under cascades holds the closure. */
  lemma {:induction false} ClosureIsLeast(db: Database, gone: set<RowId>, closed: set<RowId>)
    requires gone <= closed && Swept(db, closed) == closed
    ensures Closure(db, gone) <= closed
    decreases db.Keys - gone
  {
    var next := Swept(db, gone);
    if next != gone {
      forall id | id in next
        ensures id in closed
      {
        assert id in gone || id in Swept(db, closed);
      }
      assert db.Keys - next < db.Keys - gone by {
        var id :| id in next && id !in gone;
        assert id in db.Keys - gone && id !in db.Keys - next;
      }
      ClosureIsLeast(db, next, closed);
    }
  }

  /** What goes beside the given rows refers, by a cascading edge, to something that goes. */
  lemma {:induction false} ClosureCascades(db: Database, gone: set<RowId>, id: RowId)
    requires id in Closure(db, gone) && id !in gone
    ensures id in db && exists e :: e in db[id].refs && e.onDelete == Cascade && db[id].refs[e] in Closure(db, gone)
    decreases db.Keys - gone
  {
    var next := Swept(db, gone);
    assert next != gone;
    if id in next {
      var e :| e in db[id].refs && e.onDelete == Cascade && db[id].refs[e] in gone;
      assert db[id].refs[e] in Closure(db, gone);
    } else {
      assert db.Keys - next < db.Keys - gone by {
        var other :| other in next && other !in gone;
        assert other in db.Keys - gone && other !in db.Keys - next;
      }
      ClosureCascades(db, next, id);
    }
  }

  function Nulled(row: Row, gone: set<RowId>): Row {
    row.(refs := map e | e in row.refs && !(e.onDelete == SetNull && row.refs[e] in gone) :: row.refs[e])
  }

  /** RESTRICT refuses at once; NO ACTION is checked when the cascades are done. */
  predicate Refused(db: Database, gone: set<RowId>) {
    exists id :: id in db && (RefersBy(db, id, Restrict, gone) || (id !in gone && RefersBy(db, id, NoAction, gone)))
  }

  /** DELETE of the given rows: `None` when a constraint aborts the statement. */
  function Delete(db: Database, rows: set<RowId>): Option<Database> {
    var gone := Closure(db, rows * db.Keys);
    if Refused(db, gone) then None
    else Some(map id | id in db && id !in gone :: Nulled(db[id], gone))
  }

  /** A restricting reference to a row that goes, or a reference without action from a row that stays. */
  predicate Forbids(db: Database, gone: set<RowId>, id: RowId, e: Edge)
    requires id in db && e in db[id].refs
  {
    db[id].refs[e] in gone && (e.onDelete == Restrict || (e.onDelete == NoAction && id !in gone))
  }

  /** A DELETE is refused exactly when a restricting reference points at a row that goes, or a kept row refers to one
      without an action. Otherwise it takes the closure, keeps every other row with its cells, and of their references
      drops exactly the set-null ones to rows that went. */
  lemma DeleteEffect(db: Database, rows: set<RowId>)
    ensures var gone := Closure(db, rows * db.Keys);
      && (Delete(db, rows).None? <==> exists id, e :: id in db && e in db[id].refs && Forbids(db, gone, id, e))
      && (Delete(db, rows).Some? ==>
            var after := Delete(db, rows).value;
            && after.Keys == db.Keys - gone
            && forall id :: id in after ==>
                 && after[id].cells == db[id].cells
                 && (forall e :: e in after[id].refs <==>
                       e in db[id].refs && !(e.onDelete == SetNull && db[id].refs[e] in gone))
                 && (forall e :: e in after[id].refs ==> after[id].refs[e] == db[id].refs[e]))
  {
    var gone := Closure(db, rows * db.Keys);
    if id, e :| id in db && e in db[id].refs && Forbids(db, gone, id, e) {
      RefersHow(db, gone, id, e);
    }
    if Refused(db, gone) {
      var id :| id in db && (RefersBy(db, id, Restrict, gone) || (id !in gone && RefersBy(db, id, NoAction, gone)));
      var action := if RefersBy(db, id, Restrict, gone) then Restrict else NoAction;
      var e :| e in db[id].refs && e.onDelete == action && db[id].refs[e] in gone;
      assert Forbids(db, gone, id, e);
    }
  }

  lemma RefersHow(db: Database, gone: set<RowId>, id: RowId, e: Edge)
    requires id in db && e in db[id].refs && db[id].refs[e] in gone
    ensures RefersBy(db, id, e.onDelete, gone)
  {
  }

  /** A row that a DELETE leaves has no reference to a row that it removes. */
  lemma KeptReference(db: Database, gone: set<RowId>, id: RowId, e: Edge)
    requires Swept(db, gone) == gone && !Refused(db, gone)
    requires id in db && id !in gone && e in db[id].refs
    ensures e in Nulled(db[id], gone).refs <==> db[id].refs[e] !in gone
  {
    if db[id].refs[e] in gone {
      RefersHow(db, gone, id, e);
    }
  }

  /** A DELETE that succeeds leaves no dangling reference. */
  lemma DeleteKeepsWellFormed(schema: set<Edge>, db: Database, rows: set<RowId>)
    requires WellFormed(schema, db) && Delete(db, rows).Some?
    ensures WellFormed(schema, Delete(db, rows).value)
  {
    var gone := Closure(db, rows * db.Keys);
    var after := Delete(db, rows).value;
    forall id, e | id in after && e in after[id].refs
      ensures after[id].refs[e] in after
    {
      KeptReference(db, gone, id, e);
    }
  }

  /** Nothing outside leans on the rows, and no RESTRICT edge joins two of them. */
  ghost predicate Detached(db: Database, rows: set<RowId>) {
    forall id, e :: id in db && e in db[id].refs && db[id].refs[e] in rows ==> id in rows && e.onDelete != Restrict
  }

  lemma DetachedIsExact(db: Database, rows: set<RowId>)
    requires rows <= db.Keys && Detached(db, rows)
    ensures Delete(db, rows) == Some(Without(db, rows))
  {
    assert rows * db.Keys == rows && Swept(db, rows) == rows;
    assert Closure(db, rows) == rows;
    assert forall id :: id in db && id !in rows ==> Nulled(db[id], rows) == db[id];
    assert Delete(db, rows).Some? && Delete(db, rows).value == Without(db, rows);
  }

  /** A DELETE removes exactly its rows and alters no other if and only if the rows are detached. */
  lemma DeleteIsExactIff(schema: set<Edge>, db: Database, rows: set<RowId>)
    requires WellFormed(schema, db) && rows <= db.Keys
    ensures Delete(db, rows) == Some(Without(db, rows)) <==> Detached(db, rows)
  {
    if Detached(db, rows) {
      DetachedIsExact(db, rows);
    } else {
      var id, e :| id in db && e in db[id].refs && db[id].refs[e] in rows && !(id in rows && e.onDelete != Restrict);
      DanglingMeansInexact(db, rows, id, e);
    }
  }

  lemma DanglingMeansInexact(db: Database, rows: set<RowId>, id: RowId, e: Edge)
    requires rows <= db.Keys && id in db && e in db[id].refs && db[id].refs[e] in rows
    requires id !in rows || e.onDelete == Restrict
    ensures Delete(db, rows) != Some(Without(db, rows))
  {
    assert rows * db.Keys == rows;
    var gone := Closure(db, rows);
    RefersHow(db, gone, id, e);
    if Delete(db, rows).Some? {
      assert id in Without(db, rows) && e in Without(db, rows)[id].refs;
      if id in Delete(db, rows).value {
        KeptReference(db, gone, id, e);
      }
    }
  }

  /** Deleting rows that nothing refers to; rows the database does not hold are ignored. */
  lemma DeleteUnreferenced(schema: set<Edge>, db: Database, rows: set<RowId>)
    requires WellFormed(schema, db)
    requires forall id, e :: id in db && e in db[id].refs ==> db[id].refs[e] !in rows
    ensures Delete(db, rows) == Some(Without(db, rows))
    ensures WellFormed(schema, Without(db, rows))
  {
    var present := rows * db.Keys;
    DeleteIsExactIff(schema, db, present);
    assert Without(db, present) == Without(db, rows);
    assert present * db.Keys == present;
    DeleteKeepsWellFormed(schema, db, rows);
  }
}
