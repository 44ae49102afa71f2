/** `schema:move-table`: move a table to another schema inside one
    transaction, dropping its foreign-key constraints first, keeping their
    descriptions in a session-local holding table, and adding them back on
    the moved table afterwards. A dry run writes only to the holding table
    and rolls back. The database session is a class whose statements act on
    the catalog as the functions of module Catalog say; every step is
    recorded in an event log. */
module MoveTableToSchema {
  import opened Wrappers
  import opened Text
  import opened Catalog
  import opened ModelFile
  import opened Console

  /** What the session does, in order. */
  datatype Event =
    | Began
    | Committed
    | RolledBack
    | HoldingAreaCreated
    | Held(fk: ForeignKey)
    | Ran(ddl: Ddl)

  /** A database session: the catalog, the open transaction and the
      snapshot it will restore on rollback, the temporary holding table
      `temp_move_fks` (absent, or its rows in insertion order), and the log. */
  class Database {
    var catalog: Catalog
    var inTransaction: bool
    var snapshot: Catalog
    var holding: Option<seq<ForeignKey>>
    var log: seq<Event>

    /** The holding table is created ON COMMIT DROP inside a transaction, so
        it never outlives one. */
    ghost predicate Valid()
      reads this
    {
      !inTransaction ==> holding.None?
    }

    constructor (c: Catalog)
      ensures Valid()
      ensures catalog == c && !inTransaction && holding.None? && log == []
    {
      catalog := c;
      inTransaction := false;
      snapshot := c;
      holding := None;
      log := [];
    }

    /** `tableExists`: the relation is listed in the catalog. */
    predicate TableExists(r: TableRef)
      reads this
    {
      r in catalog.relations
    }

    /** `getForeignKeys`: the rows the foreign-key query yields for the
        table. They are its own rows, each once, exactly when its
        constraints are unique; otherwise some constraint name repeats. */
    function ForeignKeys(r: TableRef): (fks: seq<ForeignKey>)
      reads this
      ensures !TableExists(r) ==> fks == []
      ensures forall fk :: fk in fks ==> TableExists(r) && fk in catalog.relations[r]
      ensures TableExists(r) ==> (Distinct(fks) <==> Unique(catalog, r))
      ensures TableExists(r) && Unique(catalog, r) ==> fks == catalog.relations[r]
    {
      if r in catalog.relations then
        QuerySpec(catalog, r);
        ForeignKeyQuery(catalog, r)
      else []
    }

    method BeginTransaction()
      requires Valid() && !inTransaction
      modifies this`inTransaction, this`snapshot, this`log
      ensures inTransaction && snapshot == catalog
      ensures log == old(log) + [Began]
    {
      inTransaction := true;
      snapshot := catalog;
      log := log + [Began];
    }

    /** Commit keeps the catalog and drops the holding table. */
    method Commit()
      requires inTransaction
      modifies this`inTransaction, this`holding, this`log
      ensures Valid() && !inTransaction && holding.None?
      ensures log == old(log) + [Committed]
    {
      inTransaction := false;
      holding := None;
      log := log + [Committed];
    }

    /** Rollback restores the catalog the transaction began with; the holding
        table, created inside it, is gone too. */
    method RollBack()
      requires inTransaction
      modifies this`catalog, this`inTransaction, this`holding, this`log
      ensures Valid() && !inTransaction && holding.None?
      ensures catalog == old(snapshot)
      ensures log == old(log) + [RolledBack]
    {
      catalog := snapshot;
      inTransaction := false;
      holding := None;
      log := log + [RolledBack];
    }

    /** `CREATE TEMP TABLE IF NOT EXISTS temp_move_fks`. */
    method CreateHoldingArea()
      requires inTransaction
      modifies this`holding, this`log
      ensures holding == if old(holding).None? then Some([]) else old(holding)
      ensures log == old(log) + [HoldingAreaCreated]
    {
      if holding.None? {
        holding := Some([]);
      }
      log := log + [HoldingAreaCreated];
    }

    /** `INSERT INTO temp_move_fks`: one row, all seven fields as given. */
    method Hold(fk: ForeignKey)
      requires holding.Some?
      modifies this`holding, this`log
      ensures holding == Some(old(holding).value + [fk])
      ensures log == old(log) + [Held(fk)]
    {
      holding := Some(holding.value + [fk]);
      log := log + [Held(fk)];
    }

    /** `DB::statement`: run one DDL statement; on error the catalog is left
        as it was and the error is raised. */
    method Statement(s: Ddl) returns (r: Result<(), DbError>)
      modifies this`catalog, this`log
      ensures log == old(log) + [Ran(s)]
      ensures Apply(old(catalog), s).Ok? ==> r.Ok? && catalog == Apply(old(catalog), s).value
      ensures Apply(old(catalog), s).Err? ==> r == Err(Apply(old(catalog), s).error) && catalog == old(catalog)
    {
      var res := Apply(catalog, s);
      log := log + [Ran(s)];
      if res.Ok? {
        catalog := res.value;
        r := Ok(());
      } else {
        r := Err(res.error);
      }
    }
  }


  /** The lines the command writes, without their formatting. */
  datatype Message =
    | DryRunBanner
    | TableNotFound(table: string, schema: string)
    | Summary(table: string, from: string, to: string)
    | AskedToProceed
    | Cancelled
    | FoundForeignKeys(count: nat)
    | WouldDrop(name: string)
    | Dropped(name: string)
    | WouldSetSchema(on: TableRef, to: string)
    | MovedToSchema(to: string)
    | WouldRecreate(name: string, target: TableRef)
    | Recreated(name: string, target: TableRef)
    | ModelNotFound(path: string, conventional: bool)
    | WouldRemoveProperty(path: string)
    | WouldSetProperty(value: string, path: string)
    | EditModel(path: string, change: TableProperty)
    | DryRunCompleted
    | MovedSuccessfully
    | Failed(error: DbError)

  // ---------------------------------------------------------------------
  // What the phases do, as functions of the captured rows
  // ---------------------------------------------------------------------

  /** The drop phase's events: per row, DROP CONSTRAINT (live runs only),
      then the insert into the holding table. */
  function DropTrace(on: TableRef, fks: seq<ForeignKey>, dryRun: bool): seq<Event>
    decreases |fks|
  {
    if fks == [] then []
    else
      var fk := fks[|fks| - 1];
      DropTrace(on, fks[..|fks| - 1], dryRun)
      + (if dryRun then [] else [Ran(DropConstraint(on, fk.constraintName))]) + [Held(fk)]
  }

  /** The re-add phase's events on a live run: one ADD CONSTRAINT per held row. */
  function AddTrace(dest: TableRef, fks: seq<ForeignKey>): seq<Event>
    decreases |fks|
  {
    if fks == [] then []
    else AddTrace(dest, fks[..|fks| - 1]) + [Ran(AddConstraint(dest, fks[|fks| - 1]))]
  }

  /** What the transaction's closure does when it raises no error: create the
      holding table, the drop phase, then either the dry run's rollback or
      SET SCHEMA and the re-add phase. */
  function CallbackTrace(on: TableRef, to: string, fks: seq<ForeignKey>, dryRun: bool): seq<Event> {
    [HoldingAreaCreated] + DropTrace(on, fks, dryRun)
    + if dryRun then [RolledBack]
      else [Ran(SetSchema(on, to))] + AddTrace(Destination(on, to), fks)
  }

  /** The whole session of a move that raises no error: the closure inside
      BEGIN, and COMMIT only on a live run. */
  function MoveTrace(on: TableRef, to: string, fks: seq<ForeignKey>, dryRun: bool): seq<Event> {
    [Began] + CallbackTrace(on, to, fks, dryRun) + if dryRun then [] else [Committed]
  }

  /** One line per dropped (or, on a dry run, would-be dropped) constraint. */
  function DropMessages(fks: seq<ForeignKey>, dryRun: bool): (ms: seq<Message>)
    ensures |ms| == |fks| && AskedToProceed !in ms
    decreases |fks|
  {
    if fks == [] then []
    else
      var name := fks[|fks| - 1].constraintName;
      DropMessages(fks[..|fks| - 1], dryRun) + [if dryRun then WouldDrop(name) else Dropped(name)]
  }

  /** One line per re-added (or would-be re-added) constraint, naming the
      relation it references. */
  function RecreateMessages(fks: seq<ForeignKey>, dryRun: bool): (ms: seq<Message>)
    ensures |ms| == |fks| && AskedToProceed !in ms
    decreases |fks|
  {
    if fks == [] then []
    else
      var fk := fks[|fks| - 1];
      RecreateMessages(fks[..|fks| - 1], dryRun)
      + [if dryRun then WouldRecreate(fk.constraintName, fk.Target()) else Recreated(fk.constraintName, fk.Target())]
  }

  /** What `moveTable` reports when nothing fails. */
  function MoveMessages(on: TableRef, to: string, fks: seq<ForeignKey>, dryRun: bool): seq<Message> {
    (if |fks| > 0 then [FoundForeignKeys(|fks|)] else [])
    + DropMessages(fks, dryRun)
    + [if dryRun then WouldSetSchema(on, to) else MovedToSchema(to)]
    + RecreateMessages(fks, dryRun)
  }

  /** What `handle` prints last when the move raises: `FAILURE` with the
      message of the error the live move runs into. */
  predicate EndsWithMoveError(out: seq<Message>, c: Catalog, on: TableRef, to: string) {
    && on in c.relations
    && var r := LiveMove(c, on, to, ForeignKeyQuery(c, on));
       r.Err? && |out| >= 1 && out[|out| - 1] == Failed(r.error)
  }

  // ---------------------------------------------------------------------
  // What the protocol's traces contain
  // ---------------------------------------------------------------------

  /** The DDL statements of a log, in order. */
  function Statements(log: seq<Event>): seq<Ddl>
    decreases |log|
  {
    if log == [] then []
    else (if log[0].Ran? then [log[0].ddl] else []) + Statements(log[1..])
  }

  /** The rows inserted into the holding table, in order. */
  function HeldRows(log: seq<Event>): seq<ForeignKey>
    decreases |log|
  {
    if log == [] then []
    else (if log[0].Held? then [log[0].fk] else []) + HeldRows(log[1..])
  }

  /** How often an event occurs in a log. */
  function Occurrences(log: seq<Event>, e: Event): nat
    decreases |log|
  {
    if log == [] then 0
    else (if log[0] == e then 1 else 0) + Occurrences(log[1..], e)
  }

  lemma {:induction false} StatementsAppend(a: seq<Event>, b: seq<Event>)
    ensures Statements(a + b) == Statements(a) + Statements(b)
    decreases |a|
  {
    if a == [] {
      assert a + b == b;
    } else {
      StatementsAppend(a[1..], b);
      var head := if a[0].Ran? then [a[0].ddl] else [];
      assert (a + b)[0] == a[0] && (a + b)[1..] == a[1..] + b;
      assert Statements(a + b) == head + Statements(a[1..] + b);
      assert Statements(a) == head + Statements(a[1..]);
      Regroup(head, Statements(a[1..]), Statements(b));
    }
  }

  lemma {:induction false} HeldRowsAppend(a: seq<Event>, b: seq<Event>)
    ensures HeldRows(a + b) == HeldRows(a) + HeldRows(b)
    decreases |a|
  {
    if a == [] {
      assert a + b == b;
    } else {
      HeldRowsAppend(a[1..], b);
      var head := if a[0].Held? then [a[0].fk] else [];
      assert (a + b)[0] == a[0] && (a + b)[1..] == a[1..] + b;
      assert HeldRows(a + b) == head + HeldRows(a[1..] + b);
      assert HeldRows(a) == head + HeldRows(a[1..]);
      Regroup(head, HeldRows(a[1..]), HeldRows(b));
    }
  }

  lemma {:induction false} OccurrencesAppend(a: seq<Event>, b: seq<Event>, e: Event)
    ensures Occurrences(a + b, e) == Occurrences(a, e) + Occurrences(b, e)
    decreases |a|
  {
    if a == [] {
      assert a + b == b;
    } else {
      OccurrencesAppend(a[1..], b, e);
      assert (a + b)[0] == a[0] && (a + b)[1..] == a[1..] + b;
    }
  }

  /** All three projections distribute over concatenation. */
  lemma ProjectionsAppend(a: seq<Event>, b: seq<Event>)
    ensures Statements(a + b) == Statements(a) + Statements(b)
    ensures HeldRows(a + b) == HeldRows(a) + HeldRows(b)
    ensures Occurrences(a + b, Committed) == Occurrences(a, Committed) + Occurrences(b, Committed)
    ensures Occurrences(a + b, RolledBack) == Occurrences(a, RolledBack) + Occurrences(b, RolledBack)
  {
    StatementsAppend(a, b);
    HeldRowsAppend(a, b);
    OccurrencesAppend(a, b, Committed);
    OccurrencesAppend(a, b, RolledBack);
  }

  /** One DROP CONSTRAINT per captured row, in catalog order. */
  function DropStatements(on: TableRef, fks: seq<ForeignKey>): (ss: seq<Ddl>)
    ensures |ss| == |fks|
    ensures forall i :: 0 <= i < |fks| ==> ss[i] == DropConstraint(on, fks[i].constraintName)
    decreases |fks|
  {
    if fks == [] then []
    else DropStatements(on, fks[..|fks| - 1]) + [DropConstraint(on, fks[|fks| - 1].constraintName)]
  }

  /** One ADD CONSTRAINT per held row, carrying the row unchanged, in order. */
  function AddStatements(dest: TableRef, fks: seq<ForeignKey>): (ss: seq<Ddl>)
    ensures |ss| == |fks|
    ensures forall i :: 0 <= i < |fks| ==> ss[i] == AddConstraint(dest, fks[i])
    decreases |fks|
  {
    if fks == [] then []
    else AddStatements(dest, fks[..|fks| - 1]) + [AddConstraint(dest, fks[|fks| - 1])]
  }

  /** The drop phase issues the drops (none on a dry run) and holds every
      row, in both modes, in catalog order; it neither commits nor rolls back. */
  lemma DropTraceContents(on: TableRef, fks: seq<ForeignKey>, dryRun: bool)
    ensures Statements(DropTrace(on, fks, dryRun)) == if dryRun then [] else DropStatements(on, fks)
    ensures HeldRows(DropTrace(on, fks, dryRun)) == fks
    ensures Occurrences(DropTrace(on, fks, dryRun), Committed) == 0
    ensures Occurrences(DropTrace(on, fks, dryRun), RolledBack) == 0
  {
    DropTraceStatements(on, fks, dryRun);
    DropTraceQuiet(on, fks, dryRun);
    DropTraceHeld(on, fks, dryRun);
  }

  /** The drop phase grows by one row's events at a time. */
  lemma DropTraceSnoc(on: TableRef, fks: seq<ForeignKey>, dryRun: bool)
    requires fks != []
    ensures DropTrace(on, fks, dryRun)
              == DropTrace(on, fks[..|fks| - 1], dryRun) + DropStepTrace(on, fks[|fks| - 1], dryRun)
  {
    var fk := fks[|fks| - 1];
    Regroup(DropTrace(on, fks[..|fks| - 1], dryRun),
            if dryRun then [] else [Ran(DropConstraint(on, fk.constraintName))], [Held(fk)]);
  }

  /** The events one row adds to the drop phase. */
  function DropStepTrace(on: TableRef, fk: ForeignKey, dryRun: bool): seq<Event> {
    (if dryRun then [] else [Ran(DropConstraint(on, fk.constraintName))]) + [Held(fk)]
  }

  lemma DropStepStatements(on: TableRef, fk: ForeignKey, dryRun: bool)
    ensures Statements(DropStepTrace(on, fk, dryRun)) == if dryRun then [] else [DropConstraint(on, fk.constraintName)]
  {
    var held: seq<Event> := [Held(fk)];
    assert Statements(held) == [];
    if !dryRun {
      var ran: seq<Event> := [Ran(DropConstraint(on, fk.constraintName))];
      StatementsAppend(ran, held);
    } else {
      assert DropStepTrace(on, fk, dryRun) == held;
    }
  }

  lemma DropStepContents(on: TableRef, fk: ForeignKey, dryRun: bool)
    ensures Statements(DropStepTrace(on, fk, dryRun)) == if dryRun then [] else [DropConstraint(on, fk.constraintName)]
    ensures HeldRows(DropStepTrace(on, fk, dryRun)) == [fk]
    ensures Occurrences(DropStepTrace(on, fk, dryRun), Committed) == 0
    ensures Occurrences(DropStepTrace(on, fk, dryRun), RolledBack) == 0
  {
    var held: seq<Event> := [Held(fk)];
    assert Statements(held) == [] && HeldRows(held) == [fk];
    if !dryRun {
      var ran: seq<Event> := [Ran(DropConstraint(on, fk.constraintName))];
      ProjectionsAppend(ran, held);
    } else {
      assert DropStepTrace(on, fk, dryRun) == held;
    }
  }

  lemma {:induction false} DropTraceStatements(on: TableRef, fks: seq<ForeignKey>, dryRun: bool)
    ensures Statements(DropTrace(on, fks, dryRun)) == if dryRun then [] else DropStatements(on, fks)
    decreases |fks|
  {
    if fks != [] {
      var fk := fks[|fks| - 1];
      var front := DropTrace(on, fks[..|fks| - 1], dryRun);
      var step := DropStepTrace(on, fk, dryRun);
      DropTraceStatements(on, fks[..|fks| - 1], dryRun);
      DropStepStatements(on, fk, dryRun);
      DropTraceSnoc(on, fks, dryRun);
      StatementsAppend(front, step);
      if dryRun {
        assert Statements(front) == [] && Statements(step) == [];
      } else {
        assert Statements(step) == [DropConstraint(on, fk.constraintName)];
        assert DropStatements(on, fks) == DropStatements(on, fks[..|fks| - 1]) + [DropConstraint(on, fk.constraintName)];
      }
    }
  }

  lemma {:induction false} DropTraceQuiet(on: TableRef, fks: seq<ForeignKey>, dryRun: bool)
    ensures Occurrences(DropTrace(on, fks, dryRun), Committed) == 0
    ensures Occurrences(DropTrace(on, fks, dryRun), RolledBack) == 0
    decreases |fks|
  {
    if fks != [] {
      var fk := fks[|fks| - 1];
      var front := DropTrace(on, fks[..|fks| - 1], dryRun);
      var step := DropStepTrace(on, fk, dryRun);
      DropTraceQuiet(on, fks[..|fks| - 1], dryRun);
      DropStepContents(on, fk, dryRun);
      DropTraceSnoc(on, fks, dryRun);
      OccurrencesAppend(front, step, Committed);
      OccurrencesAppend(front, step, RolledBack);
    }
  }

  lemma {:induction false} DropTraceHeld(on: TableRef, fks: seq<ForeignKey>, dryRun: bool)
    ensures HeldRows(DropTrace(on, fks, dryRun)) == fks
    decreases |fks|
  {
    if fks != [] {
      var fk := fks[|fks| - 1];
      DropTraceHeld(on, fks[..|fks| - 1], dryRun);
      DropStepContents(on, fk, dryRun);
      DropTraceSnoc(on, fks, dryRun);
      HeldRowsAppend(DropTrace(on, fks[..|fks| - 1], dryRun), DropStepTrace(on, fk, dryRun));
      assert fks == fks[..|fks| - 1] + [fk];
    }
  }

  /** The re-add phase issues exactly the additions. */
  lemma {:induction false} AddTraceContents(dest: TableRef, fks: seq<ForeignKey>)
    ensures Statements(AddTrace(dest, fks)) == AddStatements(dest, fks)
    ensures Occurrences(AddTrace(dest, fks), Committed) == 0
    ensures Occurrences(AddTrace(dest, fks), RolledBack) == 0
    decreases |fks|
  {
    if fks != [] {
      AddTraceContents(dest, fks[..|fks| - 1]);
      ProjectionsAppend(AddTrace(dest, fks[..|fks| - 1]), [Ran(AddConstraint(dest, fks[|fks| - 1]))]);
    }
  }

  /** Events that run no DDL around a log add no statements. */
  lemma StatementsBracketed(first: Event, body: seq<Event>, last: seq<Event>)
    requires !first.Ran?
    requires forall k :: 0 <= k < |last| ==> !last[k].Ran?
    requires |last| <= 1
    ensures Statements([first] + body + last) == Statements(body)
  {
    StatementsAppend([first] + body, last);
    assert ([first] + body)[1..] == body;
    if last != [] {
      assert last[1..] == [];
    }
  }

  /** The closure of a live run issues the drops, SET SCHEMA, then the adds. */
  lemma LiveCallbackStatements(on: TableRef, to: string, fks: seq<ForeignKey>)
    ensures Statements(CallbackTrace(on, to, fks, false))
              == DropStatements(on, fks) + [SetSchema(on, to)] + AddStatements(Destination(on, to), fks)
  {
    var d := DropTrace(on, fks, false);
    var a := AddTrace(Destination(on, to), fks);
    var tail := [Ran(SetSchema(on, to))] + a;
    DropTraceStatements(on, fks, false);
    AddTraceContents(Destination(on, to), fks);
    StatementsAppend([Ran(SetSchema(on, to))], a);
    assert Statements(tail) == [SetSchema(on, to)] + AddStatements(Destination(on, to), fks);
    StatementsBracketed(HoldingAreaCreated, d, []);
    assert [HoldingAreaCreated] + d + [] == [HoldingAreaCreated] + d;
    StatementsAppend([HoldingAreaCreated] + d, tail);
    Regroup(DropStatements(on, fks), [SetSchema(on, to)], AddStatements(Destination(on, to), fks));
  }

  /** A live run issues one DROP CONSTRAINT per row, then SET SCHEMA, then
      one ADD CONSTRAINT per held row. */
  lemma LiveRunStatements(on: TableRef, to: string, fks: seq<ForeignKey>)
    ensures Statements(MoveTrace(on, to, fks, false))
              == DropStatements(on, fks) + [SetSchema(on, to)] + AddStatements(Destination(on, to), fks)
  {
    var body := CallbackTrace(on, to, fks, false);
    assert MoveTrace(on, to, fks, false) == [Began] + body + [Committed];
    StatementsBracketed(Began, body, [Committed]);
    LiveCallbackStatements(on, to, fks);
  }

  /** A live run commits once and never rolls back. */
  lemma LiveRunCommitsOnce(on: TableRef, to: string, fks: seq<ForeignKey>)
    ensures Occurrences(MoveTrace(on, to, fks, false), Committed) == 1
    ensures Occurrences(MoveTrace(on, to, fks, false), RolledBack) == 0
  {
    var d := DropTrace(on, fks, false);
    var a := AddTrace(Destination(on, to), fks);
    var tail := [Ran(SetSchema(on, to))] + a;
    var body := [HoldingAreaCreated] + d + tail;
    assert MoveTrace(on, to, fks, false) == [Began] + body + [Committed];
    DropTraceQuiet(on, fks, false);
    AddTraceContents(Destination(on, to), fks);
    forall e | e == Committed || e == RolledBack
      ensures Occurrences(body, e) == 0
    {
      OccurrencesAppend([Ran(SetSchema(on, to))], a, e);
      OccurrencesAppend([HoldingAreaCreated], d, e);
      OccurrencesAppend([HoldingAreaCreated] + d, tail, e);
    }
    OccurrencesAppend([Began], body, Committed);
    OccurrencesAppend([Began] + body, [Committed], Committed);
    OccurrencesAppend([Began], body, RolledBack);
    OccurrencesAppend([Began] + body, [Committed], RolledBack);
  }

  /** A dry run issues no DDL at all and holds every row. */
  lemma DryRunStatements(on: TableRef, to: string, fks: seq<ForeignKey>)
    ensures Statements(MoveTrace(on, to, fks, true)) == []
    ensures HeldRows(MoveTrace(on, to, fks, true)) == fks
  {
    var d := DropTrace(on, fks, true);
    var body := [HoldingAreaCreated] + d + [RolledBack];
    assert MoveTrace(on, to, fks, true) == [Began] + body;
    DropTraceStatements(on, fks, true);
    DropTraceHeld(on, fks, true);
    StatementsAppend([HoldingAreaCreated], d);
    StatementsAppend([HoldingAreaCreated] + d, [RolledBack]);
    StatementsAppend([Began], body);
    HeldRowsAppend([HoldingAreaCreated], d);
    HeldRowsAppend([HoldingAreaCreated] + d, [RolledBack]);
    HeldRowsAppend([Began], body);
  }

  /** A dry run rolls back exactly once and never commits. */
  lemma DryRunRollsBackOnce(on: TableRef, to: string, fks: seq<ForeignKey>)
    ensures Occurrences(MoveTrace(on, to, fks, true), RolledBack) == 1
    ensures Occurrences(MoveTrace(on, to, fks, true), Committed) == 0
  {
    var d := DropTrace(on, fks, true);
    var body := [HoldingAreaCreated] + d + [RolledBack];
    assert MoveTrace(on, to, fks, true) == [Began] + body;
    DropTraceQuiet(on, fks, true);
    forall e | e == Committed || e == RolledBack
      ensures Occurrences(MoveTrace(on, to, fks, true), e) == Occurrences([RolledBack], e)
    {
      OccurrencesAppend([HoldingAreaCreated], d, e);
      OccurrencesAppend([HoldingAreaCreated] + d, [RolledBack], e);
      OccurrencesAppend([Began], body, e);
    }
  }

  /** A live run holds every captured row too. */
  lemma LiveRunHeldRows(on: TableRef, to: string, fks: seq<ForeignKey>)
    ensures HeldRows(MoveTrace(on, to, fks, false)) == fks
  {
    var d := DropTrace(on, fks, false);
    var a := AddTrace(Destination(on, to), fks);
    DropTraceContents(on, fks, false);
    AddTraceHoldsNothing(Destination(on, to), fks);
    ProjectionsAppend([Ran(SetSchema(on, to))], a);
    ProjectionsAppend([HoldingAreaCreated], d);
    ProjectionsAppend([HoldingAreaCreated] + d, [Ran(SetSchema(on, to))] + a);
    ProjectionsAppend([Began], CallbackTrace(on, to, fks, false));
    ProjectionsAppend([Began] + CallbackTrace(on, to, fks, false), [Committed]);
  }

  lemma {:induction false} AddTraceHoldsNothing(dest: TableRef, fks: seq<ForeignKey>)
    ensures HeldRows(AddTrace(dest, fks)) == []
    decreases |fks|
  {
    if fks != [] {
      AddTraceHoldsNothing(dest, fks[..|fks| - 1]);
      ProjectionsAppend(AddTrace(dest, fks[..|fks| - 1]), [Ran(AddConstraint(dest, fks[|fks| - 1]))]);
    }
  }

  /** With no foreign keys, a live run creates the holding table and sets
      the schema, and that is all. */
  lemma NoForeignKeysTrace(on: TableRef, to: string)
    ensures MoveTrace(on, to, [], false) == [Began, HoldingAreaCreated, Ran(SetSchema(on, to)), Committed]
  {
    assert DropTrace(on, [], false) == [] && AddTrace(Destination(on, to), []) == [];
  }

  /** "Found N foreign key(s)" appears exactly when there are some, with N
      their number. */
  lemma FoundReportedIffAny(on: TableRef, to: string, fks: seq<ForeignKey>, dryRun: bool)
    ensures (exists n :: FoundForeignKeys(n) in MoveMessages(on, to, fks, dryRun)) <==> |fks| > 0
    ensures forall n :: FoundForeignKeys(n) in MoveMessages(on, to, fks, dryRun) ==> n == |fks|
  {
    DropMessagesKinds(fks, dryRun);
    RecreateMessagesKinds(fks, dryRun);
    if |fks| > 0 {
      assert MoveMessages(on, to, fks, dryRun)[0] == FoundForeignKeys(|fks|);
    }
  }

  lemma {:induction false} DropMessagesKinds(fks: seq<ForeignKey>, dryRun: bool)
    ensures forall m :: m in DropMessages(fks, dryRun) ==> m.WouldDrop? || m.Dropped?
    decreases |fks|
  {
    if fks != [] {
      DropMessagesKinds(fks[..|fks| - 1], dryRun);
    }
  }

  lemma {:induction false} RecreateMessagesKinds(fks: seq<ForeignKey>, dryRun: bool)
    ensures forall m :: m in RecreateMessages(fks, dryRun) ==> m.WouldRecreate? || m.Recreated?
    decreases |fks|
  {
    if fks != [] {
      RecreateMessagesKinds(fks[..|fks| - 1], dryRun);
    }
  }

  // ---------------------------------------------------------------------
  // The command
  // ---------------------------------------------------------------------

  /** The state `dropForeignKeys` has reached after its first `i` rows,
      starting from catalog `c0`, holding rows `held0` and log `log0`. */
  ghost predicate DroppedPrefix(db: Database, on: TableRef, fks: seq<ForeignKey>, i: nat, dryRun: bool,
                                c0: Catalog, held0: seq<ForeignKey>, log0: seq<Event>)
    reads db
    requires i <= |fks|
  {
    && db.holding == Some(held0 + fks[..i])
    && (dryRun ==> db.catalog == c0)
    && (!dryRun ==> DropAll(c0, on, fks[..i]) == Ok(db.catalog))
    && db.log == log0 + DropTrace(on, fks[..i], dryRun)
  }

  /** One iteration of `dropForeignKeys`: drop the constraint of row `i`
      (live runs only), then insert the row into the holding table. */
  method DropOne(db: Database, on: TableRef, fks: seq<ForeignKey>, i: nat, dryRun: bool,
                 ghost c0: Catalog, ghost held0: seq<ForeignKey>, ghost log0: seq<Event>)
    returns (r: Result<(), DbError>)
    requires i < |fks| && DroppedPrefix(db, on, fks, i, dryRun, c0, held0, log0)
    modifies db`catalog, db`log, db`holding
    ensures r.Ok? ==> DroppedPrefix(db, on, fks, i + 1, dryRun, c0, held0, log0)
    ensures r.Err? ==> !dryRun && DropAll(c0, on, fks) == Err(r.error)
  {
    var fk := fks[i];
    assert fks[..i + 1][..i] == fks[..i] && fks[..i + 1][i] == fk;
    DropTraceSnoc(on, fks[..i + 1], dryRun);
    ghost var before := db.catalog;
    ghost var done := DropTrace(on, fks[..i], dryRun);
    r := Ok(());
    if !dryRun {
      DropAllExtend(c0, on, fks, i, before);
      r := db.Statement(DropConstraint(on, fk.constraintName));
      if r.Err? {
        DropAllStopsAtError(c0, on, fks, i + 1);
        return;
      }
      db.Hold(fk);
      Regroup(log0 + done, [Ran(DropConstraint(on, fk.constraintName))], [Held(fk)]);
      Regroup(log0, done, [Ran(DropConstraint(on, fk.constraintName))] + [Held(fk)]);
    } else {
      db.Hold(fk);
      assert DropStepTrace(on, fk, dryRun) == [Held(fk)];
      Regroup(log0, done, [Held(fk)]);
    }
    assert fks[..i] + [fk] == fks[..i + 1];
    Regroup(held0, fks[..i], [fk]);
  }

  lemma DropMessagesStep(fks: seq<ForeignKey>, i: nat, dryRun: bool)
    requires i < |fks|
    ensures DropMessages(fks[..i + 1], dryRun)
              == DropMessages(fks[..i], dryRun)
                 + [if dryRun then WouldDrop(fks[i].constraintName) else Dropped(fks[i].constraintName)]
  {
    assert fks[..i + 1][..i] == fks[..i] && fks[..i + 1][i] == fks[i];
  }

  /** `dropForeignKeys`: for each row, drop its constraint (live runs only)
      and insert the row into the holding table. */
  method DropForeignKeys(db: Database, fks: seq<ForeignKey>, on: TableRef, dryRun: bool)
    returns (r: Result<(), DbError>, out: seq<Message>)
    requires db.holding.Some?
    modifies db`catalog, db`log, db`holding
    ensures dryRun ==> r.Ok? && db.catalog == old(db.catalog)
    ensures !dryRun && r.Ok? ==> DropAll(old(db.catalog), on, fks) == Ok(db.catalog)
    ensures !dryRun && r.Err? ==> DropAll(old(db.catalog), on, fks) == Err(r.error)
    ensures r.Ok? ==> db.holding == Some(old(db.holding).value + fks)
    ensures r.Ok? ==> db.log == old(db.log) + DropTrace(on, fks, dryRun)
    ensures r.Ok? ==> out == DropMessages(fks, dryRun)
    ensures AskedToProceed !in out
  {
    r := Ok(());
    out := [];
    ghost var c0, held0, log0 := db.catalog, db.holding.value, db.log;
    assert held0 + fks[..0] == held0;
    var i := 0;
    while i < |fks|
      invariant 0 <= i <= |fks| && r.Ok?
      invariant DroppedPrefix(db, on, fks, i, dryRun, c0, held0, log0)
      invariant out == DropMessages(fks[..i], dryRun)
    {
      var name := fks[i].constraintName;
      r := DropOne(db, on, fks, i, dryRun, c0, held0, log0);
      if r.Err? {
        return;
      }
      DropMessagesStep(fks, i, dryRun);
      out := out + [if dryRun then WouldDrop(name) else Dropped(name)];
      i := i + 1;
    }
    assert fks[..i] == fks;
  }

  /** `recreateForeignKeys`: read the holding table back and, on a live run,
      add one constraint per row on the moved table, referencing the row's
      own foreign schema and table. */
  method RecreateForeignKeys(db: Database, dest: TableRef, dryRun: bool)
    returns (r: Result<(), DbError>, out: seq<Message>)
    requires db.holding.Some?
    modifies db`catalog, db`log
    ensures dryRun ==> r.Ok? && db.catalog == old(db.catalog) && db.log == old(db.log)
    ensures !dryRun && r.Ok? ==> AddAll(old(db.catalog), dest, db.holding.value) == Ok(db.catalog)
    ensures !dryRun && r.Err? ==> AddAll(old(db.catalog), dest, db.holding.value) == Err(r.error)
    ensures !dryRun && r.Ok? ==> db.log == old(db.log) + AddTrace(dest, db.holding.value)
    ensures r.Ok? ==> out == RecreateMessages(db.holding.value, dryRun)
    ensures AskedToProceed !in out
  {
    var saved := db.holding.value;
    r := Ok(());
    out := [];
    var i := 0;
    while i < |saved|
      invariant 0 <= i <= |saved|
      invariant dryRun ==> db.catalog == old(db.catalog) && db.log == old(db.log)
      invariant !dryRun ==> AddAll(old(db.catalog), dest, saved[..i]) == Ok(db.catalog)
      invariant !dryRun ==> db.log == old(db.log) + AddTrace(dest, saved[..i])
      invariant out == RecreateMessages(saved[..i], dryRun)
    {
      var fk := saved[i];
      RecreateMessagesStep(saved, i, dryRun);
      if dryRun {
        out := out + [WouldRecreate(fk.constraintName, fk.Target())];
      } else {
        var added := RecreateOne(db, dest, saved, i, old(db.catalog), old(db.log));
        if added.Err? {
          r := added;
          return;
        }
        out := out + [Recreated(fk.constraintName, fk.Target())];
      }
      i := i + 1;
    }
    assert saved[..i] == saved;
  }

  lemma RecreateMessagesStep(saved: seq<ForeignKey>, i: nat, dryRun: bool)
    requires i < |saved|
    ensures RecreateMessages(saved[..i + 1], dryRun)
              == RecreateMessages(saved[..i], dryRun)
                 + [if dryRun then WouldRecreate(saved[i].constraintName, saved[i].Target())
                    else Recreated(saved[i].constraintName, saved[i].Target())]
  {
    assert saved[..i + 1][..i] == saved[..i] && saved[..i + 1][i] == saved[i];
  }

  /** One row of the re-add loop on a live run: ADD CONSTRAINT, which either
      extends the additions so far or ends the phase with its error. */
  method RecreateOne(db: Database, dest: TableRef, saved: seq<ForeignKey>, i: nat, ghost c0: Catalog, ghost log0: seq<Event>)
    returns (r: Result<(), DbError>)
    requires i < |saved|
    requires AddAll(c0, dest, saved[..i]) == Ok(db.catalog)
    requires db.log == log0 + AddTrace(dest, saved[..i])
    modifies db`catalog, db`log
    ensures r.Ok? ==> AddAll(c0, dest, saved[..i + 1]) == Ok(db.catalog)
                      && db.log == log0 + AddTrace(dest, saved[..i + 1])
    ensures r.Err? ==> AddAll(c0, dest, saved) == Err(r.error)
  {
    var fk := saved[i];
    assert saved[..i + 1][..i] == saved[..i] && saved[..i + 1][i] == fk;
    r := db.Statement(AddConstraint(dest, fk));
    if r.Err? {
      AddAllStopsAtError(c0, dest, saved, i + 1);
      return;
    }
    Regroup(log0, AddTrace(dest, saved[..i]), [Ran(AddConstraint(dest, fk))]);
  }

  /** The closure `moveTable` hands to `DB::transaction`: create the holding
      table, capture the rows, drop, set the schema, re-add, and on a dry
      run roll back. An error leaves the transaction open for the caller. */
  method MoveCallback(db: Database, on: TableRef, to: string, dryRun: bool)
    returns (r: Result<(), DbError>, out: seq<Message>)
    requires db.inTransaction && db.holding.None?
    modifies db
    ensures var fks := old(db.ForeignKeys(on));
            && (r.Ok? ==> db.log == old(db.log) + CallbackTrace(on, to, fks, dryRun))
            && (dryRun ==> r.Ok? && !db.inTransaction && db.holding.None? && db.catalog == old(db.snapshot))
            && (!dryRun ==> db.inTransaction && db.snapshot == old(db.snapshot))
            && (!dryRun && r.Ok? ==> LiveMove(old(db.catalog), on, to, fks) == Ok(db.catalog))
            && (!dryRun && r.Err? ==> LiveMove(old(db.catalog), on, to, fks) == Err(r.error))
            && (r.Ok? ==> out == MoveMessages(on, to, fks, dryRun))
            && AskedToProceed !in out
  {
    ghost var log0 := db.log;
    db.CreateHoldingArea();
    var fks := db.ForeignKeys(on);
    var found := if |fks| > 0 then [FoundForeignKeys(|fks|)] else [];
    assert AskedToProceed !in found;
    var dropOut;
    r, dropOut := DropForeignKeys(db, fks, on, dryRun);
    out := found + dropOut;
    if r.Err? {
      return;
    }
    assert [] + fks == fks;
    ghost var log1 := db.log;
    Regroup(log0, [HoldingAreaCreated], DropTrace(on, fks, dryRun));
    var moved;
    if dryRun {
      moved := WouldSetSchema(on, to);
    } else {
      r := db.Statement(SetSchema(on, to));
      if r.Err? {
        return;
      }
      moved := MovedToSchema(to);
    }
    out := out + [moved];
    var addOut;
    r, addOut := RecreateForeignKeys(db, Destination(on, to), dryRun);
    out := out + addOut;
    if r.Err? {
      return;
    }
    if dryRun {
      db.RollBack();
      Regroup(log0, [HoldingAreaCreated] + DropTrace(on, fks, dryRun), [RolledBack]);
    } else {
      Regroup(log0 + [HoldingAreaCreated], DropTrace(on, fks, dryRun), [Ran(SetSchema(on, to))]);
      Regroup(log1, [Ran(SetSchema(on, to))], AddTrace(Destination(on, to), fks));
      Regroup(log0, [HoldingAreaCreated] + DropTrace(on, fks, dryRun),
              [Ran(SetSchema(on, to))] + AddTrace(Destination(on, to), fks));
    }
  }

  /** `moveTable`: `DB::transaction` around the closure. An error rolls the
      transaction back and is raised; the transaction is committed only if
      the closure left it open, so a dry run commits nothing. */
  method MoveTable(db: Database, table: string, from: string, to: string, dryRun: bool)
    returns (r: Result<(), DbError>, out: seq<Message>)
    requires db.Valid() && !db.inTransaction
    modifies db
    ensures db.Valid() && !db.inTransaction
    ensures var on := TableRef(from, table);
            var fks := if on in old(db.catalog).relations then ForeignKeyQuery(old(db.catalog), on) else [];
            && (dryRun ==> r.Ok? && db.catalog == old(db.catalog)
                           && db.log == old(db.log) + MoveTrace(on, to, fks, true))
            && (!dryRun && r.Ok? ==> LiveMove(old(db.catalog), on, to, fks) == Ok(db.catalog)
                                     && db.log == old(db.log) + MoveTrace(on, to, fks, false))
            && (!dryRun && r.Err? ==> LiveMove(old(db.catalog), on, to, fks) == Err(r.error))
            && (r.Ok? ==> out == MoveMessages(on, to, fks, dryRun))
            && (r.Err? ==> db.catalog == old(db.catalog) && |db.log| > 0 && db.log[|db.log| - 1] == RolledBack)
            && AskedToProceed !in out
  {
    var on := TableRef(from, table);
    ghost var log0 := db.log;
    ghost var fks := db.ForeignKeys(on);
    db.BeginTransaction();
    r, out := MoveCallback(db, on, to, dryRun);
    if r.Err? {
      db.RollBack();
      return;
    }
    ghost var callback := CallbackTrace(on, to, fks, dryRun);
    if db.inTransaction {
      db.Commit();
      Regroup(log0, [Began], callback);
      Regroup(log0, [Began] + callback, [Committed]);
    } else {
      Regroup(log0, [Began], callback);
      assert [Began] + callback + [] == [Began] + callback;
    }
  }

  // ---------------------------------------------------------------------
  // handle
  // ---------------------------------------------------------------------

  /** The package's configured default schemas. */
  datatype Config = Config(defaultSourceSchema: string, defaultDestinationSchema: string)

  /** The defaults the package ships with. */
  const PackageDefaults := Config("external", "public")

  /** The command's argument and options. */
  datatype MoveOptions = MoveOptions(
    table: string,
    from: Option<string>,
    to: Option<string>,
    model: Option<string>,
    dryRun: bool,
    force: bool)

  /** What updating the model file depends on: the studly singular class name
      derived from the table, the application directory, the files that
      exist, and the connection's configured search_path. */
  datatype ModelEnv = ModelEnv(className: string, appDir: string, files: set<string>, searchPath: SearchPath)

  /** `updateModelTableProperty` up to the regular-expression edit: find the
      model file, then report or perform removing or setting `$table`. */
  function ModelUpdate(env: ModelEnv, model: Option<string>, table: string, schemaTo: string, dryRun: bool): (ms: seq<Message>)
    ensures |ms| == 1
    ensures ms[0].EditModel? ==> !dryRun && ms[0].change == PropertyChange(GetDefaultSchema(env.searchPath), schemaTo, table)
    ensures var path := AppPath(env.appDir, ModelRelativePath(model, env.className));
            var inDefault := GetDefaultSchema(env.searchPath) == Some(schemaTo);
            && (path !in env.files ==> ms == [ModelNotFound(path, model.None?)])
            && (path in env.files && !dryRun ==>
                  ms == [EditModel(path, PropertyChange(GetDefaultSchema(env.searchPath), schemaTo, table))])
            && (path in env.files && dryRun && inDefault ==> ms == [WouldRemoveProperty(path)])
            && (path in env.files && dryRun && !inDefault ==> ms == [WouldSetProperty(schemaTo + "." + table, path)])
  {
    var path := AppPath(env.appDir, ModelRelativePath(model, env.className));
    if path !in env.files then [ModelNotFound(path, model.None?)]
    else
      var change := PropertyChange(GetDefaultSchema(env.searchPath), schemaTo, table);
      if !dryRun then [EditModel(path, change)]
      else match change
        case RemoveProperty => [WouldRemoveProperty(path)]
        case SetProperty(v) => [WouldSetProperty(v, path)]
  }

  /** What `moveTable`'s outcome means for the command: a live run succeeds
      exactly when `MoveSucceeds`, leaving the catalog `Moved`, and a failure
      is the live move's own error. */
  lemma MoveOutcome(c: Catalog, on: TableRef, to: string, dryRun: bool, r: Result<(), DbError>, after: Catalog)
    requires on in c.relations
    requires dryRun ==> r.Ok? && after == c
    requires !dryRun && r.Ok? ==> LiveMove(c, on, to, ForeignKeyQuery(c, on)) == Ok(after)
    requires !dryRun && r.Err? ==> LiveMove(c, on, to, ForeignKeyQuery(c, on)) == Err(r.error)
    ensures !dryRun ==> (r.Ok? <==> MoveSucceeds(c, on, to))
    ensures !dryRun && r.Ok? ==> after == Moved(c, on, to)
    ensures r.Err? ==> !dryRun && LiveMove(c, on, to, ForeignKeyQuery(c, on)) == Err(r.error)
  {
    LiveMoveSpec(c, on, to);
  }

  /** The `try` block of `handle`: move the table, then update the model;
      any error raised by the move becomes a FAILURE naming it. */
  method MoveAndUpdateModel(db: Database, opts: MoveOptions, from: string, to: string, env: ModelEnv)
    returns (code: ExitCode, out: seq<Message>)
    requires db.Valid() && !db.inTransaction
    requires TableRef(from, opts.table) in db.catalog.relations
    modifies db
    ensures db.Valid() && !db.inTransaction
    ensures var on := TableRef(from, opts.table);
            var c := old(db.catalog);
            && AskedToProceed !in out
            && (opts.dryRun ==> code == Success && db.catalog == c
                                && db.log == old(db.log) + MoveTrace(on, to, ForeignKeyQuery(c, on), true))
            && (!opts.dryRun ==> (code == Success <==> MoveSucceeds(c, on, to)))
            && (!opts.dryRun && code == Success ==>
                  db.catalog == Moved(c, on, to) && db.log == old(db.log) + MoveTrace(on, to, ForeignKeyQuery(c, on), false))
            && (code == Failure ==> db.catalog == c && !opts.dryRun && EndsWithMoveError(out, c, on, to))
            && (code == Success ==>
                  && out == MoveMessages(on, to, ForeignKeyQuery(c, on), opts.dryRun)
                            + ModelUpdate(env, opts.model, opts.table, to, opts.dryRun)
                            + [if opts.dryRun then DryRunCompleted else MovedSuccessfully])
  {
    ghost var on := TableRef(from, opts.table);
    ghost var c := db.catalog;
    var r, moveOut := MoveTable(db, opts.table, from, to, opts.dryRun);
    MoveOutcome(c, on, to, opts.dryRun, r, db.catalog);
    if r.Err? {
      out := moveOut + [Failed(r.error)];
      code := Failure;
      return;
    }
    var modelOut := ModelUpdate(env, opts.model, opts.table, to, opts.dryRun);
    var last := if opts.dryRun then DryRunCompleted else MovedSuccessfully;
    assert AskedToProceed !in moveOut && AskedToProceed !in modelOut;
    assert AskedToProceed !in moveOut + modelOut;
    out := moveOut + modelOut + [last];
    code := Success;
  }

  /** `handle`: resolve the schemas, check the table, ask unless forced or
      dry, then move and update the model. `confirmed` is the answer to the
      prompt. The model update reports, and never changes the exit code. */
  method Handle(db: Database, opts: MoveOptions, config: Config, confirmed: bool, env: ModelEnv)
    returns (code: ExitCode, out: seq<Message>)
    requires db.Valid() && !db.inTransaction
    modifies db
    ensures db.Valid() && !db.inTransaction
    ensures var from := opts.from.OrElse(config.defaultSourceSchema);
            var to := opts.to.OrElse(config.defaultDestinationSchema);
            var on := TableRef(from, opts.table);
            var c := old(db.catalog);
            var proceeds := on in c.relations && (opts.force || opts.dryRun || confirmed);
            && (on !in c.relations ==> code == Failure && |out| > 0 && out[|out| - 1] == TableNotFound(opts.table, from))
            && (AskedToProceed in out <==> on in c.relations && !opts.force && !opts.dryRun)
            && (!proceeds ==> db.catalog == c && db.log == old(db.log))
            && (on in c.relations && !proceeds ==> code == Success && |out| > 0 && out[|out| - 1] == Cancelled)
            && (opts.dryRun ==> db.catalog == c)
            && (proceeds && opts.dryRun ==>
                  code == Success && db.log == old(db.log) + MoveTrace(on, to, ForeignKeyQuery(c, on), true))
            && (proceeds && !opts.dryRun ==> (code == Success <==> MoveSucceeds(c, on, to)))
            && (proceeds && !opts.dryRun && code == Success ==>
                  db.catalog == Moved(c, on, to) && db.log == old(db.log) + MoveTrace(on, to, ForeignKeyQuery(c, on), false))
            && (proceeds && code == Failure ==> db.catalog == c && !opts.dryRun && EndsWithMoveError(out, c, on, to))
  {
    var from := opts.from.OrElse(config.defaultSourceSchema);
    var to := opts.to.OrElse(config.defaultDestinationSchema);
    var on := TableRef(from, opts.table);
    var banner := if opts.dryRun then [DryRunBanner] else [];
    if !db.TableExists(on) {
      out := banner + [TableNotFound(opts.table, from)];
      code := Failure;
      return;
    }
    var header := banner + [Summary(opts.table, from, to)];
    assert AskedToProceed !in header;
    if !opts.force && !opts.dryRun {
      header := header + [AskedToProceed];
      if !confirmed {
        out := header + [Cancelled];
        code := Success;
        return;
      }
    }
    var rest;
    code, rest := MoveAndUpdateModel(db, opts, from, to, env);
    out := header + rest;
  }
}
