/** The slice of a PostgreSQL catalog that moving a table touches, and the
    effect of the three DDL statements the move issues (DROP CONSTRAINT,
    SET SCHEMA, ADD CONSTRAINT) on it. The statements' effects are pure
    functions; the database session that runs them is in MoveTableToSchema. */
module Catalog {
  import opened Wrappers

  /** A relation, named by schema and table. */
  datatype TableRef = TableRef(schema: string, table: string)

  /** One foreign-key row: a constraint on the table, the local column, the
      referenced relation and column, and the referential actions. A
      constraint over several columns has one row per column, all with the
      same name. Constraint names are unique per table only, so two tables
      may each carry a constraint of the same name. */
  datatype ForeignKey = ForeignKey(
    constraintName: string,
    columnName: string,
    foreignSchema: string,
    foreignTable: string,
    foreignColumn: string,
    updateRule: string,
    deleteRule: string)
  {
    /** The relation the constraint references. */
    function Target(): TableRef {
      TableRef(foreignSchema, foreignTable)
    }
  }

  /** A constraint of another kind (primary key, unique or check) as the
      foreign-key query sees it: its name, how many columns the key-column
      view lists for it (those of a primary key or unique constraint, none
      for a check), and how many the referenced-column view lists (the
      columns it uses). */
  datatype OtherConstraint = OtherConstraint(name: string, keyColumns: nat, usedColumns: nat)

  /** The schemas that exist, for every relation the foreign-key rows
      defined on it, in catalog order, and the constraints of other kinds
      on any relation. No statement of the move changes the latter. */
  datatype Catalog = Catalog(
    schemas: set<string>,
    relations: map<TableRef, seq<ForeignKey>>,
    others: seq<OtherConstraint>)

  /** The errors PostgreSQL raises for these statements. */
  datatype DbError =
    | UndefinedRelation(relation: TableRef)
    | UndefinedConstraint(on: TableRef, name: string)
    | DuplicateRelation(relation: TableRef)
    | InvalidSchemaName(schema: string)
    | DuplicateConstraint(on: TableRef, name: string)
    | OwnedSequence(schema: string, sequence: string)

  /** The DDL statements the move issues. */
  datatype Ddl =
    | DropConstraint(on: TableRef, name: string)
    | SetSchema(on: TableRef, to: string)
    | AddConstraint(on: TableRef, fk: ForeignKey)

  /** The constraint names among some foreign-key rows. */
  function Names(rows: seq<ForeignKey>): set<string> {
    set fk | fk in rows :: fk.constraintName
  }

  /** No two rows carry the same constraint name. */
  predicate Distinct(rows: seq<ForeignKey>) {
    forall i, j :: 0 <= i < j < |rows| ==> rows[i].constraintName != rows[j].constraintName
  }

  /** The rows whose constraint is not named in `dropped`, in order. */
  function Without(rows: seq<ForeignKey>, dropped: set<string>): seq<ForeignKey>
    decreases |rows|
  {
    if rows == [] then []
    else (if rows[0].constraintName in dropped then [] else [rows[0]]) + Without(rows[1..], dropped)
  }

  /** `Without` keeps exactly the rows whose constraint is not dropped. */
  lemma {:induction false} WithoutMembers(rows: seq<ForeignKey>, dropped: set<string>)
    ensures forall fk :: fk in Without(rows, dropped) <==> fk in rows && fk.constraintName !in dropped
    decreases |rows|
  {
    if rows != [] {
      WithoutMembers(rows[1..], dropped);
      assert forall fk :: fk in rows <==> fk == rows[0] || fk in rows[1..];
    }
  }

  /** Where a table lands when it moves to schema `to`. */
  function Destination(on: TableRef, to: string): TableRef {
    TableRef(to, on.table)
  }

  /** A row after `on` has moved to schema `to`: a constraint holds its
      referenced relation by identity, not by name, so a reference to `on`
      now names the new schema. */
  function Retarget(fk: ForeignKey, on: TableRef, to: string): ForeignKey {
    if fk.Target() == on then fk.(foreignSchema := to) else fk
  }

  /** Every row of a table after `on` has moved to `to`. */
  function RetargetRows(rows: seq<ForeignKey>, on: TableRef, to: string): (r: seq<ForeignKey>)
    ensures |r| == |rows|
    ensures forall i :: 0 <= i < |rows| ==> r[i] == Retarget(rows[i], on, to)
  {
    seq(|rows|, i requires 0 <= i < |rows| => Retarget(rows[i], on, to))
  }

  /** Every row of every relation after `on` has moved to `to`. */
  function RetargetAll(rels: map<TableRef, seq<ForeignKey>>, on: TableRef, to: string): (m: map<TableRef, seq<ForeignKey>>)
    ensures m.Keys == rels.Keys
    ensures forall r :: r in rels ==> m[r] == RetargetRows(rels[r], on, to)
  {
    map r | r in rels :: RetargetRows(rels[r], on, to)
  }

  /** The effect of one statement on the catalog, or the error it raises.
      DROP CONSTRAINT removes every row of the named constraint; SET SCHEMA
      into the table's own schema changes nothing, and otherwise renames the
      table and every reference to it; ADD CONSTRAINT needs the referenced
      relation to exist. */
  function Apply(c: Catalog, s: Ddl): Result<Catalog, DbError> {
    if s.on !in c.relations then Err(UndefinedRelation(s.on))
    else
      match s
      case DropConstraint(on, name) =>
        if name !in Names(c.relations[on]) then Err(UndefinedConstraint(on, name))
        else Ok(c.(relations := c.relations[on := Without(c.relations[on], {name})]))
      case SetSchema(on, to) =>
        var dest := Destination(on, to);
        if to !in c.schemas then Err(InvalidSchemaName(to))
        else if on.schema == to then Ok(c)
        else if dest in c.relations then Err(DuplicateRelation(dest))
        else Ok(c.(relations := RetargetAll((c.relations - {on})[dest := c.relations[on]], on, to)))
      case AddConstraint(on, fk) =>
        if fk.constraintName in Names(c.relations[on]) then Err(DuplicateConstraint(on, fk.constraintName))
        else if fk.Target() !in c.relations then Err(UndefinedRelation(fk.Target()))
        else Ok(c.(relations := c.relations[on := c.relations[on] + [fk]]))
  }

  /** Dropping the constraint of each row of `fks` on `on`, in order, stopping
      at the first error. */
  function DropAll(c: Catalog, on: TableRef, fks: seq<ForeignKey>): Result<Catalog, DbError>
    decreases |fks|
  {
    if fks == [] then Ok(c)
    else
      match DropAll(c, on, fks[..|fks| - 1])
      case Err(e) => Err(e)
      case Ok(c') => Apply(c', DropConstraint(on, fks[|fks| - 1].constraintName))
  }

  /** Adding each row of `fks` as a constraint on `on`, in order, stopping at
      the first error. */
  function AddAll(c: Catalog, on: TableRef, fks: seq<ForeignKey>): Result<Catalog, DbError>
    decreases |fks|
  {
    if fks == [] then Ok(c)
    else
      match AddAll(c, on, fks[..|fks| - 1])
      case Err(e) => Err(e)
      case Ok(c') => Apply(c', AddConstraint(on, fks[|fks| - 1]))
  }

  /** The DDL of a live move, run on the catalog: drop every captured
      constraint, set the schema, re-add every captured row unchanged. */
  function LiveMove(c: Catalog, on: TableRef, to: string, fks: seq<ForeignKey>): Result<Catalog, DbError> {
    match DropAll(c, on, fks)
    case Err(e) => Err(e)
    case Ok(c1) =>
      match Apply(c1, SetSchema(on, to))
      case Err(e) => Err(e)
      case Ok(c2) => AddAll(c2, Destination(on, to), fks)
  }

  /** The intended result of moving `on` to `to`: the table, with exactly the
      foreign-key rows it had, now lives in `to`; every other table keeps its
      rows, except that those referencing the moved table now name `to`. */
  function Moved(c: Catalog, on: TableRef, to: string): (m: Catalog)
    requires on in c.relations
    ensures m.schemas == c.schemas && m.others == c.others
    ensures m.relations.Keys == c.relations.Keys - {on} + {Destination(on, to)}
    ensures m.relations[Destination(on, to)] == c.relations[on]
    ensures forall r :: r in c.relations && r != on && r != Destination(on, to) ==>
              m.relations[r] == RetargetRows(c.relations[r], on, to)
  {
    c.(relations := RetargetAll(c.relations - {on}, on, to)[Destination(on, to) := c.relations[on]])
  }

  /** Every row references a relation that exists. */
  predicate Resolved(c: Catalog) {
    forall r, fk :: r in c.relations && fk in c.relations[r] ==> fk.Target() in c.relations
  }

  /** When a live move of a table with its own foreign-key rows succeeds:
      each of its constraints has one row and no other table carries a
      constraint of the same name, the destination schema exists and holds
      no relation of that name (unless it is the source schema), and every
      referenced relation exists once the table has moved. */
  predicate MoveSucceeds(c: Catalog, on: TableRef, to: string)
    requires on in c.relations
  {
    && Unique(c, on)
    && to in c.schemas
    && (on.schema == to || Destination(on, to) !in c.relations)
    && forall fk :: fk in c.relations[on] ==> fk.Target() in Moved(c, on, to).relations
  }

  // ---------------------------------------------------------------------
  // Lemmas about rows and names
  // ---------------------------------------------------------------------

  lemma NamesAppend(p: seq<ForeignKey>, x: ForeignKey)
    ensures Names(p + [x]) == Names(p) + {x.constraintName}
  {
    assert forall fk :: fk in p + [x] <==> fk in p || fk == x;
  }

  lemma DistinctAppend(p: seq<ForeignKey>, x: ForeignKey)
    ensures Distinct(p + [x]) <==> Distinct(p) && x.constraintName !in Names(p)
  {
    var q := p + [x];
    if Distinct(q) {
      assert forall i, j :: 0 <= i < j < |p| ==> p[i] == q[i] && p[j] == q[j];
      forall fk | fk in p ensures fk.constraintName != x.constraintName {
        var i :| 0 <= i < |p| && p[i] == fk;
        assert q[i] == fk && q[|p|] == x;
      }
    }
    if Distinct(p) && x.constraintName !in Names(p) {
      forall i, j | 0 <= i < j < |q| ensures q[i].constraintName != q[j].constraintName {
        if j == |p| {
          assert q[i] in p;
        } else {
          assert q[i] == p[i] && q[j] == p[j];
        }
      }
    }
  }

  lemma {:induction false} WithoutWithout(rows: seq<ForeignKey>, a: set<string>, b: set<string>)
    ensures Without(Without(rows, a), b) == Without(rows, a + b)
    decreases |rows|
  {
    if rows != [] {
      WithoutWithout(rows[1..], a, b);
      var head := if rows[0].constraintName in a then [] else [rows[0]];
      assert Without(rows, a) == head + Without(rows[1..], a);
      if head != [] {
        assert Without(rows, a)[1..] == Without(rows[1..], a);
      } else {
        assert Without(rows, a) == Without(rows[1..], a);
      }
    }
  }

  lemma {:induction false} WithoutEverything(rows: seq<ForeignKey>, dropped: set<string>)
    requires Names(rows) <= dropped
    ensures Without(rows, dropped) == []
    decreases |rows|
  {
    if rows != [] {
      assert rows[0] in rows;
      assert Names(rows[1..]) <= Names(rows) by {
        forall fk | fk in rows[1..] ensures fk in rows { }
      }
      WithoutEverything(rows[1..], dropped);
    }
  }

  /** Some row of `b` repeats a name, so the concatenation does too. */
  lemma RepeatSurvivesPrefix(a: seq<ForeignKey>, b: seq<ForeignKey>)
    requires !Distinct(b)
    ensures !Distinct(a + b)
  {
    var i, j :| 0 <= i < j < |b| && b[i].constraintName == b[j].constraintName;
    assert (a + b)[|a| + i] == b[i] && (a + b)[|a| + j] == b[j];
  }

  // ---------------------------------------------------------------------
  // The foreign-key query
  // ---------------------------------------------------------------------

  /** Every row, in any table, of a constraint named `n`, by table and position. */
  function NamedRows(c: Catalog, n: string): set<(TableRef, nat)> {
    set r: TableRef, i: nat | r in c.relations && i < |c.relations[r]| && c.relations[r][i].constraintName == n :: (r, i)
  }

  /** The tables carrying a constraint named `n`. */
  function NamedTables(c: Catalog, n: string): set<TableRef> {
    set r | r in c.relations && n in Names(c.relations[r])
  }

  /** How many columns the key-column view lists for the constraints of
      other kinds named `n`. */
  function OtherKeyColumns(others: seq<OtherConstraint>, n: string): (k: nat)
    ensures k == 0 <==> forall o :: o in others && o.name == n ==> o.keyColumns == 0
    decreases |others|
  {
    if others == [] then 0
    else
      assert forall o :: o in others <==> o == others[0] || o in others[1..];
      (if others[0].name == n then others[0].keyColumns else 0) + OtherKeyColumns(others[1..], n)
  }

  /** How many columns the referenced-column view lists for the constraints
      of other kinds named `n`. */
  function OtherUsedColumns(others: seq<OtherConstraint>, n: string): (u: nat)
    ensures u == 0 <==> forall o :: o in others && o.name == n ==> o.usedColumns == 0
    decreases |others|
  {
    if others == [] then 0
    else
      assert forall o :: o in others <==> o == others[0] || o in others[1..];
      (if others[0].name == n then others[0].usedColumns else 0) + OtherUsedColumns(others[1..], n)
  }

  /** How many rows the foreign-key query yields for one constraint of the
      table, named `n`. The query joins the key-column, referenced-column and
      referential-constraint views to the table's constraint on the name
      alone: each of the first two matches every foreign-key row of that
      name in any table and every column it lists for a constraint of
      another kind of that name; the third matches every table carrying a
      foreign key of that name. */
  function JoinCount(c: Catalog, n: string): nat {
    (|NamedRows(c, n)| + OtherKeyColumns(c.others, n))
    * (|NamedRows(c, n)| + OtherUsedColumns(c.others, n))
    * |NamedTables(c, n)|
  }

  /** Each constraint of the table has a single row, no other table carries
      a foreign key of the same name, and no constraint of another kind of
      that name lists a column in either view. */
  predicate Unique(c: Catalog, on: TableRef)
    requires on in c.relations
  {
    forall i :: 0 <= i < |c.relations[on]| ==>
      var n := c.relations[on][i].constraintName;
      NamedRows(c, n) == {(on, i)} && OtherKeyColumns(c.others, n) == 0 && OtherUsedColumns(c.others, n) == 0
  }

  /** `getForeignKeys` on table `on`: for each of its constraints, in the
      order of their first rows, as many copies of that first row as the
      join matches. */
  function ForeignKeyQuery(c: Catalog, on: TableRef): seq<ForeignKey>
    requires on in c.relations
  {
    JoinRows(c, c.relations[on], {})
  }

  /** The query's rows for the constraints of `rows` not named in `seen`. */
  function JoinRows(c: Catalog, rows: seq<ForeignKey>, seen: set<string>): (q: seq<ForeignKey>)
    ensures forall fk :: fk in q ==> fk in rows
    decreases |rows|
  {
    if rows == [] then []
    else if rows[0].constraintName in seen then JoinRows(c, rows[1..], seen)
    else seq(JoinCount(c, rows[0].constraintName), _ => rows[0])
         + JoinRows(c, rows[1..], seen + {rows[0].constraintName})
  }

  /** A unique constraint is matched once by each join. */
  lemma UniqueJoinCount(c: Catalog, on: TableRef, i: nat)
    requires on in c.relations && Unique(c, on) && i < |c.relations[on]|
    ensures JoinCount(c, c.relations[on][i].constraintName) == 1
  {
    var n := c.relations[on][i].constraintName;
    assert NamedRows(c, n) == {(on, i)};
    assert c.relations[on][i] in c.relations[on];
    forall r | r in NamedTables(c, n) ensures r == on {
      var fk :| fk in c.relations[r] && fk.constraintName == n;
      var j :| 0 <= j < |c.relations[r]| && c.relations[r][j] == fk;
      assert (r, j) in NamedRows(c, n);
    }
    assert NamedTables(c, n) == {on};
  }

  /** Unique constraints carry distinct names. */
  lemma UniqueDistinct(c: Catalog, on: TableRef)
    requires on in c.relations && Unique(c, on)
    ensures Distinct(c.relations[on])
  {
    var rows := c.relations[on];
    forall i, j | 0 <= i < j < |rows| ensures rows[i].constraintName != rows[j].constraintName {
      assert (on, j) in NamedRows(c, rows[j].constraintName);
      assert (on, j) !in NamedRows(c, rows[i].constraintName);
    }
  }

  /** Rows matched once each come back as they are. */
  lemma {:induction false} JoinRowsOnce(c: Catalog, s: seq<ForeignKey>, seen: set<string>)
    requires Distinct(s)
    requires forall k :: 0 <= k < |s| ==> JoinCount(c, s[k].constraintName) == 1 && s[k].constraintName !in seen
    ensures JoinRows(c, s, seen) == s
    decreases |s|
  {
    if s != [] {
      var n := s[0].constraintName;
      var t := s[1..];
      forall k | 0 <= k < |t| ensures JoinCount(c, t[k].constraintName) == 1 && t[k].constraintName !in seen + {n} {
        assert t[k] == s[k + 1];
      }
      forall i, j | 0 <= i < j < |t| ensures t[i].constraintName != t[j].constraintName {
        assert t[i] == s[i + 1] && t[j] == s[j + 1];
      }
      JoinRowsOnce(c, t, seen + {n});
      assert seq(1, _ => s[0]) == [s[0]];
    }
  }

  /** A constraint the join matches more than once repeats its name in the result. */
  lemma {:induction false} JoinRowsRepeats(c: Catalog, s: seq<ForeignKey>, seen: set<string>, k: nat)
    requires k < |s| && s[k].constraintName !in seen && JoinCount(c, s[k].constraintName) >= 2
    ensures !Distinct(JoinRows(c, s, seen))
    decreases |s|
  {
    var n := s[k].constraintName;
    if s[0].constraintName == n {
      var copies := seq(JoinCount(c, n), _ => s[0]);
      var q := copies + JoinRows(c, s[1..], seen + {n});
      assert JoinRows(c, s, seen) == q;
      assert q[0] == s[0] && q[1] == s[0];
    } else {
      var seen' := if s[0].constraintName in seen then seen else seen + {s[0].constraintName};
      assert s[1..][k - 1] == s[k];
      JoinRowsRepeats(c, s[1..], seen', k - 1);
      if s[0].constraintName !in seen {
        RepeatSurvivesPrefix(seq(JoinCount(c, s[0].constraintName), _ => s[0]), JoinRows(c, s[1..], seen'));
      }
    }
  }

  /** A product of positive factors, one of them at least two. */
  lemma ProductAtLeastTwo(x: nat, y: nat, z: nat)
    requires x >= 1 && y >= 1 && z >= 1 && (x >= 2 || y >= 2)
    ensures x * y * z >= 2
  {
    assert x * y >= x && x * y >= y;
    assert x * y * z >= x * y;
  }

  /** A name matched by anything besides the table's one row of it (a
      second foreign-key row anywhere, or a column of a constraint of
      another kind) is matched at least twice. */
  lemma RepeatedNameJoinCount(c: Catalog, on: TableRef, i: nat)
    requires on in c.relations && i < |c.relations[on]|
    requires var n := c.relations[on][i].constraintName;
             !(NamedRows(c, n) == {(on, i)} && OtherKeyColumns(c.others, n) == 0 && OtherUsedColumns(c.others, n) == 0)
    ensures JoinCount(c, c.relations[on][i].constraintName) >= 2
  {
    var n := c.relations[on][i].constraintName;
    var rows := NamedRows(c, n);
    assert (on, i) in rows;
    assert c.relations[on][i] in c.relations[on];
    assert on in NamedTables(c, n);
    var a, k, u := |rows|, OtherKeyColumns(c.others, n), OtherUsedColumns(c.others, n);
    if rows != {(on, i)} {
      var other :| other in rows && other != (on, i);
      assert |rows - {(on, i)}| >= 1 by {
        assert other in rows - {(on, i)};
      }
      assert a >= 2;
    } else {
      assert a == 1 && k + u > 0;
    }
    ProductAtLeastTwo(a + k, a + u, |NamedTables(c, n)|);
  }

  /** The query yields the table's own rows, each once, exactly when the
      table's constraints are unique; otherwise some constraint name repeats
      in it. Every row it yields is one of the table's. */
  lemma QuerySpec(c: Catalog, on: TableRef)
    requires on in c.relations
    ensures Distinct(ForeignKeyQuery(c, on)) <==> Unique(c, on)
    ensures Unique(c, on) ==> ForeignKeyQuery(c, on) == c.relations[on]
    ensures forall fk :: fk in ForeignKeyQuery(c, on) ==> fk in c.relations[on]
  {
    var rows := c.relations[on];
    if Unique(c, on) {
      UniqueDistinct(c, on);
      forall k | 0 <= k < |rows| ensures JoinCount(c, rows[k].constraintName) == 1 {
        UniqueJoinCount(c, on, k);
      }
      JoinRowsOnce(c, rows, {});
    } else {
      var i :| 0 <= i < |rows| &&
               var n := rows[i].constraintName;
               !(NamedRows(c, n) == {(on, i)} && OtherKeyColumns(c.others, n) == 0 && OtherUsedColumns(c.others, n) == 0);
      RepeatedNameJoinCount(c, on, i);
      JoinRowsRepeats(c, rows, {}, i);
    }
  }

  // ---------------------------------------------------------------------
  // The phases of a live move
  // ---------------------------------------------------------------------

  /** One drop, on a table whose rows are those of `rows` not yet dropped:
      it fails exactly when the name was dropped already. */
  lemma DropStep(c: Catalog, on: TableRef, rows: seq<ForeignKey>, dropped: set<string>, x: ForeignKey)
    requires on in c.relations && c.relations[on] == Without(rows, dropped)
    requires x in rows
    ensures Apply(c, DropConstraint(on, x.constraintName)).Ok? <==> x.constraintName !in dropped
    ensures Apply(c, DropConstraint(on, x.constraintName)).Ok? ==>
              Apply(c, DropConstraint(on, x.constraintName)).value
                == c.(relations := c.relations[on := Without(rows, dropped + {x.constraintName})])
  {
    WithoutMembers(rows, dropped);
    if x.constraintName !in dropped {
      assert x in c.relations[on];
      WithoutWithout(rows, dropped, {x.constraintName});
    }
  }

  /** What dropping the constraints of the rows `p` leaves of the table's rows. */
  predicate DroppedAsSpecified(c: Catalog, on: TableRef, p: seq<ForeignKey>)
    requires on in c.relations
  {
    && (DropAll(c, on, p).Ok? <==> Distinct(p))
    && (DropAll(c, on, p).Ok? ==>
          DropAll(c, on, p).value == c.(relations := c.relations[on := Without(c.relations[on], Names(p))]))
  }

  /** Dropping the constraints of rows taken from the table itself succeeds
      exactly when no name repeats; what is left of the table's rows are
      those whose constraint was not dropped. */
  lemma {:induction false} DropAllSpec(c: Catalog, on: TableRef, p: seq<ForeignKey>)
    requires on in c.relations
    requires forall fk :: fk in p ==> fk in c.relations[on]
    ensures DropAll(c, on, p).Ok? <==> Distinct(p)
    ensures DropAll(c, on, p).Ok? ==>
              DropAll(c, on, p).value == c.(relations := c.relations[on := Without(c.relations[on], Names(p))])
    decreases |p|
  {
    if p == [] {
      assert Names(p) == {};
      WithoutNothing(c.relations[on]);
      assert c.relations[on := c.relations[on]] == c.relations;
    } else {
      var p', x := p[..|p| - 1], p[|p| - 1];
      assert p == p' + [x];
      forall fk | fk in p' ensures fk in c.relations[on] {
        assert fk in p;
      }
      DropAllSpec(c, on, p');
      DropAllSnoc(c, on, p', x);
    }
  }

  /** The inductive step of DropAllSpec. */
  lemma DropAllSnoc(c: Catalog, on: TableRef, p': seq<ForeignKey>, x: ForeignKey)
    requires on in c.relations && x in c.relations[on]
    requires DroppedAsSpecified(c, on, p')
    ensures DroppedAsSpecified(c, on, p' + [x])
  {
    var rows := c.relations[on];
    var p := p' + [x];
    assert p[..|p| - 1] == p' && p[|p| - 1] == x;
    DistinctAppend(p', x);
    NamesAppend(p', x);
    if Distinct(p') {
      var c1 := c.(relations := c.relations[on := Without(rows, Names(p'))]);
      assert DropAll(c, on, p) == Apply(c1, DropConstraint(on, x.constraintName));
      DropStep(c1, on, rows, Names(p'), x);
      assert c1.relations[on := Without(rows, Names(p))] == c.relations[on := Without(rows, Names(p))];
    } else {
      assert DropAll(c, on, p).Err?;
    }
  }

  lemma {:induction false} WithoutNothing(rows: seq<ForeignKey>)
    ensures Without(rows, {}) == rows
    decreases |rows|
  {
    if rows != [] {
      WithoutNothing(rows[1..]);
    }
  }

  /** Adding distinct rows to a table that has none succeeds exactly when
      every referenced relation exists; the table then carries exactly those
      rows, in order. */
  lemma {:induction false} AddAllSpec(c: Catalog, on: TableRef, p: seq<ForeignKey>)
    requires on in c.relations && c.relations[on] == []
    requires Distinct(p)
    ensures AddAll(c, on, p).Ok? <==> forall fk :: fk in p ==> fk.Target() in c.relations
    ensures AddAll(c, on, p).Ok? ==> AddAll(c, on, p).value == c.(relations := c.relations[on := p])
    decreases |p|
  {
    if p == [] {
      assert c.relations[on := []] == c.relations;
    } else {
      var p', x := p[..|p| - 1], p[|p| - 1];
      assert p == p' + [x];
      DistinctAppend(p', x);
      AddAllSpec(c, on, p');
      match AddAll(c, on, p')
      case Err(e) =>
        assert exists fk :: fk in p' && fk.Target() !in c.relations;
      case Ok(c1) =>
        assert c1.relations.Keys == c.relations.Keys;
        assert c1.relations[on] == p';
        assert c1.relations[on := p' + [x]] == c.relations[on := p];
    }
  }

  /** The drop phase over one more row is one more DROP CONSTRAINT. */
  lemma DropAllExtend(c: Catalog, on: TableRef, fks: seq<ForeignKey>, i: nat, c': Catalog)
    requires i < |fks| && DropAll(c, on, fks[..i]) == Ok(c')
    ensures DropAll(c, on, fks[..i + 1]) == Apply(c', DropConstraint(on, fks[i].constraintName))
  {
    assert fks[..i + 1][..i] == fks[..i];
  }

  /** The re-add phase over one more row is one more ADD CONSTRAINT. */
  lemma AddAllExtend(c: Catalog, on: TableRef, fks: seq<ForeignKey>, i: nat, c': Catalog)
    requires i < |fks| && AddAll(c, on, fks[..i]) == Ok(c')
    ensures AddAll(c, on, fks[..i + 1]) == Apply(c', AddConstraint(on, fks[i]))
  {
    assert fks[..i + 1][..i] == fks[..i];
  }

  /** Once a prefix of the drops fails, the whole drop phase fails with that error. */
  lemma {:induction false} DropAllStopsAtError(c: Catalog, on: TableRef, fks: seq<ForeignKey>, k: nat)
    requires k <= |fks| && DropAll(c, on, fks[..k]).Err?
    ensures DropAll(c, on, fks) == DropAll(c, on, fks[..k])
    decreases |fks| - k
  {
    if k < |fks| {
      assert fks[..k + 1][..k] == fks[..k];
      DropAllStopsAtError(c, on, fks, k + 1);
    } else {
      assert fks[..k] == fks;
    }
  }

  /** Once a prefix of the additions fails, the whole phase fails with that error. */
  lemma {:induction false} AddAllStopsAtError(c: Catalog, on: TableRef, fks: seq<ForeignKey>, k: nat)
    requires k <= |fks| && AddAll(c, on, fks[..k]).Err?
    ensures AddAll(c, on, fks) == AddAll(c, on, fks[..k])
    decreases |fks| - k
  {
    if k < |fks| {
      assert fks[..k + 1][..k] == fks[..k];
      AddAllStopsAtError(c, on, fks, k + 1);
    } else {
      assert fks[..k] == fks;
    }
  }

  /** The move theorem: a live move that re-adds the rows the foreign-key
      query captured succeeds exactly under MoveSucceeds, and then the
      catalog is Moved — the table is in `to`, carrying every captured row
      verbatim (the referenced schema included), and the references of other
      tables to it name `to`. */
  lemma LiveMoveSpec(c: Catalog, on: TableRef, to: string)
    requires on in c.relations
    ensures LiveMove(c, on, to, ForeignKeyQuery(c, on)).Ok? <==> MoveSucceeds(c, on, to)
    ensures LiveMove(c, on, to, ForeignKeyQuery(c, on)).Ok? ==>
              LiveMove(c, on, to, ForeignKeyQuery(c, on)).value == Moved(c, on, to)
  {
    var rows := c.relations[on];
    QuerySpec(c, on);
    DropAllSpec(c, on, ForeignKeyQuery(c, on));
    if Unique(c, on) {
      UniqueDistinct(c, on);
      WithoutEverything(rows, Names(rows));
      var c1 := c.(relations := c.relations[on := []]);
      assert DropAll(c, on, rows) == Ok(c1);
      EmptiedMoveSpec(c, c1, on, to);
    }
  }

  /** Retargeting references to a table at its own schema changes nothing. */
  lemma RetargetInPlace(rows: seq<ForeignKey>, on: TableRef)
    ensures RetargetRows(rows, on, on.schema) == rows
  {
  }

  /** Moving a table into its own schema changes nothing. */
  lemma MovedInPlace(c: Catalog, on: TableRef)
    requires on in c.relations
    ensures Moved(c, on, on.schema) == c
  {
    forall r | r in c.relations ensures Moved(c, on, on.schema).relations[r] == c.relations[r] {
      RetargetInPlace(c.relations[r], on);
    }
  }

  /** The SET SCHEMA and ADD CONSTRAINT phases, once the drops have left
      the table without rows. */
  lemma EmptiedMoveSpec(c: Catalog, c1: Catalog, on: TableRef, to: string)
    requires on in c.relations && Distinct(c.relations[on])
    requires c1 == c.(relations := c.relations[on := []])
    ensures var r := Apply(c1, SetSchema(on, to));
            var ok := to in c.schemas && (on.schema == to || Destination(on, to) !in c.relations);
            (r.Ok? <==> ok) &&
            (r.Ok? ==>
               (AddAll(r.value, Destination(on, to), c.relations[on]).Ok? <==>
                  forall fk :: fk in c.relations[on] ==> fk.Target() in Moved(c, on, to).relations)) &&
            (r.Ok? && AddAll(r.value, Destination(on, to), c.relations[on]).Ok? ==>
               AddAll(r.value, Destination(on, to), c.relations[on]).value == Moved(c, on, to))
  {
    var rows := c.relations[on];
    var dest := Destination(on, to);
    if to in c.schemas && (on.schema == to || dest !in c.relations) {
      var c2 := Apply(c1, SetSchema(on, to)).value;
      var m := Moved(c, on, to);
      if on.schema == to {
        assert c2 == c1;
        assert c1.relations[dest := rows] == c.relations;
        MovedInPlace(c, on);
      } else {
        assert c2.relations == RetargetAll((c.relations - {on})[dest := []], on, to);
        forall r | r in m.relations ensures c2.relations[dest := rows][r] == m.relations[r] {
          if r != dest {
            assert c2.relations[r] == RetargetRows(c.relations[r], on, to);
          }
        }
        assert c2.relations[dest := rows] == m.relations;
      }
      assert c2.relations.Keys == m.relations.Keys;
      AddAllSpec(c2, dest, rows);
    }
  }

  /** Retargeting a table's references to `on` at `to` and then those to the
      destination back at the old schema restores them, when none referenced
      the destination to begin with. */
  lemma RetargetBack(rows: seq<ForeignKey>, on: TableRef, to: string)
    requires forall fk :: fk in rows ==> fk.Target() != Destination(on, to)
    ensures RetargetRows(RetargetRows(rows, on, to), Destination(on, to), on.schema) == rows
  {
    var back := RetargetRows(RetargetRows(rows, on, to), Destination(on, to), on.schema);
    forall i | 0 <= i < |rows| ensures back[i] == rows[i] {
      assert rows[i] in rows;
    }
  }

  /** Moving a table and then moving it back restores the catalog, when it
      had no dangling reference. */
  lemma MovedBack(c: Catalog, on: TableRef, to: string)
    requires on in c.relations && Resolved(c)
    requires on.schema != to && Destination(on, to) !in c.relations
    ensures Destination(Destination(on, to), on.schema) == on
    ensures Moved(Moved(c, on, to), Destination(on, to), on.schema) == c
  {
    var dest := Destination(on, to);
    var m := Moved(c, on, to);
    var m2 := Moved(m, dest, on.schema);
    forall r | r in c.relations ensures m2.relations[r] == c.relations[r] {
      forall fk | fk in c.relations[r] ensures fk.Target() != dest {
        assert fk.Target() in c.relations;
      }
      if r != on {
        RetargetBack(c.relations[r], on, to);
      }
    }
    assert m2.relations == c.relations;
  }

  /** A successful move leaves no dangling reference behind: references to
      the moved table follow it, and its own rows reference relations that
      exist afterwards. */
  lemma MovedResolved(c: Catalog, on: TableRef, to: string)
    requires on in c.relations && Resolved(c) && MoveSucceeds(c, on, to)
    ensures Resolved(Moved(c, on, to))
  {
    var m := Moved(c, on, to);
    var dest := Destination(on, to);
    forall r, fk | r in m.relations && fk in m.relations[r] ensures fk.Target() in m.relations {
      if r != dest {
        var i :| 0 <= i < |m.relations[r]| && m.relations[r][i] == fk;
        var x := c.relations[r][i];
        assert fk == Retarget(x, on, to);
        assert x in c.relations[r];
      }
    }
  }

  /** A live move back undoes a live move: if both succeed, the catalog is
      restored. */
  lemma MoveRoundTrip(c: Catalog, on: TableRef, to: string)
    requires on in c.relations && Resolved(c)
    requires LiveMove(c, on, to, ForeignKeyQuery(c, on)).Ok?
    ensures var c' := LiveMove(c, on, to, ForeignKeyQuery(c, on)).value;
            var back := Destination(on, to);
            back in c'.relations &&
            (LiveMove(c', back, on.schema, ForeignKeyQuery(c', back)).Ok? ==>
               LiveMove(c', back, on.schema, ForeignKeyQuery(c', back)).value == c)
  {
    LiveMoveSpec(c, on, to);
    var c' := Moved(c, on, to);
    var back := Destination(on, to);
    LiveMoveSpec(c', back, on.schema);
    if on.schema == to {
      MovedInPlace(c, on);
    } else {
      MovedBack(c, on, to);
    }
  }

  /** A SET SCHEMA followed by the SET SCHEMA back restores the catalog,
      when it had no dangling reference. */
  lemma SetSchemaRoundTrip(c: Catalog, on: TableRef, to: string)
    requires on in c.relations && Resolved(c)
    requires on.schema in c.schemas && to in c.schemas
    requires on.schema == to || Destination(on, to) !in c.relations
    ensures Apply(c, SetSchema(on, to)).Ok?
    ensures Apply(Apply(c, SetSchema(on, to)).value, SetSchema(Destination(on, to), on.schema)) == Ok(c)
  {
    var dest := Destination(on, to);
    if on.schema != to {
      var c1 := Apply(c, SetSchema(on, to)).value;
      assert on !in c1.relations;
      var back := RetargetAll((c1.relations - {dest})[on := c1.relations[dest]], dest, on.schema);
      forall r | r in c.relations ensures back[r] == c.relations[r] {
        forall fk | fk in c.relations[r] ensures fk.Target() != dest {
          assert fk.Target() in c.relations;
        }
        RetargetBack(c.relations[r], on, to);
      }
      assert back == c.relations;
    }
  }

  /** The captured rows of a self-referencing constraint name the table's
      old schema, which no longer holds the table once it has moved; so a
      live move of such a table out of its schema always fails. */
  lemma SelfReferenceBlocksMove(c: Catalog, on: TableRef, to: string, fk: ForeignKey)
    requires on in c.relations && fk in c.relations[on]
    requires fk.Target() == on && on.schema != to
    ensures LiveMove(c, on, to, ForeignKeyQuery(c, on)).Err?
  {
    LiveMoveSpec(c, on, to);
    assert fk.Target() !in Moved(c, on, to).relations;
  }

  /** A primary key, unique or check constraint anywhere in the catalog
      that shares its name with one of the table's foreign keys and lists a
      column makes the query repeat that name, so a live move fails. */
  lemma SameNamedConstraintBlocksMove(c: Catalog, on: TableRef, to: string, i: nat, o: OtherConstraint)
    requires on in c.relations && i < |c.relations[on]|
    requires o in c.others && o.name == c.relations[on][i].constraintName
    requires o.keyColumns > 0 || o.usedColumns > 0
    ensures !Distinct(ForeignKeyQuery(c, on))
    ensures LiveMove(c, on, to, ForeignKeyQuery(c, on)).Err?
  {
    var n := o.name;
    assert OtherKeyColumns(c.others, n) > 0 || OtherUsedColumns(c.others, n) > 0;
    assert !Unique(c, on);
    QuerySpec(c, on);
    LiveMoveSpec(c, on, to);
  }
}
