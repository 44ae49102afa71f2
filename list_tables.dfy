/** `schema:list-tables`: list the base tables of one schema, or of every
    non-system schema, with their sizes. The database is given as a map from
    each schema to its base tables in the order the table query returns
    them (by name), each with its size as `pg_size_pretty` prints it. */
module ListTables {
  import opened Wrappers
  import opened Text
  import opened Console

  /** One row of the table query. */
  datatype TableRow = TableRow(tableName: string, size: string)

  /** Every schema, with its base tables. */
  type Database = map<string, seq<TableRow>>

  /** The schemas `--all` leaves out. */
  const SystemSchemas: set<string> := {"information_schema", "pg_catalog", "pg_toast"}

  /** Byte order on names, as `ORDER BY` sorts identifiers: the shorter of
      two names where one is a prefix of the other comes first. */
  predicate Below(a: string, b: string)
    decreases |a|
  {
    if a == [] then b != []
    else b != [] && (a[0] < b[0] || (a[0] == b[0] && Below(a[1..], b[1..])))
  }

  lemma {:induction false} BelowIrreflexive(a: string)
    ensures !Below(a, a)
    decreases |a|
  {
    if a != [] {
      BelowIrreflexive(a[1..]);
    }
  }

  lemma {:induction false} BelowTransitive(a: string, b: string, c: string)
    requires Below(a, b) && Below(b, c)
    ensures Below(a, c)
    decreases |a|
  {
    if a != [] && a[0] == b[0] && b[0] == c[0] {
      BelowTransitive(a[1..], b[1..], c[1..]);
    }
  }

  lemma {:induction false} BelowTotal(a: string, b: string)
    requires a != b
    ensures Below(a, b) || Below(b, a)
    decreases |a|
  {
    if a != [] && b != [] && a[0] == b[0] {
      assert a == [a[0]] + a[1..] && b == [b[0]] + b[1..];
      BelowTotal(a[1..], b[1..]);
    }
  }

  /** Two names are never below each other. */
  lemma BelowAsymmetric()
    ensures forall a, b :: Below(a, b) ==> !Below(b, a)
  {
    forall a, b | Below(a, b) ensures !Below(b, a) {
      if Below(b, a) {
        BelowTransitive(a, b, a);
        BelowIrreflexive(a);
      }
    }
  }

  /** `m` comes before every other name of `s`. */
  predicate IsLeast(m: string, s: set<string>) {
    m in s && forall x :: x in s && x != m ==> Below(m, x)
  }

  /** Every non-empty finite set of names has a least one. */
  lemma {:induction false} LeastExists(s: set<string>)
    requires s != {}
    ensures exists m :: IsLeast(m, s)
    decreases |s|
  {
    var x :| x in s;
    if s == {x} {
      assert IsLeast(x, s);
    } else {
      LeastExists(s - {x});
      var m :| IsLeast(m, s - {x});
      if Below(x, m) {
        forall y | y in s && y != x ensures Below(x, y) {
          if y != m {
            BelowTransitive(x, m, y);
          }
        }
        assert IsLeast(x, s);
      } else {
        BelowTotal(x, m);
        assert IsLeast(m, s);
      }
    }
  }

  /** The least name of a non-empty set. */
  function Least(s: set<string>): (m: string)
    requires s != {}
    ensures IsLeast(m, s)
  {
    LeastExists(s);
    BelowAsymmetric();
    var m :| IsLeast(m, s);
    m
  }

  /** A set of names, least first. */
  function Ascending(s: set<string>): (r: seq<string>)
    ensures |r| == |s|
    ensures forall x :: x in r <==> x in s
    decreases |s|
  {
    if s == {} then []
    else
      var m := Least(s);
      [m] + Ascending(s - {m})
  }

  /** Names in ascending order. */
  predicate Sorted(r: seq<string>) {
    forall i, j :: 0 <= i < j < |r| ==> Below(r[i], r[j])
  }

  /** A name below every name of a sorted list can go in front of it. */
  lemma SortedCons(m: string, rest: seq<string>)
    requires Sorted(rest)
    requires forall k :: 0 <= k < |rest| ==> Below(m, rest[k])
    ensures Sorted([m] + rest)
  {
    var r := [m] + rest;
    forall i, j | 0 <= i < j < |r| ensures Below(r[i], r[j]) {
      assert r[j] == rest[j - 1];
      if i > 0 {
        assert r[i] == rest[i - 1];
      }
    }
  }

  /** Each name of `Ascending(s)` is below every later one. */
  lemma {:induction false} AscendingSorted(s: set<string>)
    ensures Sorted(Ascending(s))
    decreases |s|
  {
    if s != {} {
      var m := Least(s);
      var rest := Ascending(s - {m});
      AscendingSorted(s - {m});
      forall k | 0 <= k < |rest| ensures Below(m, rest[k]) {
        assert rest[k] in s - {m};
      }
      SortedCons(m, rest);
      assert Ascending(s) == [m] + rest;
    }
  }

  /** The schemata query: every schema but the system ones, by name. */
  function Schemata(db: Database): (r: seq<string>)
    ensures forall x :: x in r <==> x in db && x !in SystemSchemas
  {
    Ascending(db.Keys - SystemSchemas)
  }

  /** The schemata come in ascending name order. */
  lemma SchemataAscending(db: Database)
    ensures Sorted(Schemata(db))
  {
    assert Schemata(db) == Ascending(db.Keys - SystemSchemas);
    AscendingSorted(db.Keys - SystemSchemas);
  }

  /** Listed in ascending order, no schema appears twice. */
  lemma SchemataDistinct(db: Database)
    ensures forall i, j :: 0 <= i < j < |Schemata(db)| ==> Schemata(db)[i] != Schemata(db)[j]
  {
    var r := Schemata(db);
    SchemataAscending(db);
    forall i, j | 0 <= i < j < |r| ensures r[i] != r[j] {
      if r[i] == r[j] {
        BelowIrreflexive(r[i]);
      }
    }
  }

  /** The table query for one schema: its base tables, none for a schema
      that does not exist. */
  function SelectTables(db: Database, schema: string): (rows: seq<TableRow>)
    ensures schema !in db ==> rows == []
  {
    if schema in db then db[schema] else []
  }

  /** The digit for `d`. */
  function Digit(d: nat): char
    requires d < 10
  {
    "0123456789"[d]
  }

  /** PHP's decimal rendering of a count. */
  function NatToString(n: nat): (s: string)
    ensures |s| >= 1 && forall i :: 0 <= i < |s| ==> '0' <= s[i] <= '9'
    decreases n
  {
    if n < 10 then [Digit(n)] else NatToString(n / 10) + [Digit(n % 10)]
  }

  /** The value of a string of decimal digits. */
  function DecimalValue(s: string): nat
    requires forall i :: 0 <= i < |s| ==> '0' <= s[i] <= '9'
    decreases |s|
  {
    if s == [] then 0 else DecimalValue(s[..|s| - 1]) * 10 + (s[|s| - 1] as int - '0' as int)
  }

  /** The rendered count reads back as the count. */
  lemma {:induction false} NatToStringRoundTrip(n: nat)
    ensures DecimalValue(NatToString(n)) == n
    decreases n
  {
    var s := NatToString(n);
    if n < 10 {
      assert s[..0] == [];
      assert s[0] as int - '0' as int == n;
    } else {
      NatToStringRoundTrip(n / 10);
      assert s[..|s| - 1] == NatToString(n / 10);
      assert s[|s| - 1] as int - '0' as int == n % 10;
    }
  }

  function SchemaHeader(schema: string, count: nat): string {
    "\U{1F4CB} Schema: " + schema + " (" + NatToString(count) + " tables)"
  }

  function NoTables(schema: string): string {
    "Schema '" + schema + "' has no tables"
  }

  const AvailableSchemas: string := "\U{1F4C2} Available Schemas:"

  /** The table's rows: each query row as its name and its size, in order. */
  function TableData(rows: seq<TableRow>): (t: seq<seq<string>>)
    ensures |t| == |rows|
    ensures forall i :: 0 <= i < |rows| ==> t[i] == [rows[i].tableName, rows[i].size]
  {
    seq(|rows|, i requires 0 <= i < |rows| => [rows[i].tableName, rows[i].size])
  }

  /** What `listTablesInSchema` writes. */
  function SchemaListing(db: Database, schema: string): (out: seq<Line>)
    ensures |out| >= 1
  {
    var rows := SelectTables(db, schema);
    if rows == [] then [Warn(NoTables(schema))]
    else [Info(SchemaHeader(schema, |rows|)), Table(["Table", "Size"], TableData(rows))]
  }

  /** A schema without tables gets a warning and nothing else; otherwise a
      header whose count is the number of rows of the table that follows,
      one row per table, in query order. */
  lemma ListingShape(db: Database, schema: string)
    ensures var out := SchemaListing(db, schema);
            && (SelectTables(db, schema) == [] <==> out == [Warn(NoTables(schema))])
            && (SelectTables(db, schema) != [] ==>
                  && |out| == 2 && out[1].Table?
                  && out[0] == Info(SchemaHeader(schema, |out[1].rows|))
                  && out[1].headers == ["Table", "Size"]
                  && |out[1].rows| == |SelectTables(db, schema)|
                  && forall i :: 0 <= i < |out[1].rows| ==>
                       out[1].rows[i] == [SelectTables(db, schema)[i].tableName, SelectTables(db, schema)[i].size])
  {
  }

  /** The count in a schema's header reads back as the number of its tables. */
  lemma HeaderCountsTables(db: Database, schema: string)
    requires SelectTables(db, schema) != []
    ensures SchemaListing(db, schema)[0] == Info(SchemaHeader(schema, |SelectTables(db, schema)|))
    ensures DecimalValue(NatToString(|SelectTables(db, schema)|)) == |SelectTables(db, schema)|
  {
    NatToStringRoundTrip(|SelectTables(db, schema)|);
  }

  /** What the `--all` loop writes for the first schemas of a list: each
      schema's listing followed by a blank line. */
  function AllListings(db: Database, schemas: seq<string>): seq<Line>
    decreases |schemas|
  {
    if schemas == [] then []
    else AllListings(db, schemas[..|schemas| - 1]) + SchemaListing(db, schemas[|schemas| - 1]) + [Blank]
  }

  /** A schema's listing holds no blank line. */
  lemma ListingHasNoBlank(db: Database, schema: string)
    ensures multiset(SchemaListing(db, schema))[Blank] == 0
  {
  }

  /** Every schema's listing ends with a blank line, so the `--all` output
      has exactly one blank line per schema. */
  lemma {:induction false} AllListingsBlanks(db: Database, schemas: seq<string>)
    ensures multiset(AllListings(db, schemas))[Blank] == |schemas|
    decreases |schemas|
  {
    if schemas != [] {
      AllListingsBlanks(db, schemas[..|schemas| - 1]);
      ListingHasNoBlank(db, schemas[|schemas| - 1]);
    }
  }

  /** Where the command writes its output. */
  class Terminal {
    var output: seq<Line>

    constructor ()
      ensures output == []
    {
      output := [];
    }

    method Say(line: Line)
      modifies this
      ensures output == old(output) + [line]
    {
      output := output + [line];
    }
  }

  /** `listTablesInSchema`. */
  method ListTablesInSchema(term: Terminal, db: Database, schema: string)
    modifies term
    ensures term.output == old(term.output) + SchemaListing(db, schema)
  {
    var rows := SelectTables(db, schema);
    if rows == [] {
      term.Say(Warn(NoTables(schema)));
      return;
    }
    term.Say(Info(SchemaHeader(schema, |rows|)));
    term.Say(Table(["Table", "Size"], TableData(rows)));
  }

  /** `listAllSchemas`: a heading, then every non-system schema's listing in
      ascending name order, each followed by a blank line. */
  method ListAllSchemas(term: Terminal, db: Database)
    modifies term
    ensures term.output == old(term.output) + [Info(AvailableSchemas), Blank] + AllListings(db, Schemata(db))
  {
    var schemas := Schemata(db);
    term.Say(Info(AvailableSchemas));
    term.Say(Blank);
    assert term.output == old(term.output) + [Info(AvailableSchemas), Blank];
    ListEach(term, db, schemas);
  }

  /** The loop of `listAllSchemas`: each schema's listing, then a blank line. */
  method ListEach(term: Terminal, db: Database, schemas: seq<string>)
    modifies term
    ensures term.output == old(term.output) + AllListings(db, schemas)
  {
    var i := 0;
    while i < |schemas|
      invariant 0 <= i <= |schemas|
      invariant term.output == old(term.output) + AllListings(db, schemas[..i])
    {
      ghost var before := term.output;
      ListTablesInSchema(term, db, schemas[i]);
      term.Say(Blank);
      assert term.output == before + SchemaListing(db, schemas[i]) + [Blank];
      AllListingsStep(db, schemas, i);
      Regroup(old(term.output), AllListings(db, schemas[..i]), SchemaListing(db, schemas[i]));
      Regroup(old(term.output), AllListings(db, schemas[..i]) + SchemaListing(db, schemas[i]), [Blank]);
      i := i + 1;
    }
    assert schemas[..i] == schemas;
  }

  /** The loop's next step appends the next schema's listing and a blank line. */
  lemma AllListingsStep(db: Database, schemas: seq<string>, i: nat)
    requires i < |schemas|
    ensures AllListings(db, schemas[..i + 1]) == AllListings(db, schemas[..i]) + SchemaListing(db, schemas[i]) + [Blank]
  {
    assert schemas[..i + 1][..i] == schemas[..i];
  }

  /** Which listing the command produces. */
  datatype Mode = AllSchemas | OneSchema(schema: string)

  /** `--all` wins; then a truthy schema argument; then the configured
      default source schema. */
  function SelectMode(all: bool, schemaArg: Option<string>, defaultSchema: string): (m: Mode)
    ensures m.AllSchemas? <==> all
    ensures !all && schemaArg.Some? && Truthy(schemaArg.value) ==> m == OneSchema(schemaArg.value)
    ensures !all && (schemaArg.None? || !Truthy(schemaArg.value)) ==> m == OneSchema(defaultSchema)
  {
    if all then AllSchemas
    else if schemaArg.Some? && Truthy(schemaArg.value) then OneSchema(schemaArg.value)
    else OneSchema(defaultSchema)
  }

  /** `handle`: produce the listing for the mode and succeed, whatever the
      listing holds. */
  method Handle(term: Terminal, db: Database, schemaArg: Option<string>, all: bool, defaultSchema: string)
    returns (code: ExitCode)
    modifies term
    ensures code == Success
    ensures SelectMode(all, schemaArg, defaultSchema).AllSchemas? ==>
              term.output == old(term.output) + [Info(AvailableSchemas), Blank] + AllListings(db, Schemata(db))
    ensures SelectMode(all, schemaArg, defaultSchema).OneSchema? ==>
              term.output == old(term.output) + SchemaListing(db, SelectMode(all, schemaArg, defaultSchema).schema)
  {
    if all {
      ListAllSchemas(term, db);
    } else if schemaArg.Some? && Truthy(schemaArg.value) {
      ListTablesInSchema(term, db, schemaArg.value);
    } else {
      ListTablesInSchema(term, db, defaultSchema);
    }
    return Success;
  }
}
