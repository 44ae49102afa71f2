/** `schema:dump`: dump the structure of a chosen list of PostgreSQL schemas
    with `pg_dump`, append the rows of the migrations table found in one of
    them, and optionally delete the migration files. The pure part resolves
    the schema list, the `--schema=` flags, the dump path, the environment
    and the placeholder query; `Handle` sequences the side effects on a
    `Host` that records them. The `pg_dump` processes themselves are not
    run: each call is recorded as an effect. */
module SchemaDump {
  import opened Wrappers
  import opened Text
  import opened Console

  /** The parts of a `database.connections.<name>` entry the command reads. */
  datatype Connection = Connection(password: string, searchPath: Option<string>)

  /** The command's options: `--database` (default "pgsql"), `--schemas`,
      `--path` and `--prune`. */
  datatype DumpOptions = DumpOptions(database: string, schemas: Option<string>, path: Option<string>, prune: bool)

  /** The schema source: `--schemas`, else the connection's search_path, else "public". */
  function SchemasSource(opts: DumpOptions, conn: Connection): (r: string)
    ensures opts.schemas.Some? ==> r == opts.schemas.value
    ensures opts.schemas.None? && conn.searchPath.Some? ==> r == conn.searchPath.value
    ensures opts.schemas.None? && conn.searchPath.None? ==> r == "public"
  {
    opts.schemas.OrElse(conn.searchPath.OrElse("public"))
  }

  /** The schema list: the source split on ',', each piece trimmed, the falsy
      pieces dropped. */
  function SchemaList(source: string): (r: seq<string>)
    ensures forall x :: x in r ==> Truthy(x) && ',' !in x && Stripped(x)
  {
    var pieces := Explode(source, ',');
    ExplodeSeparatorFree(source, ',');
    TrimmedPiecesClean(pieces, ',');
    FilterTruthy(TrimEach(pieces, Whitespace))
  }

  /** Nothing left to trim at either end. */
  predicate Stripped(s: string) {
    s != [] ==> s[0] !in Whitespace && s[|s| - 1] !in Whitespace
  }

  /** Trimming never brings in a character that was absent. */
  lemma {:induction false} TrimKeepsAbsent(s: string, cs: set<char>, c: char)
    requires c !in s
    ensures c !in Trim(s, cs)
  {
    var i, j := TrimBounds(s, cs);
    assert forall k :: 0 <= k < j - i ==> s[i..j][k] == s[i + k];
  }

  /** Trimmed pieces are stripped and still free of the separator. */
  lemma TrimmedPiecesClean(pieces: seq<string>, d: char)
    requires forall p :: p in pieces ==> d !in p
    ensures forall x :: x in TrimEach(pieces, Whitespace) ==> d !in x && Stripped(x)
  {
    forall x | x in TrimEach(pieces, Whitespace) ensures d !in x && Stripped(x) {
      var k :| 0 <= k < |pieces| && TrimEach(pieces, Whitespace)[k] == x;
      assert pieces[k] in pieces;
      TrimKeepsAbsent(pieces[k], Whitespace, d);
      TrimIsSlice(pieces[k], Whitespace);
    }
  }

  /** The list keeps the order of the source: the schemas before a comma come
      before those after it. */
  lemma SchemaListJoin(a: string, b: string)
    ensures SchemaList(a + "," + b) == SchemaList(a) + SchemaList(b)
  {
    ExplodeJoin(a, b, ',');
    TrimEachAppend(Explode(a, ','), Explode(b, ','), Whitespace);
    FilterTruthyAppend(TrimEach(Explode(a, ','), Whitespace), TrimEach(Explode(b, ','), Whitespace));
  }

  /** A source written as clean names joined by commas yields those names. */
  lemma SchemaListOfNames(names: seq<string>)
    requires |names| >= 1
    requires forall i :: 0 <= i < |names| ==> Truthy(names[i]) && ',' !in names[i] && Stripped(names[i])
    ensures SchemaList(Implode(names, ",")) == names
  {
    var source := Implode(names, ",");
    TrimEachStripped(names);
    ExplodeImplode(names, ',');
    assert Explode(source, ',') == names;
    FilterTruthyKeepsTruthy(names);
    assert SchemaList(source) == FilterTruthy(TrimEach(Explode(source, ','), Whitespace));
  }

  /** Trimming names that are already stripped changes none of them. */
  lemma TrimEachStripped(names: seq<string>)
    requires forall i :: 0 <= i < |names| ==> Stripped(names[i])
    ensures TrimEach(names, Whitespace) == names
  {
    forall i | 0 <= i < |names| ensures Trim(names[i], Whitespace) == names[i] {
      assert Stripped(names[i]);
      TrimClean(names[i], Whitespace);
    }
  }

  /** With neither `--schemas` nor a search_path, only "public" is dumped. */
  lemma DefaultsToPublic(opts: DumpOptions, conn: Connection)
    requires opts.schemas.None? && conn.searchPath.None?
    ensures SchemaList(SchemasSource(opts, conn)) == ["public"]
  {
    assert Truthy("public") && ',' !in "public";
    SchemaListOfNames(["public"]);
    assert Implode(["public"], ",") == "public";
  }

  /** The flag naming one schema. */
  function Flag(schema: string): string {
    "--schema=" + schema
  }

  /** The flags string: one `--schema=` flag per schema, joined by spaces. */
  function SchemaFlags(schemas: seq<string>): (r: string)
    ensures schemas == [] <==> r == ""
  {
    var flags := seq(|schemas|, i requires 0 <= i < |schemas| => Flag(schemas[i]));
    if schemas == [] then "" else
      assert |flags[0]| > 0;
      ImplodeNonEmpty(flags, " ");
      Implode(flags, " ")
  }

  lemma {:induction false} ImplodeNonEmpty(parts: seq<string>, glue: string)
    requires |parts| >= 1 && |parts[0]| > 0
    ensures Implode(parts, glue) != ""
  {
    if |parts| > 1 {
      assert Implode(parts, glue) == parts[0] + glue + Implode(parts[1..], glue);
    }
  }

  /** The flags split back into one flag per schema, in order, and each flag
      names its schema, as long as no schema contains a space. */
  lemma FlagsRoundTrip(schemas: seq<string>)
    requires |schemas| >= 1
    requires forall i :: 0 <= i < |schemas| ==> ' ' !in schemas[i]
    ensures |Explode(SchemaFlags(schemas), ' ')| == |schemas|
    ensures forall i :: 0 <= i < |schemas| ==>
              var w := Explode(SchemaFlags(schemas), ' ')[i];
              |w| >= 9 && w[..9] == "--schema=" && w[9..] == schemas[i]
  {
    var flags := seq(|schemas|, i requires 0 <= i < |schemas| => Flag(schemas[i]));
    forall p | p in flags ensures ' ' !in p {
      var i :| 0 <= i < |flags| && flags[i] == p;
      assert ' ' !in "--schema=";
    }
    ExplodeImplode(flags, ' ');
    assert Explode(SchemaFlags(schemas), ' ') == flags;
  }

  /** `--path`, else `database_path('schema/<database>-schema.sql')` under the
      application's database directory. */
  function DumpPath(opts: DumpOptions, databaseDir: string): (r: string)
    ensures opts.path.Some? ==> r == opts.path.value
    ensures opts.path.None? ==>
              && |r| == |databaseDir| + 8 + |opts.database| + 11
              && r[..|databaseDir|] == databaseDir
              && r[|databaseDir|..|databaseDir| + 8] == "/schema/"
              && r[|r| - |opts.database| - 11..] == opts.database + "-schema.sql"
  {
    opts.path.OrElse(databaseDir + "/schema/" + opts.database + "-schema.sql")
  }

  /** The environment `pg_dump` runs with: the password and nothing else. */
  function Env(conn: Connection): (env: map<string, string>)
    ensures env.Keys == {"PGPASSWORD"} && env["PGPASSWORD"] == conn.password
  {
    map["PGPASSWORD" := conn.password]
  }

  /** `array_fill(0, $n, '?')`. */
  function Marks(n: nat): (r: seq<string>)
    ensures |r| == n && forall i :: 0 <= i < n ==> r[i] == "?"
  {
    seq(n, _ => "?")
  }

  /** `implode(',', array_fill(0, $n, '?'))`: the list inside `IN (...)`. */
  function Placeholders(n: nat): (r: string)
    ensures r == "" <==> n == 0
  {
    if n == 0 then "" else
      ImplodeNonEmpty(Marks(n), ",");
      Implode(Marks(n), ",")
  }

  /** How many times `c` occurs in `s`. */
  function Count(s: string, c: char): nat {
    multiset(s)[c]
  }

  /** The placeholder list holds exactly `n` question marks. */
  lemma {:induction false} PlaceholdersCount(n: nat)
    ensures Count(Placeholders(n), '?') == n
    decreases n
  {
    if n >= 2 {
      PlaceholdersCount(n - 1);
      assert Marks(n)[1..] == Marks(n - 1);
      assert Placeholders(n) == "?" + "," + Placeholders(n - 1);
      assert multiset("?" + "," + Placeholders(n - 1))
          == multiset("?") + multiset(",") + multiset(Placeholders(n - 1));
    } else if n == 1 {
      assert Placeholders(1) == "?";
    }
  }

  /** The placeholder list splits on ',' into `n` single question marks. */
  lemma PlaceholdersSplit(n: nat)
    requires n >= 1
    ensures Explode(Placeholders(n), ',') == Marks(n)
  {
    assert forall p :: p in Marks(n) ==> ',' !in p;
    ExplodeImplode(Marks(n), ',');
  }

  /** The query that looks for the migrations table among `n` schemas; the
      table name is bound to the first `?`, the schemas to the list. */
  function MigrationQuery(n: nat): string {
    "SELECT schemaname FROM pg_tables WHERE tablename = ? AND schemaname IN (" + Placeholders(n) + ") LIMIT 1"
  }

  /** The bindings: the table name, then the schemas in list order. */
  function Bindings(table: string, schemas: seq<string>): (b: seq<string>)
    ensures |b| == |schemas| + 1 && b[0] == table && b[1..] == schemas
  {
    [table] + schemas
  }

  /** The list inside `IN (...)` has one placeholder per schema, so with the
      table name's placeholder every binding has exactly one placeholder. */
  lemma PlaceholdersMatchBindings(table: string, schemas: seq<string>)
    ensures Count(Placeholders(|schemas|), '?') + 1 == |Bindings(table, schemas)|
    ensures |schemas| >= 1 ==> |Explode(Placeholders(|schemas|), ',')| == |schemas|
  {
    PlaceholdersCount(|schemas|);
    if |schemas| >= 1 {
      PlaceholdersSplit(|schemas|);
    }
  }

  /** A row of `pg_tables`. */
  datatype PgTable = PgTable(schemaname: string, tablename: string)

  /** The row the query selects: the migrations table in one of the schemas. */
  predicate Matches(row: PgTable, table: string, schemas: seq<string>) {
    row.tablename == table && row.schemaname in schemas
  }

  /** `LIMIT 1` without `ORDER BY`: the first matching row in the order the
      server returns them, given here as the order of `rows`. */
  function FirstMatch(rows: seq<PgTable>, table: string, schemas: seq<string>): (r: Option<string>)
    ensures r.None? <==> forall i :: 0 <= i < |rows| ==> !Matches(rows[i], table, schemas)
    ensures r.Some? ==> r.value in schemas && PgTable(r.value, table) in rows
    decreases |rows|
  {
    if rows == [] then None
    else if Matches(rows[0], table, schemas) then Some(rows[0].schemaname)
    else
      var r := FirstMatch(rows[1..], table, schemas);
      assert forall j :: 1 <= j < |rows| ==> rows[j] == rows[1..][j - 1];
      r
  }

  /** The schema found is that of a matching row with no match before it. */
  lemma {:induction false} FirstMatchIsFirst(rows: seq<PgTable>, table: string, schemas: seq<string>)
    requires FirstMatch(rows, table, schemas).Some?
    ensures exists i :: 0 <= i < |rows| && Matches(rows[i], table, schemas)
                        && rows[i].schemaname == FirstMatch(rows, table, schemas).value
                        && forall j :: 0 <= j < i ==> !Matches(rows[j], table, schemas)
    decreases |rows|
  {
    if !Matches(rows[0], table, schemas) {
      var tail := rows[1..];
      FirstMatchIsFirst(tail, table, schemas);
      var i :| 0 <= i < |tail| && Matches(tail[i], table, schemas)
               && tail[i].schemaname == FirstMatch(tail, table, schemas).value
               && forall j :: 0 <= j < i ==> !Matches(tail[j], table, schemas);
      assert rows[i + 1] == tail[i];
      assert forall j :: 1 <= j < i + 1 ==> rows[j] == tail[j - 1];
    }
  }

  /** Why the query fails: with no schemas the list reads `IN ()`, which
      PostgreSQL rejects. */
  datatype QueryError = SyntaxError

  /** `resolveMigrationSchema`: the schema holding the migrations table, if
      the query finds one; an error when the schema list is empty. */
  function ResolveMigrationSchema(table: string, schemas: seq<string>, rows: seq<PgTable>): (r: Result<Option<string>, QueryError>)
    ensures r.Err? <==> schemas == []
    ensures r.Ok? && r.value.Some? ==> r.value.value in schemas && PgTable(r.value.value, table) in rows
    ensures r.Ok? && r.value.None? ==> forall i :: 0 <= i < |rows| ==> !Matches(rows[i], table, schemas)
  {
    if Placeholders(|schemas|) == "" then Err(SyntaxError)
    else
      Ok(FirstMatch(rows, table, schemas))
  }

  /** An external program the command runs, or a file it deletes. */
  datatype Effect =
    | SchemaDumped(flags: string, path: string, env: map<string, string>)
    | MigrationsDataDumped(flags: string, schema: string, table: string, path: string)
    | Deleted(file: string)

  function ConnectionNotFound(database: string): string {
    "Connection [" + database + "] not found."
  }

  const PrunedMessage: string := "Migration files pruned."

  function DumpedMessage(schemas: seq<string>, path: string): string {
    "Schema dumped for [" + Implode(schemas, ", ") + "] to: <fg=green>" + path + "</>"
  }

  /** The deletions `pruneMigrations` performs, one per listed file, in order. */
  function DeleteTrace(files: seq<string>): (t: seq<Effect>)
    ensures |t| == |files| && forall i :: 0 <= i < |files| ==> t[i] == Deleted(files[i])
  {
    seq(|files|, i requires 0 <= i < |files| => Deleted(files[i]))
  }

  /** The migrations-data dump, present when the query found a truthy schema. */
  function DataDump(flags: string, path: string, table: string, found: Option<string>): (t: seq<Effect>)
    ensures |t| <= 1
    ensures t != [] <==> found.Some? && Truthy(found.value)
  {
    if found.Some? && Truthy(found.value) then [MigrationsDataDumped(flags, found.value, table, path)] else []
  }

  /** The machine the command runs on: the files on disk, the external
      effects so far and the console output. */
  class Host {
    var disk: set<string>
    var effects: seq<Effect>
    var output: seq<Line>

    constructor (files: set<string>)
      ensures disk == files && effects == [] && output == []
    {
      disk := files;
      effects := [];
      output := [];
    }

    /** Run an external program. */
    method Run(e: Effect)
      modifies this`effects
      ensures effects == old(effects) + [e]
    {
      effects := effects + [e];
    }

    /** `File::delete`: remove a file; a missing one is no error. */
    method Delete(file: string)
      modifies this`disk, this`effects
      ensures disk == old(disk) - {file}
      ensures effects == old(effects) + [Deleted(file)]
    {
      disk := disk - {file};
      effects := effects + [Deleted(file)];
    }

    method Say(line: Line)
      modifies this`output
      ensures output == old(output) + [line]
    {
      output := output + [line];
    }
  }

  /** `pruneMigrations`: delete every file the migrations directory lists,
      in listing order, then say so. */
  method PruneMigrations(host: Host, listing: seq<string>)
    modifies host`disk, host`effects, host`output
    ensures host.disk == old(host.disk) - set f | f in listing
    ensures forall f :: f in listing ==> f !in host.disk
    ensures host.effects == old(host.effects) + DeleteTrace(listing)
    ensures host.output == old(host.output) + [Info(PrunedMessage)]
  {
    var i := 0;
    while i < |listing|
      invariant 0 <= i <= |listing|
      invariant host.disk == old(host.disk) - set f | f in listing[..i]
      invariant host.effects == old(host.effects) + DeleteTrace(listing[..i])
      invariant host.output == old(host.output)
    {
      host.Delete(listing[i]);
      assert listing[..i + 1] == listing[..i] + [listing[i]];
      assert DeleteTrace(listing[..i + 1]) == DeleteTrace(listing[..i]) + [Deleted(listing[i])];
      i := i + 1;
    }
    assert listing[..i] == listing;
    host.Say(Info(PrunedMessage));
  }

  /** `dumpMigrationsData`: look the migrations table up among the schemas and
      append its rows to the dump when it is found; the query's error
      propagates. */
  method DumpMigrationsData(host: Host, flags: string, path: string, table: string,
                            schemas: seq<string>, rows: seq<PgTable>)
    returns (r: Result<(), QueryError>)
    modifies host`effects
    ensures r.Err? <==> schemas == []
    ensures r.Err? ==> host.effects == old(host.effects)
    ensures r.Ok? ==> host.effects == old(host.effects) + DataDump(flags, path, table, ResolveMigrationSchema(table, schemas, rows).value)
  {
    var found := ResolveMigrationSchema(table, schemas, rows);
    if found.Err? {
      return Err(found.error);
    }
    var schema := found.value;
    if schema.None? || !Truthy(schema.value) {
      return Ok(());
    }
    host.Run(MigrationsDataDumped(flags, schema.value, table, path));
    return Ok(());
  }

  /** What `handle` works out before running anything: the schema list, the
      flags, the dump path and the environment. */
  datatype Plan = Plan(schemas: seq<string>, flags: string, path: string, env: map<string, string>)

  function PlanFor(opts: DumpOptions, conn: Connection, databaseDir: string): Plan {
    var schemas := SchemaList(SchemasSource(opts, conn));
    Plan(schemas, SchemaFlags(schemas), DumpPath(opts, databaseDir), Env(conn))
  }

  /** The external effects of a run that gets past the connection check and
      finds at least one schema: the schema dump, the migrations data when
      the table was found, and the deletions when pruning. */
  function RunEffects(plan: Plan, table: string, found: Option<string>, prune: bool, listing: seq<string>): seq<Effect> {
    [SchemaDumped(plan.flags, plan.path, plan.env)] + DataDump(plan.flags, plan.path, table, found)
    + (if prune then DeleteTrace(listing) else [])
  }

  /** The schema dump always comes first and only once, the migrations data
      can only come right after it, and nothing is deleted without `--prune`. */
  lemma DumpOrder(plan: Plan, table: string, found: Option<string>, prune: bool, listing: seq<string>)
    ensures var t := RunEffects(plan, table, found, prune, listing);
            && t[0] == SchemaDumped(plan.flags, plan.path, plan.env)
            && (forall i :: 0 < i < |t| ==> !t[i].SchemaDumped?)
            && (forall i :: 0 <= i < |t| && t[i].MigrationsDataDumped? ==> i == 1)
            && (!prune ==> forall i :: 0 <= i < |t| ==> !t[i].Deleted?)
            && |t| == 1 + |DataDump(plan.flags, plan.path, table, found)| + (if prune then |listing| else 0)
  {
    var d := DataDump(plan.flags, plan.path, table, found);
    var t := RunEffects(plan, table, found, prune, listing);
    assert forall i :: 0 < i < |t| ==> t[i] in d + (if prune then DeleteTrace(listing) else []);
  }

  /** The state a run leaves once the connection is found: it fails exactly
      when no schema is left, after dumping the schema and nothing else;
      otherwise it has performed `RunEffects`, pruned when asked and
      reported the schemas and the path. */
  ghost predicate DumpOutcome(plan: Plan, prune: bool, table: string, rows: seq<PgTable>, listing: seq<string>,
                              code: ExitCode, effects0: seq<Effect>, effects: seq<Effect>,
                              output0: seq<Line>, output: seq<Line>, disk0: set<string>, disk: set<string>)
  {
    && (code == Success <==> plan.schemas != [])
    && (code == Failure ==>
          && effects == effects0 + [SchemaDumped(plan.flags, plan.path, plan.env)]
          && output == output0 && disk == disk0)
    && (code == Success ==>
          && effects == effects0 + RunEffects(plan, table, FirstMatch(rows, table, plan.schemas), prune, listing)
          && output == output0 + (if prune then [Info(PrunedMessage)] else []) + [Info(DumpedMessage(plan.schemas, plan.path))]
          && disk == if prune then disk0 - set f | f in listing else disk0)
  }

  /** Everything after the connection check: dump the schema, then the
      migrations data, prune when asked, and report. */
  method Dump(host: Host, plan: Plan, prune: bool, table: string, rows: seq<PgTable>, listing: seq<string>)
    returns (code: ExitCode)
    modifies host`disk, host`effects, host`output
    ensures code == Success <==> plan.schemas != []
    ensures code == Failure ==>
              && host.effects == old(host.effects) + [SchemaDumped(plan.flags, plan.path, plan.env)]
              && host.output == old(host.output) && host.disk == old(host.disk)
    ensures code == Success ==>
              && host.effects == old(host.effects) + RunEffects(plan, table, FirstMatch(rows, table, plan.schemas), prune, listing)
              && host.output == old(host.output) + (if prune then [Info(PrunedMessage)] else [])
                                + [Info(DumpedMessage(plan.schemas, plan.path))]
              && host.disk == if prune then old(host.disk) - set f | f in listing else old(host.disk)
  {
    ghost var effects0 := host.effects;
    host.Run(SchemaDumped(plan.flags, plan.path, plan.env));
    var r := DumpMigrationsData(host, plan.flags, plan.path, table, plan.schemas, rows);
    if r.Err? {
      return Failure;
    }
    ghost var head := [SchemaDumped(plan.flags, plan.path, plan.env)]
                      + DataDump(plan.flags, plan.path, table, FirstMatch(rows, table, plan.schemas));
    assert host.effects == effects0 + head;
    PruneAndReport(host, plan, prune, listing);
    Regroup(effects0, head, if prune then DeleteTrace(listing) else []);
    return Success;
  }

  /** The end of a successful run: prune when asked, then report the dump. */
  method PruneAndReport(host: Host, plan: Plan, prune: bool, listing: seq<string>)
    modifies host`disk, host`effects, host`output
    ensures host.effects == old(host.effects) + (if prune then DeleteTrace(listing) else [])
    ensures host.output == old(host.output) + (if prune then [Info(PrunedMessage)] else [])
                           + [Info(DumpedMessage(plan.schemas, plan.path))]
    ensures host.disk == if prune then old(host.disk) - set f | f in listing else old(host.disk)
  {
    if prune {
      PruneMigrations(host, listing);
    } else {
      assert host.effects == old(host.effects) + [];
      assert host.output == old(host.output) + [];
    }
    host.Say(Info(DumpedMessage(plan.schemas, plan.path)));
  }

  /** `handle`: look the connection up, work out the plan and dump. The
      database's `pg_tables` rows, the application's database directory, the
      migrations table's name and the migrations directory's listing are
      inputs. */
  method Handle(host: Host, opts: DumpOptions, connections: map<string, Connection>,
                databaseDir: string, migrationsTable: string, rows: seq<PgTable>, listing: seq<string>)
    returns (code: ExitCode)
    modifies host`disk, host`effects, host`output
    ensures opts.database !in connections ==>
              && code == Failure
              && host.effects == old(host.effects) && host.disk == old(host.disk)
              && host.output == old(host.output) + [Error(ConnectionNotFound(opts.database))]
    ensures opts.database in connections ==>
              DumpOutcome(PlanFor(opts, connections[opts.database], databaseDir), opts.prune, migrationsTable, rows, listing,
                          code, old(host.effects), host.effects, old(host.output), host.output, old(host.disk), host.disk)
  {
    if opts.database !in connections {
      host.Say(Error(ConnectionNotFound(opts.database)));
      return Failure;
    }
    var plan := PlanFor(opts, connections[opts.database], databaseDir);
    code := Dump(host, plan, opts.prune, migrationsTable, rows, listing);
  }
}
