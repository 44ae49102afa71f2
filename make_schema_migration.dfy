/** `make:schema-migration`: write a migration file that moves one table
    from one schema to another. The command itself is pure up to the single
    file write: prompts for the schemas that were not given, validation, the
    migration's name and path, and the generated `up`/`down` pair. The
    generated migration is modelled by the statements it runs; running them
    against a catalog of tables and the sequences their columns own shows
    what the migration does. */
module MakeSchemaMigration {
  import opened Wrappers
  import opened Text
  import opened Console
  import opened Catalog

  /** The `table` argument and the `--from` and `--to` options. */
  datatype MigrationOptions = MigrationOptions(table: string, from: Option<string>, to: Option<string>)

  /** What `ask` returns at each prompt, `null` when nothing was entered. */
  datatype Answers = Answers(from: Option<string>, to: Option<string>)

  const SourcePrompt: string := "Source schema?"
  const TargetPrompt: string := "Target schema?"
  const BothRequired: string := "Both --from and --to schemas are required."
  const MustDiffer: string := "Source and target schemas must be different."

  /** The prompts shown, in order: one for each schema option left out. */
  function Prompts(opts: MigrationOptions): (r: seq<string>)
    ensures SourcePrompt in r <==> opts.from.None?
    ensures TargetPrompt in r <==> opts.to.None?
    ensures |r| == (if opts.from.None? then 1 else 0) + (if opts.to.None? then 1 else 0)
    ensures |r| == 2 ==> r[0] == SourcePrompt
  {
    assert SourcePrompt[0] != TargetPrompt[0];
    (if opts.from.None? then [SourcePrompt] else []) + (if opts.to.None? then [TargetPrompt] else [])
  }

  /** `$option ?? $answer`: the option when given, the prompt's answer otherwise. */
  function Given(option: Option<string>, answer: Option<string>): (r: Option<string>)
    ensures option.Some? ==> r == option
    ensures option.None? ==> r == answer
  {
    if option.Some? then option else answer
  }

  /** The outcome of the two checks. */
  datatype Validation = Missing | Same | Valid(from: string, to: string)

  /** A schema is missing when it is null or falsy; otherwise the two must
      be different strings. */
  function Validate(from: Option<string>, to: Option<string>): (v: Validation)
    ensures v.Missing? <==> from.None? || to.None? || !Truthy(from.value) || !Truthy(to.value)
    ensures v.Same? <==> from.Some? && to.Some? && Truthy(from.value) && Truthy(to.value) && from == to
    ensures v.Valid? ==> from == Some(v.from) && to == Some(v.to) && Truthy(v.from) && Truthy(v.to) && v.from != v.to
  {
    if from.None? || to.None? || !Truthy(from.value) || !Truthy(to.value) then Missing
    else if from.value == to.value then Same
    else Valid(from.value, to.value)
  }

  /** `move_{table}_from_{from}_to_{to}`. */
  function MigrationName(table: string, from: string, to: string): string {
    "move_" + table + "_from_" + from + "_to_" + to
  }

  /** `{timestamp}_{name}.php` under `database/migrations`. */
  function MigrationPath(databaseDir: string, timestamp: string, name: string): string {
    databaseDir + "/migrations/" + timestamp + "_" + name + ".php"
  }

  /** One direction of the generated migration: move the table from `source`
      to `target`, then every sequence the sequence query reports for the
      table in `source`. */
  datatype Direction = Direction(source: string, target: string, table: string)

  /** The same move the other way round. */
  function Reverse(d: Direction): (r: Direction)
    ensures r.source == d.target && r.target == d.source && r.table == d.table
  {
    Direction(d.target, d.source, d.table)
  }

  /** The generated file: an anonymous migration class with `up` and `down`. */
  datatype Migration = Migration(className: string, up: Direction, down: Direction)

  /** `buildStub`: `up` moves the table from `from` to `to`, `down` is `up`
      reversed. */
  function BuildStub(table: string, from: string, to: string, className: string): (m: Migration)
    ensures m.up == Direction(from, to, table)
    ensures m.down == Reverse(m.up)
    ensures m.className == className
  {
    Migration(className, Direction(from, to, table), Direction(to, from, table))
  }

  /** The table statement of one direction. */
  function AlterTableSql(d: Direction): string {
    "ALTER TABLE \"" + d.source + "\".\"" + d.table + "\" SET SCHEMA \"" + d.target + "\""
  }

  /** The statement for one sequence of one direction. */
  function AlterSequenceSql(d: Direction, sequence: string): string {
    "ALTER SEQUENCE \"" + d.source + "\".\"" + sequence + "\" SET SCHEMA \"" + d.target + "\""
  }

  /** Swapping the schemas swaps the migration's two directions. */
  lemma SwappedSchemasSwapDirections(table: string, from: string, to: string, className: string)
    ensures BuildStub(table, to, from, className).up == BuildStub(table, from, to, className).down
    ensures BuildStub(table, to, from, className).down == BuildStub(table, from, to, className).up
    ensures AlterTableSql(BuildStub(table, from, to, className).down)
         == "ALTER TABLE \"" + to + "\".\"" + table + "\" SET SCHEMA \"" + from + "\""
  {
  }

  /** One file written by the command. */
  datatype FileWrite = FileWrite(path: string, migration: Migration)

  /** One run of the command: its exit status, the prompts shown, the files
      written and the console output. */
  datatype Run = Run(code: ExitCode, prompts: seq<string>, writes: seq<FileWrite>, output: seq<Line>)

  /** `handle` and `generateMigration`: prompt for what is missing, validate,
      and write one migration named after the table and the schemas. The
      answers, the timestamp `date('Y_m_d_His')`, the application's database
      directory and `Str::studly` are inputs. */
  function Handle(opts: MigrationOptions, answers: Answers, timestamp: string, databaseDir: string,
                  studly: string -> string): (r: Run)
    ensures r.prompts == Prompts(opts)
    ensures var v := Validate(Given(opts.from, answers.from), Given(opts.to, answers.to));
            && (r.code == Success <==> v.Valid?)
            && (v.Missing? ==> r.output == [Error(BothRequired)] && r.writes == [])
            && (v.Same? ==> r.output == [Error(MustDiffer)] && r.writes == [])
            && (v.Valid? ==>
                  var name := MigrationName(opts.table, v.from, v.to);
                  var path := MigrationPath(databaseDir, timestamp, name);
                  && r.writes == [FileWrite(path, BuildStub(opts.table, v.from, v.to, studly(name)))]
                  && r.output == [Info("Migration created: <fg=green>" + path + "</>")])
  {
    var from := Given(opts.from, answers.from);
    var to := Given(opts.to, answers.to);
    var prompts := Prompts(opts);
    match Validate(from, to)
    case Missing => Run(Failure, prompts, [], [Error(BothRequired)])
    case Same => Run(Failure, prompts, [], [Error(MustDiffer)])
    case Valid(f, t) =>
      var name := MigrationName(opts.table, f, t);
      var path := MigrationPath(databaseDir, timestamp, name);
      Run(Success, prompts, [FileWrite(path, BuildStub(opts.table, f, t, studly(name)))],
          [Info("Migration created: <fg=green>" + path + "</>")])
  }

  /** Once a migration is written, the schemas it moves between are the ones
      given, and they differ. */
  lemma WrittenMigrationMovesBetweenDistinctSchemas(opts: MigrationOptions, answers: Answers, timestamp: string,
                                                     databaseDir: string, studly: string -> string)
    requires Handle(opts, answers, timestamp, databaseDir, studly).writes != []
    ensures var m := Handle(opts, answers, timestamp, databaseDir, studly).writes[0].migration;
            && Some(m.up.source) == Given(opts.from, answers.from)
            && Some(m.up.target) == Given(opts.to, answers.to)
            && m.up.source != m.up.target
            && m.down == Reverse(m.up)
  {
  }

  /** The catalog the generated migration runs against: the schemas, and
      every table with the sequences its columns own, in the order the
      sequence query returns them. PostgreSQL keeps owned sequences in their
      table's schema. */
  datatype SeqCatalog = SeqCatalog(schemas: set<string>, tables: map<TableRef, seq<string>>)

  /** Every table lives in a schema that exists. */
  predicate WellFormed(db: SeqCatalog) {
    forall r :: r in db.tables ==> r.schema in db.schemas
  }

  /** The statements the migration runs. */
  datatype Statement = AlterTable(on: TableRef, to: string) | AlterSequence(schema: string, sequence: string, to: string)

  /** Whether some table of `schema` owns `sequence`. */
  predicate Owned(db: SeqCatalog, schema: string, sequence: string) {
    exists r :: r in db.tables && r.schema == schema && sequence in db.tables[r]
  }

  /** The effect of one statement. ALTER TABLE ... SET SCHEMA moves the table
      together with the sequences it owns, and changes nothing when the
      schema is already the table's. ALTER SEQUENCE ... SET SCHEMA refuses an
      owned sequence, and every sequence here is owned. */
  function Exec(db: SeqCatalog, s: Statement): (r: Result<SeqCatalog, DbError>)
    ensures s.AlterSequence? ==> r.Err?
  {
    match s
    case AlterTable(on, to) =>
      var dest := TableRef(to, on.table);
      if on !in db.tables then Err(UndefinedRelation(on))
      else if to !in db.schemas then Err(InvalidSchemaName(to))
      else if on.schema == to then Ok(db)
      else if dest in db.tables then Err(DuplicateRelation(dest))
      else Ok(db.(tables := (db.tables - {on})[dest := db.tables[on]]))
    case AlterSequence(schema, sequence, to) =>
      if Owned(db, schema, sequence) then Err(OwnedSequence(schema, sequence))
      else Err(UndefinedRelation(TableRef(schema, sequence)))
  }

  /** `getSequences($schema, $table)`: the sequences owned by the table of
      that name in that schema, none when there is no such table. */
  function GetSequences(db: SeqCatalog, schema: string, table: string): (r: seq<string>)
    ensures TableRef(schema, table) !in db.tables ==> r == []
  {
    var on := TableRef(schema, table);
    if on in db.tables then db.tables[on] else []
  }

  /** The loop over the sequences, stopping at the first error. */
  function RunSequences(db: SeqCatalog, d: Direction, sequences: seq<string>): Result<SeqCatalog, DbError>
    decreases |sequences|
  {
    if sequences == [] then Ok(db)
    else
      match Exec(db, AlterSequence(d.source, sequences[0], d.target))
      case Err(e) => Err(e)
      case Ok(db') => RunSequences(db', d, sequences[1..])
  }

  /** Running one direction: the table statement, then the sequence query
      for the table in the source schema, then one statement per sequence. */
  function RunDirection(db: SeqCatalog, d: Direction): Result<SeqCatalog, DbError> {
    match Exec(db, AlterTable(TableRef(d.source, d.table), d.target))
    case Err(e) => Err(e)
    case Ok(db1) => RunSequences(db1, d, GetSequences(db1, d.source, d.table))
  }

  /** The sequence query runs after the table has left the source schema, so
      it finds nothing: the loop never runs, and a direction does exactly
      what its ALTER TABLE does, owned sequences included. */
  lemma SequenceLoopNeverRuns(db: SeqCatalog, d: Direction)
    requires d.source != d.target
    ensures Exec(db, AlterTable(TableRef(d.source, d.table), d.target)).Ok? ==>
              GetSequences(Exec(db, AlterTable(TableRef(d.source, d.table), d.target)).value, d.source, d.table) == []
    ensures RunDirection(db, d) == Exec(db, AlterTable(TableRef(d.source, d.table), d.target))
  {
    var on := TableRef(d.source, d.table);
    match Exec(db, AlterTable(on, d.target))
    case Err(_) =>
    case Ok(db1) =>
      assert on !in db1.tables;
  }

  /** A direction succeeds exactly when the table is in the source schema,
      the target schema exists and holds no table of that name. */
  lemma DirectionSucceedsIff(db: SeqCatalog, d: Direction)
    requires d.source != d.target
    ensures RunDirection(db, d).Ok? <==>
              && TableRef(d.source, d.table) in db.tables
              && d.target in db.schemas
              && TableRef(d.target, d.table) !in db.tables
  {
    SequenceLoopNeverRuns(db, d);
  }

  /** `down` undoes `up`: on a well-formed catalog where `up` succeeds,
      running `down` afterwards gives back the original catalog, the table's
      sequences included. */
  lemma DownUndoesUp(db: SeqCatalog, table: string, from: string, to: string, className: string)
    requires WellFormed(db)
    requires from != to
    requires RunDirection(db, BuildStub(table, from, to, className).up).Ok?
    ensures RunDirection(RunDirection(db, BuildStub(table, from, to, className).up).value,
                         BuildStub(table, from, to, className).down) == Ok(db)
  {
    var m := BuildStub(table, from, to, className);
    var src, dst := TableRef(from, table), TableRef(to, table);
    SequenceLoopNeverRuns(db, m.up);
    var db1 := RunDirection(db, m.up).value;
    assert db1.tables == (db.tables - {src})[dst := db.tables[src]];
    SequenceLoopNeverRuns(db1, m.down);
    assert from in db1.schemas;
    var db2 := (db1.tables - {dst})[src := db1.tables[dst]];
    assert db2 == db.tables;
  }
}
