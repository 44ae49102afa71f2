# laravel-schema-manager, modelled in Dafny

A model of the four Artisan commands of laravel-schema-manager, a Laravel
package that manages PostgreSQL schemas, with their properties proved.

- `schema:move-table` (module `MoveTableToSchema`, with `Catalog` and
  `ModelFile`) moves a table from one schema to another inside one
  transaction and keeps its foreign keys. It captures the table's
  foreign-key rows into a temporary holding table and drops each
  constraint. Then it runs `SET SCHEMA` and re-adds every held row as a
  constraint on the moved table. A dry run only fills the holding table and
  rolls back. Afterwards the command updates the Eloquent model's `$table`
  property.
  - The database is a `Database` class: the catalog, the transaction
    snapshot, the holding table and a log of events.
  - The loops `dropForeignKeys` and `recreateForeignKeys` are `while` loops
    proved against the folds `DropAll` and `AddAll` over the catalog.
  - `LiveMoveSpec` proves when a live move succeeds and what the catalog is
    afterwards.
  - The catalog holds, per relation, its foreign-key rows, and, for the
    whole database, the name and column counts of every constraint of
    another kind (primary key, unique, check). Indexes and sequences are not
    in it; see "Left out" for the `SET SCHEMA` failures they cause.
  - Within that catalog, `SET SCHEMA` keeps every constraint that
    references the table, since PostgreSQL holds the referenced relation by
    identity: those rows now name the new schema (`Catalog.Moved`).
  - The foreign-key query joins its four catalog views on the constraint
    name alone. A constraint over several columns, a foreign key of the
    same name on another table, or a primary key, unique or check
    constraint of that name anywhere makes it yield repeated rows
    (`Catalog.ForeignKeyQuery`), and a live move then fails at the second
    drop of that name.
- `schema:dump` (module `SchemaDump`) works out the schema list, the
  `--schema=` flags, the dump path, the environment and the placeholder
  query. It then runs the schema dump, the migrations-data dump and the
  optional prune on a `Host` that records effects, files and output.
- `make:schema-migration` (module `MakeSchemaMigration`) prompts for the
  missing schemas, validates them, and names and builds the migration. The
  generated `up`/`down` pair is run against a catalog of tables and their
  owned sequences, and `down` is proved to undo `up`.
- `schema:list-tables` (module `ListTables`) lists one schema or all of
  them on a `Terminal`. The database is a map from schema to table rows.

Shared modules:
- `Text` holds PHP's string helpers: `trim`, `explode`, `implode`,
  truthiness and `array_filter`.
- `Wrappers` holds `Option` and `Result`.
- `Console` holds exit codes and console lines.

The package's default schemas are `external` (source) and `public`
(destination), in `config/schema-manager.php:7` and `:12`.

## Model

| member | source | states |
|---|---|---|
| MoveTableToSchema.Handle | src/Console/Commands/MoveTableToSchemaCommand.php:23-79 | A table missing from the source schema gives FAILURE. The prompt is shown exactly when the table exists and neither `--force` nor `--dry-run` is set. A declined prompt gives SUCCESS. In both of those cases the catalog and the statement log are untouched. A dry run never changes the catalog, and its log is the move protocol over the rows the foreign-key query yields. A live run succeeds exactly when `MoveSucceeds`: among other things, no other constraint of any kind shares a name with one of the table's foreign keys. Then the catalog is `Moved`, so references from other tables follow the table, and the log is the move protocol. A failure happens only on a live run: it leaves the catalog as it was and ends with `Failed` of the error the live move runs into (`EndsWithMoveError`), which is the exception message line 71 prints. |
| MoveTableToSchema.MoveAndUpdateModel | src/Console/Commands/MoveTableToSchemaCommand.php:59-78 | The `try` block. A dry run succeeds with the catalog unchanged. A live run succeeds iff `MoveSucceeds`, and then the catalog is `Moved`, with other tables' references retargeted. A failure happens only on a live run: it restores the catalog and ends with `Failed` of the live move's own error (`EndsWithMoveError`), as line 71 prints the exception message. On success the output is the move's messages over the query's rows, then the model update's message, then the completion line. The model update never changes the exit status. |
| MoveTableToSchema.MoveOutcome | src/Console/Commands/MoveTableToSchemaCommand.php:59-78 | What `moveTable`'s result means for `handle`: a live run succeeds exactly when `MoveSucceeds`, and then the catalog is `Moved`; an error is raised only on a live run and is the live move's own error. |
| MoveTableToSchema.MoveTable | src/Console/Commands/MoveTableToSchemaCommand.php:97-140 | The transaction around the closure. A dry run keeps the catalog and logs `MoveTrace(…, true)`. A live run ends in `LiveMove`'s catalog and logs `MoveTrace(…, false)`, or fails with `LiveMove`'s error. An error is followed by a rollback that restores the catalog. The transaction is always closed at the end. |
| MoveTableToSchema.MoveCallback | src/Console/Commands/MoveTableToSchemaCommand.php:99-139 | The closure's log is `CallbackTrace` of the captured rows. A dry run rolls back to the snapshot. A live run's catalog is `LiveMove` of the rows, or the call fails with its error. The messages are `MoveMessages`. |
| MoveTableToSchema.DropForeignKeys | src/Console/Commands/MoveTableToSchemaCommand.php:166-187 | The holding table gains exactly the captured rows, in order, in both modes. A dry run leaves the catalog unchanged. A live run ends in `DropAll`, or fails with its error. The log is `DropTrace`. There is one message per row. |
| MoveTableToSchema.DropOne | src/Console/Commands/MoveTableToSchemaCommand.php:168-186 | One loop iteration keeps the loop's invariant for one more row. An error is `DropAll`'s error on the whole list. |
| MoveTableToSchema.RecreateForeignKeys | src/Console/Commands/MoveTableToSchemaCommand.php:189-208 | A dry run changes neither the catalog nor the log. A live run adds the held rows in order and ends in `AddAll`, or fails with its error. The log is `AddTrace`. There is one message per held row. |
| MoveTableToSchema.RecreateOne | src/Console/Commands/MoveTableToSchemaCommand.php:193-206 | One ADD CONSTRAINT extends `AddAll` by one held row. An error is `AddAll`'s error on the whole list. |
| MoveTableToSchema.Database.constructor | src/Console/Commands/MoveTableToSchemaCommand.php:97-99 | A session starts on the given catalog, with no transaction, no holding table and an empty log. |
| MoveTableToSchema.Database.ForeignKeys | src/Console/Commands/MoveTableToSchemaCommand.php:142-164 | `getForeignKeys`: nothing when the table does not exist. Otherwise every row it yields is one of the table's, and the rows carry distinct names iff the table's constraints are `Unique`, in which case they are exactly the table's rows in order. |
| MoveTableToSchema.Database.BeginTransaction | src/Console/Commands/MoveTableToSchemaCommand.php:99 | Opens the transaction and takes a snapshot of the catalog. |
| MoveTableToSchema.Database.Commit | src/Console/Commands/MoveTableToSchemaCommand.php:99 | Closes the transaction. The holding table goes away, since it is `ON COMMIT DROP`. |
| MoveTableToSchema.Database.RollBack | src/Console/Commands/MoveTableToSchemaCommand.php:137 | Restores the snapshot, closes the transaction and drops the holding table. |
| MoveTableToSchema.Database.CreateHoldingArea | src/Console/Commands/MoveTableToSchemaCommand.php:101-111 | `CREATE TEMP TABLE IF NOT EXISTS`: an empty holding table, or the existing one kept. |
| MoveTableToSchema.Database.Hold | src/Console/Commands/MoveTableToSchemaCommand.php:177-185 | Appends one row, with all seven fields, to the holding table. |
| MoveTableToSchema.Database.Statement | src/Console/Commands/MoveTableToSchemaCommand.php:128 | Runs a DDL statement. The catalog becomes `Apply`'s result, or stays unchanged and the error is returned. `Apply`'s SET SCHEMA renames the table and points every reference to it at the new schema. |
| MoveTableToSchema.DropTraceContents | src/Console/Commands/MoveTableToSchemaCommand.php:166-187 | The drop phase issues one DROP CONSTRAINT per row, in order, and none on a dry run. It holds exactly the captured rows. It neither commits nor rolls back. |
| MoveTableToSchema.DropTraceHeld | src/Console/Commands/MoveTableToSchemaCommand.php:177-185 | The rows held by the drop phase are the captured rows, verbatim and in order, whether or not it is a dry run. |
| MoveTableToSchema.AddTraceContents | src/Console/Commands/MoveTableToSchemaCommand.php:193-206 | The re-add phase issues one ADD CONSTRAINT per held row, in order, on the moved table. |
| MoveTableToSchema.LiveRunStatements | src/Console/Commands/MoveTableToSchemaCommand.php:101-134 | A live run's statements are all the drops, then one SET SCHEMA, then all the re-adds. |
| MoveTableToSchema.LiveRunCommitsOnce | src/Console/Commands/MoveTableToSchemaCommand.php:99-139 | A live run commits exactly once and never rolls back. |
| MoveTableToSchema.LiveRunHeldRows | src/Console/Commands/MoveTableToSchemaCommand.php:166-187 | A live run holds exactly the captured rows. |
| MoveTableToSchema.DryRunStatements | src/Console/Commands/MoveTableToSchemaCommand.php:125-137 | A dry run issues no DDL statement, yet holds every captured row. |
| MoveTableToSchema.DryRunRollsBackOnce | src/Console/Commands/MoveTableToSchemaCommand.php:136-138 | A dry run rolls back exactly once and never commits. |
| MoveTableToSchema.NoForeignKeysTrace | src/Console/Commands/MoveTableToSchemaCommand.php:99-134 | With no foreign keys, a live run is begin, create holding table, SET SCHEMA, commit. |
| MoveTableToSchema.FoundReportedIffAny | src/Console/Commands/MoveTableToSchemaCommand.php:116-119 | "Found N foreign key(s)" appears iff there is at least one row, and then N is the number of rows. |
| MoveTableToSchema.DropMessagesKinds | src/Console/Commands/MoveTableToSchemaCommand.php:169-174 | The drop phase writes only "would drop" or "dropped" lines. |
| MoveTableToSchema.RecreateMessagesKinds | src/Console/Commands/MoveTableToSchemaCommand.php:201-206 | The re-add phase writes only "would recreate" or "recreated" lines. |
| MoveTableToSchema.StatementsAppend | src/Console/Commands/MoveTableToSchemaCommand.php:101-134 | The statements of two consecutive parts of a session are the first part's, then the second's. |
| MoveTableToSchema.HeldRowsAppend | src/Console/Commands/MoveTableToSchemaCommand.php:177-185 | The same holds for the rows held. |
| MoveTableToSchema.DropStatements | src/Console/Commands/MoveTableToSchemaCommand.php:172 | Row `i` gives the statement dropping row `i`'s constraint. |
| MoveTableToSchema.AddStatements | src/Console/Commands/MoveTableToSchemaCommand.php:194-199 | Row `i` gives the statement re-adding row `i` unchanged on the moved table. |
| MoveTableToSchema.ModelUpdate | src/Console/Commands/MoveTableToSchemaCommand.php:267-296 | Exactly one model message. A missing model file gives "not found" with its path, which is `app_path` of the relative path and so has exactly one separator after the application directory. A live run edits the file with the `PropertyChange` for the default schema. A dry run moving into the default schema says it would remove the property; any other dry run says it would set it to `schemaTo.table`. |
| Catalog.DropAllSpec | src/Console/Commands/MoveTableToSchemaCommand.php:166-187 | Dropping the captured rows' constraints in order succeeds iff the constraint names are distinct. Then exactly those rows are gone from the table. |
| Catalog.AddAllSpec | src/Console/Commands/MoveTableToSchemaCommand.php:189-208 | Re-adding distinct rows to a table with none succeeds iff every referenced relation exists. Then the table holds exactly those rows, in order. |
| Catalog.LiveMoveSpec | src/Console/Commands/MoveTableToSchemaCommand.php:114-134 | A live move over the rows the foreign-key query yields succeeds iff the table's constraints are `Unique`, the destination schema exists and is free, and every referenced relation exists after the move. Then the catalog is `Moved`: the table is in the new schema with its rows verbatim, `foreign_schema` included, and other tables' references to it name the new schema. Index and sequence clashes are outside this catalog (see Left out). |
| Catalog.Moved | src/Console/Commands/MoveTableToSchemaCommand.php:128 | The table leaves its schema for the destination with the same rows. The schemas and the constraints of other kinds are unchanged. Every other relation keeps its rows, except that a row referencing the moved table now names the destination schema. This is the move within a catalog of foreign keys and constraint names; indexes and sequences are not in it. |
| Catalog.MoveRoundTrip | src/Console/Commands/MoveTableToSchemaCommand.php:97-140 | In a catalog without dangling references, moving the table back after a successful move restores the catalog, when the move back succeeds. |
| Catalog.SetSchemaRoundTrip | src/Console/Commands/MoveTableToSchemaCommand.php:128 | In a catalog without dangling references, SET SCHEMA into an existing, free schema succeeds, and SET SCHEMA back restores the catalog, references included. |
| Catalog.MovedBack | src/Console/Commands/MoveTableToSchemaCommand.php:128 | In a catalog without dangling references, `Moved` into a free schema and `Moved` back is the identity. |
| Catalog.MovedResolved | src/Console/Commands/MoveTableToSchemaCommand.php:128 | A move that succeeds leaves no dangling reference behind: references to the table follow it. |
| Catalog.QuerySpec | src/Console/Commands/MoveTableToSchemaCommand.php:142-164 | The query's rows carry distinct names iff the table's constraints are `Unique`. Then they are exactly the table's rows. Every row it yields is one of the table's. |
| Catalog.UniqueDistinct | src/Console/Commands/MoveTableToSchemaCommand.php:153-162 | Unique constraints have distinct names on the table. |
| Catalog.UniqueJoinCount | src/Console/Commands/MoveTableToSchemaCommand.php:153-162 | A unique constraint is matched exactly once by the name-only join, constraints of other kinds included. |
| Catalog.RepeatedNameJoinCount | src/Console/Commands/MoveTableToSchemaCommand.php:153-162 | A name with a second foreign-key row anywhere, or with a column listed for a constraint of another kind, is matched at least twice. |
| Catalog.OtherKeyColumns | src/Console/Commands/MoveTableToSchemaCommand.php:154-155 | The key-column view lists no column for constraints of other kinds of that name iff none of them has a key column. |
| Catalog.OtherUsedColumns | src/Console/Commands/MoveTableToSchemaCommand.php:156-157 | The referenced-column view lists no column for constraints of other kinds of that name iff none of them uses a column. |
| Catalog.SameNamedConstraintBlocksMove | src/Console/Commands/MoveTableToSchemaCommand.php:153-172 | A primary key, unique or check constraint anywhere that shares a name with one of the table's foreign keys and lists a column makes the query repeat the name, and a live move fails. |
| Catalog.JoinRowsRepeats | src/Console/Commands/MoveTableToSchemaCommand.php:144-163 | A constraint the join matches twice repeats its name in the query's result. |
| Catalog.SelfReferenceBlocksMove | src/Console/Commands/MoveTableToSchemaCommand.php:194-199 | A table with a self-referencing foreign key cannot be moved out of its schema live. The captured constraint still names the old schema when it is re-added. |
| Catalog.DropAllStopsAtError | src/Console/Commands/MoveTableToSchemaCommand.php:168-186 | After the first failing drop, the rest of the rows change nothing. |
| Catalog.AddAllStopsAtError | src/Console/Commands/MoveTableToSchemaCommand.php:193-207 | After the first failing re-add, the rest of the rows change nothing. |
| Catalog.WithoutMembers | src/Console/Commands/MoveTableToSchemaCommand.php:172 | Dropping constraints keeps exactly the rows of the other constraints. |
| ModelFile.GetDefaultSchema | src/Console/Commands/MoveTableToSchemaCommand.php:210-231 | None for an unset or ill-typed search_path. For a string, the first of its comma-separated entries that is truthy once trimmed of whitespace and then of quotes, or none iff there is no such entry. For an array, the same over its entries trimmed of quotes. The result has no whitespace or quote left at either end. |
| ModelFile.FirstTruthy | src/Console/Commands/MoveTableToSchemaCommand.php:228-230 | None iff no entry is truthy. Otherwise the first truthy entry. |
| ModelFile.QuotedFirstEntry | src/Console/Commands/MoveTableToSchemaCommand.php:219-230 | A search_path string whose first entry is a double-quoted clean name, such as PostgreSQL's default `"$user", public`, yields the name without quotes. |
| ModelFile.QuotedEntryTrims | src/Console/Commands/MoveTableToSchemaCommand.php:226 | A double-quoted clean entry comes out of both trims as the bare name. |
| ModelFile.DefaultSchemaOfList | src/Console/Commands/MoveTableToSchemaCommand.php:219-230 | A search_path of clean names, given as a comma-separated string or as an array, yields its first name. |
| ModelFile.PropertyChange | src/Console/Commands/MoveTableToSchemaCommand.php:276-291 | The property is removed iff the default schema is known and equals the destination. Otherwise it is set. |
| ModelFile.QualifiedNameSplits | src/Console/Commands/MoveTableToSchemaCommand.php:286 | The value set splits at '.' back into the schema and the table. |
| ModelFile.ModelRelativePath | src/Console/Commands/MoveTableToSchemaCommand.php:235-256 | The path ends in ".php". From `--model`: backslashes become slashes, and one leading "App/" is dropped. |
| ModelFile.AppPath | src/Console/Commands/MoveTableToSchemaCommand.php:244 | `app_path`: an empty argument gives the application directory; otherwise the directory, one '/', then the argument without its leading '/' characters, so the character after the separator is never another '/'. An argument without a leading '/' is appended as it is. |
| ModelFile.AppPathIgnoresLeadingSlash | src/Console/Commands/MoveTableToSchemaCommand.php:244 | A leading '/' on the argument does not change the path. |
| ModelFile.LeadingBackslashModelPath | src/Console/Commands/MoveTableToSchemaCommand.php:237-244 | A `--model` with one leading backslash, such as `\App\Models\User`, keeps its `App` directory, because the "App/" strip does not apply, and its leading separator merges into the join: the path is the directory, '/', then the rest of the name with slashes, then ".php". |
| ModelFile.ExplicitModelMatchesConvention | src/Console/Commands/MoveTableToSchemaCommand.php:237-256 | Naming `App\Models\<Class>` explicitly gives the conventional path. |
| ModelFile.InsertTableProperty | src/Console/Commands/MoveTableToSchemaCommand.php:340-364 | A result iff an anchor was found. The result is the contents before the anchor, the property line, then the rest, unchanged. |
| ModelFile.InsertThenCut | src/Console/Commands/MoveTableToSchemaCommand.php:349-360 | Cutting the inserted line out again gives back the original contents. |
| SchemaDump.Handle | src/Console/Commands/SchemaDump.php:20-53 | A missing connection gives FAILURE with "Connection [X] not found." and no effect. Otherwise the run is `DumpOutcome`: it fails iff no schema is left, and succeeds with the dump, the data, the prune and the report, in that order. |
| SchemaDump.Dump | src/Console/Commands/SchemaDump.php:42-52 | The schema dump runs first. With no schema, the query error fails the run after that dump alone. Otherwise the effects are `RunEffects`, the prune happens only with `--prune`, and the report comes last. |
| SchemaDump.PruneAndReport | src/Console/Commands/SchemaDump.php:45-50 | Prunes only when asked, then reports the schemas and the path. |
| SchemaDump.PruneMigrations | src/Console/Commands/SchemaDump.php:118-124 | Deletes every listed file in listing order, none remains, and the pruned message follows. |
| SchemaDump.DumpMigrationsData | src/Console/Commands/SchemaDump.php:72-97 | An error iff there is no schema. Otherwise the data dump runs iff the query found a truthy schema, and that schema is the one named. |
| SchemaDump.Host.constructor | src/Console/Commands/SchemaDump.php:20 | A run starts with the given files, no effect and no output. |
| SchemaDump.Host.Run | src/Console/Commands/SchemaDump.php:67-69 | Running a program appends its effect. |
| SchemaDump.Host.Delete | src/Console/Commands/SchemaDump.php:121 | Deleting a file removes it from disk and records the deletion. |
| SchemaDump.Host.Say | src/Console/Commands/SchemaDump.php:50 | Writing a line appends it to the output. |
| SchemaDump.DumpOrder | src/Console/Commands/SchemaDump.php:42-47 | The schema dump comes first and only once, and the data dump comes right after it if at all. Nothing is deleted without `--prune`. |
| SchemaDump.SchemasSource | src/Console/Commands/SchemaDump.php:32 | `--schemas`, else the connection's search_path, else "public". |
| SchemaDump.SchemaList | src/Console/Commands/SchemaDump.php:34-36 | Every schema listed is truthy, comma-free and trimmed. |
| SchemaDump.SchemaListJoin | src/Console/Commands/SchemaDump.php:34-36 | The list keeps the source's order: the list for `a,b` is the list for `a` followed by the list for `b`. |
| SchemaDump.SchemaListOfNames | src/Console/Commands/SchemaDump.php:34-36 | Clean names joined by commas give back exactly those names. |
| SchemaDump.DefaultsToPublic | src/Console/Commands/SchemaDump.php:32-36 | With neither option nor search_path, the list is `["public"]`. |
| SchemaDump.SchemaFlags | src/Console/Commands/SchemaDump.php:38 | The flags are empty iff the list is. |
| SchemaDump.FlagsRoundTrip | src/Console/Commands/SchemaDump.php:38 | The flags split on spaces into one `--schema=<name>` per schema, in list order. |
| SchemaDump.DumpPath | src/Console/Commands/SchemaDump.php:30 | `--path`, else `<database dir>/schema/<database>-schema.sql`. |
| SchemaDump.Env | src/Console/Commands/SchemaDump.php:40 | The environment is exactly `PGPASSWORD`, set to the password. |
| SchemaDump.Placeholders | src/Console/Commands/SchemaDump.php:108 | The placeholder list is empty iff there is no schema. |
| SchemaDump.PlaceholdersCount | src/Console/Commands/SchemaDump.php:108 | The list holds exactly one `?` per schema. |
| SchemaDump.PlaceholdersSplit | src/Console/Commands/SchemaDump.php:108 | The list splits on ',' into one `?` per schema. |
| SchemaDump.PlaceholdersMatchBindings | src/Console/Commands/SchemaDump.php:108-113 | The placeholders, plus the table's, match the bindings one to one. |
| SchemaDump.Bindings | src/Console/Commands/SchemaDump.php:112 | The bindings are the table name, then the schemas in order. |
| SchemaDump.FirstMatch | src/Console/Commands/SchemaDump.php:110-115 | None iff no row is the migrations table in a listed schema. Otherwise a listed schema that holds the table. |
| SchemaDump.FirstMatchIsFirst | src/Console/Commands/SchemaDump.php:111 | `LIMIT 1` picks the first matching row. |
| SchemaDump.ResolveMigrationSchema | src/Console/Commands/SchemaDump.php:99-116 | A query error iff the schema list is empty (`IN ()`). Otherwise the first match or none. |
| SchemaDump.DataDump | src/Console/Commands/SchemaDump.php:76-80 | At most one data dump, present iff a truthy schema was found. |
| SchemaDump.DeleteTrace | src/Console/Commands/SchemaDump.php:120-121 | One deletion per listed file, in order. |
| MakeSchemaMigration.Handle | src/Console/Commands/MakeSchemaMigration.php:23-61 | Prompts only for the missing options. Exits SUCCESS iff validation passes. A missing or falsy schema gives "Both … required." and no file. Equal schemas give "… must be different." and no file. Otherwise exactly one file is written at `<timestamp>_move_<table>_from_<from>_to_<to>.php`, and its path is reported. |
| MakeSchemaMigration.WrittenMigrationMovesBetweenDistinctSchemas | src/Console/Commands/MakeSchemaMigration.php:26-45 | A written migration moves between the two schemas given, which differ, and its `down` reverses its `up`. |
| MakeSchemaMigration.Prompts | src/Console/Commands/MakeSchemaMigration.php:26-27 | A prompt for each schema option left out, source first. |
| MakeSchemaMigration.Given | src/Console/Commands/MakeSchemaMigration.php:26-27 | The option if given, else the answer. |
| MakeSchemaMigration.Validate | src/Console/Commands/MakeSchemaMigration.php:29-39 | Missing iff either schema is null or falsy. Same iff both are truthy and equal. Valid carries two distinct truthy schemas. |
| MakeSchemaMigration.BuildStub | src/Console/Commands/MakeSchemaMigration.php:63-107 | `up` moves the table from `from` to `to`, and `down` is `up` reversed. |
| MakeSchemaMigration.Reverse | src/Console/Commands/MakeSchemaMigration.php:82-89 | Swaps source and target and keeps the table. |
| MakeSchemaMigration.SwappedSchemasSwapDirections | src/Console/Commands/MakeSchemaMigration.php:75-88 | Swapping the schemas swaps `up` and `down`. `down`'s statement is `ALTER TABLE "to"."table" SET SCHEMA "from"`. |
| MakeSchemaMigration.Exec | src/Console/Commands/MakeSchemaMigration.php:75-79 | Every ALTER SEQUENCE the migration could issue is refused. |
| MakeSchemaMigration.GetSequences | src/Console/Commands/MakeSchemaMigration.php:91-104 | No sequences for a table that is not in the schema. |
| MakeSchemaMigration.SequenceLoopNeverRuns | src/Console/Commands/MakeSchemaMigration.php:75-79 | The sequence query runs after the table has moved, so it finds nothing. A direction does exactly what its ALTER TABLE does. |
| MakeSchemaMigration.DirectionSucceedsIff | src/Console/Commands/MakeSchemaMigration.php:73-89 | A direction succeeds iff the table is in the source schema, and the target schema exists and has no table of that name. |
| MakeSchemaMigration.DownUndoesUp | src/Console/Commands/MakeSchemaMigration.php:73-89 | After a successful `up`, `down` restores the original catalog, owned sequences included. |
| ListTables.Handle | src/Console/Commands/ListTablesCommand.php:16-31 | Always SUCCESS. The output is the all-schemas listing or one schema's listing, as `SelectMode` picks. |
| ListTables.SelectMode | src/Console/Commands/ListTablesCommand.php:18-28 | `--all` first, then a truthy schema argument, then the configured default. |
| ListTables.ListAllSchemas | src/Console/Commands/ListTablesCommand.php:33-49 | The heading and a blank line, then each non-system schema's listing followed by a blank line, in ascending order. |
| ListTables.ListEach | src/Console/Commands/ListTablesCommand.php:45-48 | The loop writes each schema's listing and a blank line, in order. |
| ListTables.ListTablesInSchema | src/Console/Commands/ListTablesCommand.php:51-77 | Appends exactly the schema's listing. |
| ListTables.Terminal.constructor | src/Console/Commands/ListTablesCommand.php:16 | The output starts empty. |
| ListTables.Terminal.Say | src/Console/Commands/ListTablesCommand.php:42-43 | Writing a line appends it. |
| ListTables.Schemata | src/Console/Commands/ListTablesCommand.php:35-40 | Exactly the schemas other than `information_schema`, `pg_catalog` and `pg_toast`. |
| ListTables.SchemataAscending | src/Console/Commands/ListTablesCommand.php:39 | Those schemas come in strictly ascending byte order. |
| ListTables.SchemataDistinct | src/Console/Commands/ListTablesCommand.php:35-40 | No schema is listed twice. |
| ListTables.Ascending | src/Console/Commands/ListTablesCommand.php:39 | The ordered list has exactly the members of the set. |
| ListTables.AscendingSorted | src/Console/Commands/ListTablesCommand.php:39 | The ordered list is strictly ascending. |
| ListTables.Least | src/Console/Commands/ListTablesCommand.php:39 | The least name of a non-empty set. |
| ListTables.LeastExists | src/Console/Commands/ListTablesCommand.php:39 | A non-empty set of names has a least one. |
| ListTables.BelowIrreflexive | src/Console/Commands/ListTablesCommand.php:39 | No name sorts before itself. |
| ListTables.BelowTransitive | src/Console/Commands/ListTablesCommand.php:39 | Name order is transitive. |
| ListTables.BelowTotal | src/Console/Commands/ListTablesCommand.php:39 | Any two different names are ordered one way or the other. |
| ListTables.SelectTables | src/Console/Commands/ListTablesCommand.php:53-61 | A schema that does not exist has no tables. |
| ListTables.SchemaListing | src/Console/Commands/ListTablesCommand.php:63-76 | A listing is never empty. |
| ListTables.ListingShape | src/Console/Commands/ListTablesCommand.php:63-76 | The warning "Schema '…' has no tables", alone, iff there are no tables. Otherwise a header whose count is the number of table rows, and a `Table`/`Size` table with one row per table, in query order. |
| ListTables.HeaderCountsTables | src/Console/Commands/ListTablesCommand.php:69 | The header's count reads back as the number of tables. |
| ListTables.TableData | src/Console/Commands/ListTablesCommand.php:71-74 | Row `i` is table `i`'s name and size. |
| ListTables.NatToString | src/Console/Commands/ListTablesCommand.php:69 | A non-empty string of decimal digits. |
| ListTables.NatToStringRoundTrip | src/Console/Commands/ListTablesCommand.php:69 | The digits read back as the number. |
| ListTables.AllListingsBlanks | src/Console/Commands/ListTablesCommand.php:45-48 | The loop writes exactly one blank line per schema. |
| ListTables.ListingHasNoBlank | src/Console/Commands/ListTablesCommand.php:63-76 | A schema's listing holds no blank line. |
| Text.TrimLeft | src/Console/Commands/SchemaDump.php:35 | Removes exactly the leading characters of the set. |
| Text.TrimRight | src/Console/Commands/SchemaDump.php:35 | Removes exactly the trailing characters of the set. |
| Text.TrimBounds | src/Console/Commands/SchemaDump.php:35 | Trimming leaves a slice, and everything cut off belongs to the set. |
| Text.TrimIsSlice | src/Console/Commands/SchemaDump.php:35 | Trimming leaves a slice with no character of the set at either end. |
| Text.TrimClean | src/Console/Commands/SchemaDump.php:35 | Trimming a clean string changes nothing. |
| Text.Explode | src/Console/Commands/SchemaDump.php:34 | `explode` always yields at least one piece. |
| Text.ExplodeSeparatorFree | src/Console/Commands/SchemaDump.php:34 | No piece contains the separator. |
| Text.ExplodeJoin | src/Console/Commands/SchemaDump.php:34 | Splitting `a,b` gives the pieces of `a`, then those of `b`. |
| Text.ImplodeExplode | src/Console/Commands/SchemaDump.php:34 | Joining the pieces again with the separator gives back the string. |
| Text.ExplodeImplode | src/Console/Commands/SchemaDump.php:38 | Splitting separator-free pieces joined by the separator gives back the pieces. |
| Text.FilterTruthy | src/Console/Commands/SchemaDump.php:36 | Keeps exactly the truthy entries. |
| Text.FilterTruthyAppend | src/Console/Commands/SchemaDump.php:36 | Filtering keeps order across concatenation. |
| Text.FilterTruthyKeepsTruthy | src/Console/Commands/SchemaDump.php:36 | Filtering truthy entries changes nothing. |
| Text.TrimEach | src/Console/Commands/SchemaDump.php:35 | Entry `i` is entry `i` trimmed. |
| Text.TrimEachAppend | src/Console/Commands/SchemaDump.php:35 | Trimming each entry keeps order across concatenation. |
| Text.MapEach | src/Console/Commands/SchemaDump.php:38 | Entry `i` is the function applied to entry `i`. |
| Text.MapEachAppend | src/Console/Commands/SchemaDump.php:38 | Mapping keeps order across concatenation. |
| Text.ReplaceChar | src/Console/Commands/MoveTableToSchemaCommand.php:238 | `str_replace` of one character: none of the old character is left, and every other character is unchanged. |

## Left out

- Running `pg_dump`, and its exit status, is not modelled. Each call is recorded as an effect with its flags, path and environment. The command line's text is not built.
- SQL text is not modelled. Catalog queries are functions of the catalog. The ordering, filtering and `IN (…)` list are modelled on values. The query text is only counted for its `?` marks.
- `PGPASSWORD` is the only environment variable modelled. Host, port, user and database name go to the command line, which is not built.
- `Str::studly`, `Str::singular`, `app_path`, `database_path` and `date()` are inputs: a class name, directories, a timestamp and a `studly` function.
- The `confirm` and `ask` prompts are inputs: a boolean and the answers.
- `removeTableProperty` and `setTableProperty` are not modelled. Finding the insertion anchor in `insertTableProperty` is an input.
- File I/O is not modelled. The model file's existence is a set of files, and the migrations directory's listing is an input.
- Exceptions from the model update are not modelled. The update is a message, and it never changes the exit status.
- Verbose stack traces and console formatting (colours, emoji, table layout) are not modelled. Messages are a datatype, and only the texts the properties need are spelled out.
- `tableExists` does not restrict `table_type`. The model's catalog does not tell tables from views, so a view counts as existing too.
- A search_path given as an array is not modelled in `schema:dump`, which would fail on `explode`. `ModelFile.GetDefaultSchema` does handle arrays.
- An empty connection configuration array counts as found. A falsy `$connection` is modelled as a connection name missing from the map.
- ListTables.Handle: an unset configured default schema is not modelled. Passing null to the typed `string` parameter would be a type error, so the default is a `string` input.
- ListTables.SelectTables: the order of a schema's rows is the order in the map. The query's `ORDER BY table_name` is not re-proved.
- Table sizes are strings as `pg_size_pretty` returns them.
- The database's `ORDER BY schema_name` is modelled as byte order, which assumes the C collation.
- MakeSchemaMigration.Exec: `SET SCHEMA` also moves the table's indexes and owned sequences, and fails with duplicate_table when the target schema already holds a relation of one of their names. The migration's catalog has no indexes and no sequence-name clashes, so `Exec` and `MakeSchemaMigration.DirectionSucceedsIff` succeed there.
- MakeSchemaMigration.DirectionSucceedsIff: it does not include the index and owned-sequence clashes of the line above.
- Catalog.Moved: the table's indexes and sequences, which move with it, are not part of the result.
- Catalog.Apply: the same clash of a moved index or owned sequence with a relation in the destination schema is not modelled; the catalog has no indexes or sequences, so SET SCHEMA succeeds there.
- Catalog.LiveMoveSpec: `MoveSucceeds` does not include the index and sequence clashes above, so a live move PostgreSQL refuses for that reason is one the model lets succeed.
- MoveTableToSchema.MoveAndUpdateModel: its "succeeds iff `MoveSucceeds`" inherits the index and sequence clashes left out of `Catalog.LiveMoveSpec`.
- MoveTableToSchema.Handle: its "succeeds iff `MoveSucceeds`" inherits the index and sequence clashes left out of `Catalog.LiveMoveSpec`.
- MoveTableToSchema.MoveOutcome: its "succeeds iff `MoveSucceeds`" inherits the index and sequence clashes left out of `Catalog.LiveMoveSpec`.
- Catalog.ForeignKeyQuery: the number of rows per constraint is modelled, but each copy is the table's own first row of that constraint. In PostgreSQL the copies mix the column, referenced column and rules of every same-named row, including the columns of same-named constraints of other kinds. So a dry run over such copies holds and prints the table's own referenced relation where PostgreSQL may show another one. The row order of the query is not modelled. The catalog views show only constraints on tables the current role may access; the model counts every constraint.
- `DB::transaction`'s retries and nested savepoints are not modelled. The transaction is a snapshot with commit and rollback.
- Concurrency with other sessions is not modelled.
