/** What an Artisan command hands back to the console: its exit status and
    the lines it writes. */
module Console {

  /** `Command::SUCCESS` (0) and `Command::FAILURE` (1). */
  datatype ExitCode = Success | Failure

  /** A line of console output: `info`, `warn`, `error`, `newLine`, or a
      table with its header row and its rows. */
  datatype Line =
    | Info(text: string)
    | Warn(text: string)
    | Error(text: string)
    | Blank
    | Table(headers: seq<string>, rows: seq<seq<string>>)
}
