# migrate — a verified model of the migration engine

`migrate` applies SQL migration files to PostgreSQL databases. The heart of
the tool is `runMigrations`, which is modelled here. It works in four steps:

- It walks a migration directory. Every regular file the filter matches
  (every regular file when there is no filter) becomes a migration. Its
  version is the root-relative path without the extension or, with a filter,
  the filter's single capture group.
- In one transaction it creates the `migrations` table if needed, then reads
  the watermark row: a row whose `ended_at` is NULL if there is one (NULLs
  come first under `DESC`), else the row with the latest `ended_at`, ties
  broken by the `version` that sorts last under the column's collation. It
  selects the discovered migrations whose version sorts above the watermark's
  version as a JavaScript string, and reads their files.
- It runs each selected migration. For each one it records a start row, runs
  the migration's SQL, then records the end time. It logs one success line
  per migration.
- It commits. If any statement fails or a selected file cannot be read, it
  rolls back and logs the error and a roll-back notice that carries the exit
  code for a failed query.

Three more rules are modelled:

- how the logger decides what reaches the console and when the process exits;
- how command-line options are given their defaults;
- which file-system events start another run in watch mode.

The modules, one per file:

| module | what it holds |
|---|---|
| `Types` | `Option`, `Result`, the exit codes, and the `Failure` values a run can reject with |
| `Text` | JavaScript string order, `substring`, `split`/`join`, `trim` and `toLowerCase` |
| `Paths` | POSIX `isAbsolute`, `extname` and `resolve` |
| `LogBuilder` | the pure print/exit decision `Decide`, and the `Logger` class whose `Log` method records console output and the exit code |
| `OptionDefaults` | `SetOptionDefaults` |
| `Discovery` | the walk as a loop (`Discover`, `OnItem`) against the recursive specification `Discovered` |
| `Ledger` | the migrations table, its watermark order, the server's evaluation of the watermark query (`FindWatermark`), and the `Database` class; `Step` gives the meaning of each statement |
| `Up` | `RunMigrations` and the methods it calls, each proved against a ghost function of the old state (`Run`, `Transaction`, `Prepared`, `ApplyAll`, `Concluded`, `Aborted`) |
| `UpProperties` | what a run guarantees: commit iff clean, rollback otherwise, nothing pending after a commit, re-runs are empty |
| `Watch` | the exit flag and the watch-event predicate of `upCommand` |
| `Fixtures` | the scenarios of `src/commands/up.test.ts`, proved about the model |

The environment is turned into parameters:

- the working directory is `cwd`;
- the walk's output is a `Walk` value (entries in emission order, or an error);
- the filter is a `Matcher` function that returns the match array;
- file contents are a map `files` from root-relative path to text, where a
  missing key is a failed read;
- the database server is a `Server` value. Its `clock` gives `NOW()` for the
  n-th statement, and its `faults` set holds the 1-based positions of the
  statements it rejects.

The model follows the code in these places:

- Pending migrations keep discovery order. They are never sorted by version.
- A filter match with the wrong number of capture groups does not stop the
  walk. It sets an error flag, and the run rejects only when the walk ends
  (up.ts:41-42, 68-70). A walk error that arrives first wins.
- The watermark is the first row of `ORDER BY ended_at DESC, version DESC`
  (up.ts:89). PostgreSQL puts NULLs first under `DESC`, so a row whose
  migration never ended outranks every finished row. The watermark is
  therefore not "the highest version applied".
- Versions are compared as JavaScript strings (up.ts:94). `Fixtures.VersionOrder`
  shows that `"9"` sorts above `"10"`, so unpadded numeric versions are
  selected wrongly. The repository's fixtures use zero-padded versions.
- The tie-break `version DESC` (up.ts:89) is decided by the server under the
  column's collation, and the filter `>` (up.ts:94) by JavaScript's code-unit
  order. The `Server` value carries the collation as a sort key
  (`Ledger.Collation`); "C" is the identity key. The properties about what is
  pending after a run hold when the collation orders the versions involved as
  JavaScript does (`Ledger.AgreesWithCode`), which the "C" collation always
  does (`Ledger.CodeUnitOrderAgrees`). See "## Findings".

## Model

| member | source | states |
|---|---|---|
| Up.RunMigrations | src/commands/up.ts:21-131 | After a run, the connection's state, the outcome, the logger's recorded calls, its console output and its exit code are exactly those of `Run` on the resolved root. The output and exit code follow the logger's level list and exit flag. |
| Up.Transact | src/commands/up.ts:73-130 | The try block and its catch leave the connection, the logs and the outcome exactly as `Transaction` says. |
| Up.Prepare | src/commands/up.ts:78-100 | BEGIN, the CREATE statement, the watermark SELECT and the reads of the pending files leave the state and the batch (or the first error) that `Prepared` gives. |
| Up.ApplyBatch | src/commands/up.ts:102-116 | The loop runs the batch in order, stops at the first failure, and reports that failure with the migration in flight. It logs one success line per completed migration, all as `ApplyAll` says. |
| Up.ApplyMigration | src/commands/up.ts:104-112 | INSERT, the migration's SQL and UPDATE run in turn and stop at the first rejected statement (`Attempted`). |
| Up.Conclude | src/commands/up.ts:117-129 | With no failure it issues COMMIT. A failure, or a rejected COMMIT, enters the catch block. |
| Up.Abort | src/commands/up.ts:118-129 | ROLLBACK, then the error logged pre-styled at Error level, then the roll-back notice with exit code 3 naming the migration in flight as JSON (`null` when there is none). |
| Up.Newer | src/commands/up.ts:94 | A migration is selected iff it was discovered and its version sorts above the watermark's version. The selection is never longer than the input. |
| Up.Pending | src/commands/up.ts:93-95 | With no watermark row every migration is pending. Otherwise exactly those above the row's version are. |
| Up.ReadAll | src/commands/up.ts:92-100 | Reading succeeds iff every pending path is readable, and then yields each migration with its own text, in order. A failure names an unreadable pending path. |
| Up.ApplyAll | src/commands/up.ts:102-116 | The loop only appends to the logs, and every appended call is a Success-level log. |
| Up.FailureStops | src/commands/up.ts:102-116 | Once a migration has failed, the remaining migrations of the batch change nothing. |
| Discovery.Discover | src/commands/up.ts:31-71 | The walk loop with its data, error and end handlers yields exactly `Discovered`. |
| Discovery.DiscoveredShape | src/commands/up.ts:61-70 | A walk error rejects with that error. Otherwise the run rejects with the capture-group error iff some file was rejected, and else resolves with the migrations found. |
| Discovery.OnItem | src/commands/up.ts:35-60 | One item appends its migrations to the list and sets the error message iff its match has the wrong number of entries. |
| Discovery.RootDir | src/commands/up.ts:27-29 | The root is absolute, and an absolute `dir` is kept unchanged. |
| Discovery.WalkFailure | src/commands/up.ts:61-67 | An ENOENT error rejects with "Migration directory ... does not exist" naming the root. Any other error is passed on with its code. |
| Discovery.AnyRejected | src/commands/up.ts:41-42 | The error flag is set iff some file of the walk matches with a match array whose length is not 2. |
| Discovery.RelativeBelowRoot | src/commands/up.ts:36 | The relative path of an item below the root is the path below the root. |
| Discovery.WalkAppend | src/commands/up.ts:35-60 | Discovery of a walk in two parts is the concatenation of the parts' migrations, and it rejects iff either part does. |
| Discovery.FoundKeepsOrder | src/commands/up.ts:44-57 | The migrations from a prefix of the walk are a prefix of the migrations found, so walk order is kept. |
| Discovery.UnfilteredFound | src/commands/up.ts:50-57 | Without a filter, the k-th migration comes from the k-th regular file: its relative path, and the path without its extension as version. |
| Discovery.FilteredFound | src/commands/up.ts:38-49 | With a filter, a migration is found iff some file matches with exactly one capture, and its version is that capture. |
| Ledger.CollatesIrreflexive | src/commands/up.ts:89 | No version sorts before itself under a collation. |
| Ledger.CollatesTransitive | src/commands/up.ts:89 | Order under a collation is transitive. |
| Ledger.CollatesTotal | src/commands/up.ts:89 | Two different versions are ordered one way or the other under any collation, since equal sort keys fall back to the code units. |
| Ledger.CodeUnitOrderAgrees | src/commands/up.ts:89-94 | Under the "C" collation, the server's order on versions is JavaScript's order, for any set of versions. |
| Ledger.SortsBeforeIrreflexive | src/commands/up.ts:89 | No row sorts before itself under the watermark order. |
| Ledger.SortsBeforeTransitive | src/commands/up.ts:89 | The watermark order is transitive. |
| Ledger.SortsBeforeTotal | src/commands/up.ts:89 | Rows with different versions are always ordered, because version, under the column's collation, is the last sort key. |
| Ledger.WatermarkExists | src/commands/up.ts:88-91 | A non-empty table has a first row under the watermark order. |
| Ledger.WatermarkUnique | src/commands/up.ts:88-91 | The first row is unique. |
| Ledger.Watermark | src/commands/up.ts:88-91 | The query returns no row iff the table is empty, and otherwise the first row. |
| Ledger.FindWatermark | src/commands/up.ts:88-91 | The server's answer to the watermark query, computed by one pass over the rows, is nothing iff the table is empty, and otherwise the row that sorts first under `ended_at DESC, version DESC`, versions compared under the column's collation. |
| Ledger.Step | src/commands/up.ts:78-119 | Every statement is recorded. A rejected one changes nothing else. Only BEGIN, COMMIT and ROLLBACK touch the snapshot; only CREATE and ROLLBACK touch the table's existence; only BEGIN sets the transaction time. |
| Ledger.Database.constructor | src/commands/up.ts:23 | A fresh connection has no open transaction and has issued no statement. |
| Ledger.Database.Query | src/commands/up.ts:78-119 | `db.query` moves the connection's state exactly as `Step` says. |
| LogBuilder.Decide | src/lib/logBuilder.ts:35-46 | A call prints iff its level (Info by default) is listed. A string that is not pre-styled is wrapped in its level's colour, and anything else is printed unchanged. The process exits iff the exit flag is on and a code is given, and then with that code. |
| LogBuilder.PrintoutAppend | src/lib/logBuilder.ts:35-46 | The output of two runs of calls is the two outputs in order. |
| LogBuilder.EmptyLevelsPrintNothing | src/lib/logBuilder.ts:37 | A logger built with an empty level list prints nothing. |
| LogBuilder.AllLevelsPrintEverything | src/lib/logBuilder.ts:31-37 | With every level listed, each call prints exactly one line. |
| LogBuilder.Logger.constructor | src/lib/logBuilder.ts:27-34 | An omitted level list becomes all four levels. The exit flag is kept, and nothing is printed yet. |
| LogBuilder.Logger.Log | src/lib/logBuilder.ts:35-46 | While the process is alive, one call is recorded, prints as `Decide` says and sets the exit code. After exit nothing changes. |
| OptionDefaults.SetOptionDefaults | src/lib/setOptionDefaults.ts:4-22 | exitOnCompletion is set to true and the other options are kept. A missing or empty level list becomes all levels. Otherwise the cleaned names are used, except that "none" gives no levels and "all" gives all levels, "none" winning. |
| OptionDefaults.LevelNames | src/lib/setOptionDefaults.ts:11-13 | The pieces, joined back with commas, give the list again; there is one name per piece, in order, the piece lower-cased and then trimmed, and every name has no white space at either end and no upper-case letter. |
| OptionDefaults.CleanedUp | src/lib/setOptionDefaults.ts:13 | A lower-cased and trimmed piece has no upper-case letter and no white space at either end. |
| UpProperties.CleanRun | src/commands/up.ts:76-117 | When discovery succeeds, the versions are fresh and the server accepts every statement, the run commits. It records every version started and ended at the BEGIN time and issues the clean trace. It logs one success line per migration and resolves. |
| UpProperties.CommitMeansClean | src/commands/up.ts:76-130 | Conversely, a run whose last statement is COMMIT read every pending file and committed exactly as a clean run does. |
| UpProperties.FailedRunRollsBack | src/commands/up.ts:76-129 | A run that does not end with COMMIT ends with ROLLBACK, with no COMMIT since BEGIN except perhaps a rejected one just before the ROLLBACK. Its error and logs are fixed by where it failed. A failure before the loop carries that statement's error with no migration in flight and nothing logged before it. A failure of migration k carries that migration's error with it in flight, after the success lines of the k migrations before it. A rejected COMMIT carries `Rejected` at its position, with the last migration in flight, after every success line. If the ROLLBACK succeeds, the ledger and the table are as before, no transaction is open, and the error and the roll-back notice follow those lines. If the ROLLBACK is rejected, the run rejects with that error and logs only those lines. |
| UpProperties.TransactionRollsBack | src/commands/up.ts:76-129 | The same for the try block on its own. |
| UpProperties.SetupFailureRollsBack | src/commands/up.ts:78-100 | A failure before the loop rolls back with that statement's error, no migration in flight and no success line before it. |
| UpProperties.LoopFailureRollsBack | src/commands/up.ts:102-129 | When migration k is the first whose statements fail, the run rolls back with its error, that migration in flight, after the success lines of the k migrations before it. |
| UpProperties.CommitFailureRollsBack | src/commands/up.ts:117-129 | After a loop without error, a COMMIT the server rejects rolls back with `Rejected` at the COMMIT's position (after BEGIN, CREATE, SELECT and three statements per migration), the last migration in flight, after every success line. |
| UpProperties.CommitRejectedRolledBack | src/commands/up.ts:117-129 | From an undoable state with no COMMIT since BEGIN, a rejected COMMIT enters the catch block with its own error and rolls back. |
| UpProperties.FirstFailure | src/commands/up.ts:102-116 | A loop that stops with an error stopped at some migration whose statements failed, all those before it having run without error. |
| UpProperties.FailingPrefixFrom | src/commands/up.ts:102-116 | From a prefix of the batch that ran without error, when the whole batch fails, there is a first longer prefix that fails. |
| UpProperties.RollbackRestores | src/commands/up.ts:119-129 | The catch block issues exactly one ROLLBACK. If it succeeds, the ledger and the table's existence are as they were before BEGIN, the transaction is closed, and the two catch-block logs follow. If it is rejected, the run rejects with that statement's error and logs nothing. |
| UpProperties.AbortedRolledBack | src/commands/up.ts:118-129 | From an undoable state with no COMMIT since BEGIN, except perhaps the last statement, the catch block ends the trace with ROLLBACK and adds exactly the error and the roll-back notice for the given migration to the logs already written, or rejects with the ROLLBACK's error and adds nothing. |
| UpProperties.PreparedUndoable | src/commands/up.ts:78-100 | Whatever happens before the loop, the state can still be rolled back to the one before BEGIN. At most three statements were issued, BEGIN first, and none of them is COMMIT. |
| UpProperties.PreparedShape | src/commands/up.ts:78-100 | When the server accepts them, the three statements before the loop make the table exist. They open the transaction with a snapshot of the table and the ledger, at the time of BEGIN. The batch is the pending migrations, read. |
| UpProperties.ConcludedQueries | src/commands/up.ts:117-119 | The end of the try block adds ROLLBACK, or COMMIT, or a rejected COMMIT followed by ROLLBACK. |
| UpProperties.ConcludedCommits | src/commands/up.ts:117 | When the loop ended without error and the server accepts COMMIT, the transaction is closed and the run resolves without logging. |
| UpProperties.RunBegins | src/commands/up.ts:78 | After discovery, the first statement of a run is BEGIN. |
| UpProperties.AttemptedShape | src/commands/up.ts:104-112 | An accepted migration inserts its row with start and end at the transaction time and issues exactly its three statements. |
| UpProperties.AttemptedClean | src/commands/up.ts:104-112 | A fresh version whose statements the server accepts does not fail. |
| UpProperties.AppliedShape | src/commands/up.ts:102-116 | A loop without error recorded every migration of the batch and logged one success line for each. |
| UpProperties.ApplyAllClean | src/commands/up.ts:102-116 | A loop over fresh, distinct versions that the server accepts ends without error. |
| UpProperties.ApplyAllFrame | src/commands/up.ts:102-116 | The loop keeps the transaction open and issues only INSERT, SQL and UPDATE statements. |
| UpProperties.RecordedShape | src/commands/up.ts:104-112 | After a commit, each batch version has a row started and ended at the transaction time, and every other row is unchanged. |
| UpProperties.ReadFailureInsertsNothing | src/commands/up.ts:92-100 | When a pending file cannot be read, the run issues only BEGIN, CREATE, SELECT and ROLLBACK, and the error is the read failure. If the ROLLBACK succeeds, the logs are the two catch-block logs for that error, with no migration in flight. |
| UpProperties.DiscoveryFailureTouchesNothing | src/commands/up.ts:31-71 | A discovery error rejects before any statement or log. |
| UpProperties.NewerKeepsOrder | src/commands/up.ts:94 | The selection from a prefix of the discovered list is a prefix of the selection, so discovery order is kept. |
| UpProperties.WatermarkNeverPending | src/commands/up.ts:93-95 | The watermark's own version is never selected. |
| UpProperties.NothingNewer | src/commands/up.ts:94 | Nothing is selected iff no discovered version sorts above the watermark. |
| UpProperties.WatermarkIsLatest | src/commands/up.ts:89 | When every row has ended, the watermark row ended last, and among rows that ended at the same time its version sorts last under the column's collation. |
| UpProperties.RecordedEnded | src/commands/up.ts:104-112 | Recording a batch at time t keeps every row ended, and none later than t. |
| UpProperties.PendingAtOrBelow | src/commands/up.ts:88-112 | After the batch is recorded, no migration of it sorts above the new watermark, when the collation orders the recorded and batch versions as JavaScript does. |
| UpProperties.NothingPendingAfterCommit | src/commands/up.ts:88-117 | After a committed batch, nothing discovered is pending any more, under the same agreement. |
| UpProperties.EmptyRun | src/commands/up.ts:78-117 | With nothing pending, a run issues BEGIN, CREATE, SELECT and COMMIT only. It changes no row, logs nothing and resolves. |
| UpProperties.RerunIsEmpty | src/commands/up.ts:21-131 | Running again right after a clean run issues only BEGIN, CREATE, SELECT and COMMIT, leaves the ledger as it is, logs nothing and resolves, when the collation orders the recorded and discovered versions as JavaScript does. |
| UpProperties.RerunIsEmptyUnderC | src/commands/up.ts:21-131 | On a `version` column with the "C" collation, running again right after a clean run always issues only BEGIN, CREATE, SELECT and COMMIT, leaves the ledger as it is, logs nothing and resolves. |
| Watch.ExitFlag | src/commands/up.ts:139 | The logger may exit iff watch mode is off and exitOnCompletion is set. |
| Watch.WatchNeverExits | src/commands/up.ts:139-140 | In watch mode no logger call ends the process. |
| Watch.CommandLineExits | src/commands/up.ts:139-140 | With defaulted options and no watch mode, every call that carries a code exits with that code. |
| Watch.TriggersBelowRoot | src/commands/up.ts:176-180 | An event below the root starts a run iff it is `add` or `change` and the filter, if any, matches the same relative path that discovery sees. |
| Watch.OtherEventsIgnored | src/commands/up.ts:177 | Events other than `add` and `change` never start a run. |
| Watch.ChangedMigrationTriggers | src/commands/up.ts:176-181 | A change to a file that yields a migration under the filter starts a run, and that run finds the migration again. |
| Watch.MiscapturedFileTriggers | src/commands/up.ts:176-181 | A change to a file whose match has the wrong number of captures starts a run, and that run rejects with the capture-group error. |
| Text.BelowIrreflexive | src/commands/up.ts:94 | No version sorts above itself. |
| Text.BelowTransitive | src/commands/up.ts:94 | JavaScript string order is transitive. |
| Text.BelowTotal | src/commands/up.ts:94 | Any two different versions are ordered one way or the other. |
| Text.BelowAsymmetric | src/commands/up.ts:94 | Two versions are never each above the other. |
| Text.Substring | src/commands/up.ts:36 | `substring(start)` keeps the characters from `start`, and gives the empty string past the end. |
| Text.Split | src/lib/setOptionDefaults.ts:12 | `split` yields at least one piece, and no piece holds the separator. |
| Text.JoinSplit | src/lib/setOptionDefaults.ts:12 | Joining the pieces of a split gives back the string. |
| Text.SplitJoin | src/lib/setOptionDefaults.ts:12 | Splitting joined separator-free pieces gives back the pieces. |
| Text.LeadingSpace | src/lib/setOptionDefaults.ts:13 | `trim` drops exactly the leading white space. |
| Text.Unpadded | src/lib/setOptionDefaults.ts:13 | `trim` drops exactly the trailing white space. |
| Text.TrimShape | src/lib/setOptionDefaults.ts:13 | What `trim` keeps is one contiguous piece of its input. |
| Text.TrimTight | src/lib/setOptionDefaults.ts:13 | What `trim` keeps has no white space at either end. |
| Text.ToLower | src/lib/setOptionDefaults.ts:13 | Lower-casing keeps the length and leaves no upper-case ASCII letter. |
| Text.ToLowerIdempotent | src/lib/setOptionDefaults.ts:13 | Lower-casing twice is lower-casing once, and a string without upper-case letters is unchanged. |
| Paths.Normalize | src/commands/up.ts:28 | Normalised segments are plain names, and they hold no separator when the input segments hold none. |
| Paths.Resolve | src/commands/up.ts:28 | `resolve(cwd, dir)` is absolute. |
| Paths.NormalizePlain | src/commands/up.ts:28 | Normalisation leaves plain segments unchanged. |
| Paths.ResolvePlain | src/commands/up.ts:28 | Resolving a plain relative directory against a normalised working directory appends it after one separator. |
| Paths.StripTrailingSlashesShape | src/commands/up.ts:55 | Stripping keeps a prefix that does not end with a separator, and drops only separators. |
| Paths.AfterLastShape | src/commands/up.ts:55 | The index found follows an occurrence of the character, and no occurrence comes after it. |
| Paths.FinalSegmentPlain | src/commands/up.ts:55 | The final segment of a path holds no separator. |
| Paths.FinalSegmentIsSuffix | src/commands/up.ts:55 | Without a trailing separator, the final segment is what follows the last separator. |
| Paths.SegmentExtShape | src/commands/up.ts:55 | A segment's extension starts at its last dot and holds no other dot. It is empty iff the segment has no dot after its first character, or the segment is "..". |
| Paths.ExtnameSplitsPath | src/commands/up.ts:53-56 | The version and the extension split the path: one is a prefix of the path and the other is the rest. |
| Paths.ExtnameShape | src/commands/up.ts:53-56 | A non-empty extension starts with its only dot and holds no separator. The version before it is not empty and does not end with a separator. |
| Fixtures.MissingRootRejects | src/commands/up.test.ts:11-20 | A missing relative root is resolved against the working directory. The run rejects naming that absolute root, with no statement and no log. |
| Fixtures.NoCaptureGroupRejects | src/commands/up.test.ts:21-25 | A filter without a capture group rejects any tree holding a file, with the capture-group message. |
| Fixtures.TwoCaptureGroupsRejects | src/commands/up.test.ts:26-35 | A filter with two capture groups rejects any tree holding a file below the root. |
| Fixtures.FlatDiscovery | src/commands/up.test.ts:36-43 | Without a filter, a flat tree of `<a>.sql` and `<b>.sql` yields versions `a` and `b`, in order. |
| Fixtures.NestedDiscovery | src/commands/up.test.ts:66-78 | With the filter `^([0-9]{5})/sql/up\.sql`, a nested tree yields one migration per directory, versioned by the directory's name. |
| Fixtures.SqlStem | src/commands/up.ts:53-56 | The version of `<name>.sql` is `<name>`. |
| Fixtures.UpSqlMatches | src/commands/up.test.ts:76 | The nested filter matches `<d>/sql/up.sql` and captures `<d>`. |
| Fixtures.TwoMigrations | src/commands/up.test.ts:44-64 | A committed batch of two migrations issues BEGIN, CREATE, SELECT, then INSERT, SQL and UPDATE for each migration, then COMMIT, with COMMIT as the 10th statement. It logs "Ran migration" for each version in order. |
| Fixtures.TwoMigrationRun | src/commands/up.test.ts:36-65 | A run that discovers two distinct readable migrations on an empty ledger, with a server that rejects nothing, commits both at the BEGIN time with exactly that trace and those logs. |
| Fixtures.VersionOrder | src/commands/up.ts:94 | One example each way: `"00002"` sorts below `"00010"`, as the numbers do, but `"10"` sorts below `"9"`. |
| Fixtures.CaseFoldedRerun | src/commands/up.ts:88-94 | On a column whose collation folds case, versions `"B"` and `"a"` both run and are recorded, the watermark is then `"B"`, and `"a"` is pending again although it is recorded. |

## Left out

- The directory walk of klaw is a parameter: its entries in emission order and its error event. Directory reading, symbolic links and the order klaw chooses are not modelled.
- Regular expressions are not modelled. A filter is a function from a relative path to its optional match array. `match` in discovery and `test` in watch mode are the same function here, which holds because `new RegExp(options.filter)` has no global flag.
- The reads of `Promise.all` run concurrently in the source, so the error reported when several reads fail depends on timing. `Up.ReadAll` reports the first failing migration in discovery order, and its contract promises only some unreadable path.
- `join(dir, m.path)` and `readFile`: `files` is keyed by the root-relative path, and a missing key is a failed read.
- The meaning of a migration's SQL text is not modelled. Running it succeeds unless the server's fault set names its position, and it does not change the ledger.
- The server clock, and `NOW()` as the transaction start time, are the `Server.clock` parameter. Failures of the server itself are the `Server.faults` parameter.
- chalk styling is a colour tag on the printed line. `console.log` is the logger's recorded output, and `process.exit` is its `exit` field, after which further calls do nothing.
- `"code" in options` holds in JavaScript even when `code` is present but `undefined`. The model treats the code as present exactly when it is `Some`.
- Strings: a Dafny `char` is a Unicode scalar value, so surrogate code units cannot occur. JavaScript compares strings by UTF-16 code units, which for characters of the Basic Multilingual Plane is the order of `char`s here; versions with characters outside that plane are not modelled. `toLowerCase` is modelled for ASCII letters only. `JSON.stringify` escapes the quote, the backslash and control characters.
- `upCommand` is modelled only for its exit flag and its watch-event predicate. Connecting to the databases (`dbConnect`), the loop over connections, its catch with exit code 4, the final success log, the `console.log` diagnostics, chokidar's debouncing and the un-awaited runs started from watch events are not modelled.
- `truncateAll`, the CLI wiring and the package entry point are not part of this model.
- Capture groups: a match array holds strings only. A capture group that takes no part in the match (as `(x)?` can leave it) is `undefined` in JavaScript, and `match[1]` then gives a migration whose version is `undefined` (up.ts:44-47); the model cannot represent that case.
- A collation is modelled as a sort key with the code units breaking ties, which is how PostgreSQL's deterministic collations behave. Nondeterministic collations, where different strings compare equal, are not modelled.
- UpProperties.PendingAtOrBelow: holds only when the collation orders the recorded and batch versions as JavaScript does (`Ledger.AgreesWithCode`); `Fixtures.CaseFoldedRerun` shows that it fails otherwise.
- UpProperties.NothingPendingAfterCommit: holds only under the same agreement, for the reason above.
- UpProperties.RerunIsEmpty: holds only under the same agreement; `UpProperties.RerunIsEmptyUnderC` needs none for the "C" collation.
- UpProperties.WatermarkIsLatest: among rows that ended at the same time, the watermark's version is last under the column's collation, which is not JavaScript's order in general.
- Discovery.Discover: its contract is only the link to `Discovered`. The shape of the result is stated separately by `Discovery.DiscoveredShape`.

## Findings

| source | as written | input that shows it | evidently intended | confidence | as-written member | corrected member |
|---|---|---|---|---|---|---|
| src/commands/up.ts:89-94 | The watermark's tie-break `ORDER BY ... version DESC` uses the column's collation, while the filter `m.version > lastRun.version` uses JavaScript's code-unit order. | Versions `"B"` and `"a"` committed in one batch at the same `NOW()` on a column with a case-folding collation such as en_US: the watermark is `"B"`, and `"a" > "B"` in JavaScript, so the next run selects `"a"` again and its INSERT fails as a duplicate. | After a committed batch nothing discovered is pending, as on a "C" collation. | not executed | Fixtures.CaseFoldedRerun | UpProperties.RerunIsEmptyUnderC |
