/** Vocabulary shared by every part of the migration tool: optional values,
    results, the process exit codes of src/types.ts and the errors that the
    migration engine can raise or log. */
module Types {

  datatype Option<+T> = None | Some(value: T)

  datatype Result<+T, +E> = Ok(value: T) | Err(error: E)

  // The numeric values of the ExitCode enum (src/types.ts), as handed to process.exit.
  const ExitSuccess: nat := 0
  const ConnectionError: nat := 1
  const AuthenticateError: nat := 2
  const QueryError: nat := 3
  const UncaughtException: nat := 4

  /** The message of the capture-group error (src/commands/up.ts:42). */
  const CaptureGroupsMessage := "Filter regex must have exactly one capture group"

  /** Every error that a run of the migration engine can reject with or log. */
  datatype Failure =
    // klaw reported ENOENT: the migration root is missing; carries the resolved root
    | MissingDirectory(dir: string)
    // any other error reported by the directory walk, with its `code` property if it has one
    | WalkFailed(code: Option<string>)
    // the filter matched a file but its match array did not have exactly two entries
    | CaptureGroups
    // reading the SQL text of a pending migration failed
    | ReadFailed(path: string)
    // the server rejected the statement at this 1-based position of the query trace
    | Rejected(position: nat)
    // INSERT of a version that the ledger already holds (primary-key violation)
    | DuplicateVersion(version: string)
    // a statement on the ledger table ran while the table did not exist
    | MissingTable
  {
    /** The message of the JavaScript Error object, where the engine chooses it. */
    function Message(): (m: Option<string>)
      ensures m.Some? <==> (MissingDirectory? || CaptureGroups?)
    {
      match this
      case MissingDirectory(dir) => Some("Migration directory \"" + dir + "\" does not exist")
      case CaptureGroups => Some(CaptureGroupsMessage)
      case _ => None
    }
  }

  /** Concatenation of sequences is associative.  Proof plumbing: the logs of
      `Up.Transact`, the induction of `Discovery.WalkAppend` and the traces of
      `UpProperties.AppliedShape` and `UpProperties.CleanTraceSplits` regroup with it. */
  lemma SeqAssociates<T>(a: seq<T>, b: seq<T>, c: seq<T>)
    ensures (a + b) + c == a + (b + c)
  {
  }

  /** Being a prefix is transitive.  Proof plumbing: `UpProperties.ApplyAllFrame`
      and `UpProperties.RunBegins` chain query-trace prefixes with it. */
  lemma PrefixTransitive<T>(a: seq<T>, b: seq<T>, c: seq<T>)
    requires a <= b && b <= c
    ensures a <= c
  {
    assert b[..|a|] == a;
    assert c[..|b|][..|a|] == c[..|a|];
  }
}
