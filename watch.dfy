/** The two rules of `upCommand` (src/commands/up.ts:133-196) that decide how a
    run is wired up: whether the logger may end the process, and which
    file-system events of watch mode start another run. */
module Watch {
  import opened Types
  import opened Text
  import opened LogBuilder
  import opened Discovery
  import opened OptionDefaults

  /** `options.watch ? false : options.exitOnCompletion` (up.ts:139): the flag the
      logger is built with. */
  function ExitFlag(watch: Option<bool>, exitOnCompletion: bool): (flag: bool)
    ensures flag <==> watch != Some(true) && exitOnCompletion
  {
    if watch == Some(true) then false else exitOnCompletion
  }

  /** In watch mode no call of the logger ends the process, whatever code it
      passes and whatever levels are listed. */
  lemma WatchNeverExits(levels: seq<string>, exitOnCompletion: bool, call: LogCall)
    ensures Decide(levels, ExitFlag(Some(true), exitOnCompletion), call).exit.None?
  {
  }

  /** From the command line (options filled by setOptionDefaults) and without
      watch mode, every logger call that carries a code ends the process with it. */
  lemma CommandLineExits(options: Options, levels: seq<string>, call: LogCall)
    requires options.exitOnCompletion && options.watch != Some(true)
    requires call.options.code.Some?
    ensures Decide(levels, ExitFlag(options.watch, options.exitOnCompletion), call).exit == call.options.code
  {
  }

  /** The condition of up.ts:176-180: an `add` or `change` event, and either no
      filter or a filter that matches the path below the root. */
  predicate Triggers(event: string, path: string, root: string, filter: Option<Matcher>)
  {
    && (event == "add" || event == "change")
    && (filter.None? || filter.value(Substring(path, |root| + 1)).Some?)
  }

  /** For a path below the root, an event starts a run exactly when it is an
      `add` or a `change` and the filter, if any, matches the same relative
      path that discovery hands the filter. */
  lemma TriggersBelowRoot(event: string, root: string, rel: string, filter: Option<Matcher>)
    ensures Triggers(event, root + "/" + rel, root, filter) <==>
              (event == "add" || event == "change") && (filter.None? || filter.value(rel).Some?)
  {
    RelativeBelowRoot(root, rel, true);
  }

  /** Every event other than `add` and `change` (`unlink`, `addDir`, `unlinkDir`)
      is ignored. */
  lemma OtherEventsIgnored(event: string, path: string, root: string, filter: Option<Matcher>)
    requires event != "add" && event != "change"
    ensures !Triggers(event, path, root, filter)
  {
  }

  /** A change to a file that discovery turns into a migration under a filter
      starts a run, and that run's discovery finds the migration again. */
  lemma {:induction false} ChangedMigrationTriggers(root: string, entries: seq<Entry>, f: Matcher, i: nat)
    requires i < |entries| && Captures(root, entries[i], f)
    ensures Triggers("change", entries[i].path, root, Some(f))
    ensures Migration(Relative(root, entries[i]), f(Relative(root, entries[i])).value[1]) in Found(root, entries, Some(f))
  {
    FilteredFound(root, entries, f);
  }

  /** A change to a file whose match has the wrong number of captures also
      starts a run, and that run's discovery rejects with the capture-group
      error. */
  lemma {:induction false} MiscapturedFileTriggers(root: string, walk: Walk, f: Matcher, i: nat)
    requires walk.error.None? && i < |walk.entries| && Rejects(root, walk.entries[i], Some(f))
    ensures Triggers("change", walk.entries[i].path, root, Some(f))
    ensures Discovered(root, walk, Some(f)) == Err(CaptureGroups)
  {
  }
}
