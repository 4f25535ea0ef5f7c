/** How src/lib/setOptionDefaults.ts fills in the options the command line gave. */
module OptionDefaults {
  import opened Types
  import opened Text
  import opened LogBuilder

  /** The options as the command-line parser hands them over: any field may be
      missing, and the level list is still one comma-separated string. */
  datatype RawOptions = RawOptions(
    logLevels: Option<string>,
    ssl: Option<bool>,
    exitOnCompletion: Option<bool>,
    watch: Option<bool>,
    filter: Option<string>)

  /** The filled options.  Level names are kept as strings: unknown names are not rejected. */
  datatype Options = Options(
    logLevels: seq<string>,
    ssl: Option<bool>,
    exitOnCompletion: bool,
    watch: Option<bool>,
    filter: Option<string>)

  /** The pieces of a comma-separated list, each lower-cased and then trimmed,
      in order, duplicates kept (setOptionDefaults.ts:11-13): the pieces are
      exactly the text between the commas, and each name has no white space at
      either end and no upper-case letter. */
  function LevelNames(list: string): (names: seq<string>)
    ensures |names| == |Split(list, ',')| >= 1
    ensures Join(Split(list, ','), ',') == list
    ensures forall i :: 0 <= i < |names| ==> names[i] == Trim(ToLower(Split(list, ',')[i]))
    ensures forall i :: 0 <= i < |names| ==> Clean(names[i])
  {
    var pieces := Split(list, ',');
    JoinSplit(list, ',');
    AllCleanedUp(pieces);
    seq(|pieces|, i requires 0 <= i < |pieces| => Trim(ToLower(pieces[i])))
  }

  /** Every piece lower-cased and then trimmed is clean. */
  lemma AllCleanedUp(pieces: seq<string>)
    ensures forall i :: 0 <= i < |pieces| ==> Clean(Trim(ToLower(pieces[i])))
  {
    forall i | 0 <= i < |pieces| ensures Clean(Trim(ToLower(pieces[i]))) {
      CleanedUp(pieces[i]);
    }
  }

  /** A piece lower-cased and then trimmed is clean. */
  lemma CleanedUp(piece: string)
    ensures Clean(Trim(ToLower(piece)))
  {
    var lowered := ToLower(piece);
    var name := Trim(lowered);
    TrimShape(lowered);
    TrimTight(lowered);
    var a := LeadingSpace(lowered);
    forall k | 0 <= k < |name| ensures !('A' <= name[k] <= 'Z') {
      assert name[k] == lowered[a + k];
    }
  }

  /** A level name as LevelNames leaves it. */
  predicate Clean(name: string)
  {
    && (name == [] || (!IsSpace(name[0]) && !IsSpace(name[|name| - 1])))
    && forall k :: 0 <= k < |name| ==> !('A' <= name[k] <= 'Z')
  }

  /** `setOptionDefaults`: exitOnCompletion is always set, every other field is
      kept, and the level list is parsed: a missing or empty string means all four
      levels; otherwise the cleaned-up pieces, except that a `none` among them
      empties the list and an `all` (without `none`) gives all four levels. */
  method SetOptionDefaults(options: RawOptions) returns (filled: Options)
    ensures filled.exitOnCompletion
    ensures filled.ssl == options.ssl && filled.watch == options.watch && filled.filter == options.filter
    ensures options.logLevels.None? || options.logLevels.value == "" ==> filled.logLevels == AllLevels
    ensures options.logLevels.Some? && options.logLevels.value != "" ==>
              var names := LevelNames(options.logLevels.value);
              && ("none" in names ==> filled.logLevels == [])
              && ("none" !in names && "all" in names ==> filled.logLevels == AllLevels)
              && ("none" !in names && "all" !in names ==> filled.logLevels == names)
  {
    // `{ ...options, exitOnCompletion: true }`; the level list is replaced below on every path
    filled := Options([], options.ssl, true, options.watch, options.filter);
    if options.logLevels.None? || options.logLevels.value == "" {
      filled := filled.(logLevels := AllLevels);
    } else {
      filled := filled.(logLevels := LevelNames(options.logLevels.value));
      if "none" in filled.logLevels {
        filled := filled.(logLevels := []);
      }
      if "all" in filled.logLevels {
        filled := filled.(logLevels := AllLevels);
      }
    }
  }
}
