/** The logger of src/lib/logBuilder.ts: which messages reach the console, how
    they are coloured, and when logging ends the process. */
module LogBuilder {
  import opened Types

  /** The LogLevel enum (logBuilder.ts:5-10). */
  datatype LogLevel = Info | Warning | Error | Success
  {
    /** The enum member's string value, which is what level lists hold. */
    function Name(): string
    {
      match this
      case Info => "info"
      case Warning => "warning"
      case Error => "error"
      case Success => "success"
    }
  }

  /** `Object.values(LogLevel)`: the four names in declaration order. */
  const AllLevels: seq<string> := ["info", "warning", "error", "success"]

  /** The chalk colours of logLevelColors (logBuilder.ts:12-17). */
  datatype Colour = White | Yellow | Red | Green

  function ColourOf(level: LogLevel): Colour
  {
    match level
    case Info => White
    case Warning => Yellow
    case Error => Red
    case Success => Green
  }

  /** What a caller logs: a string, or an error value thrown somewhere. */
  datatype Message = Text(text: string) | Thrown(error: Failure)

  /** LogOptions (logBuilder.ts:19-23); `code` is present exactly when it is `Some`. */
  datatype LogOptions = LogOptions(code: Option<int>, preStyled: bool, logLevel: Option<LogLevel>)

  datatype LogCall = LogCall(message: Message, options: LogOptions)

  /** What `console.log` receives: a string wrapped in a colour, or the message unchanged. */
  datatype Printed = Styled(colour: Colour, text: string) | Unstyled(message: Message)

  /** The effect of one call: what is printed, if anything, and the exit code, if the process exits. */
  datatype Decision = Decision(printed: Option<Printed>, exit: Option<int>)

  /** `options.logLevel || LogLevel.Info` (logBuilder.ts:36). */
  function EffectiveLevel(options: LogOptions): LogLevel
  {
    if options.logLevel.Some? then options.logLevel.value else Info
  }

  /** The body of the logger closure (logBuilder.ts:35-46): a message is printed
      exactly when its level is listed, coloured when it is a string that is not
      pre-styled; the process exits with the given code exactly when it was built
      to exit on completion and the call passes a code, printed or not. */
  function Decide(levels: seq<string>, exitOnCompletion: bool, call: LogCall): (d: Decision)
    ensures d.printed.Some? <==> EffectiveLevel(call.options).Name() in levels
    ensures d.printed.Some? && call.message.Text? && !call.options.preStyled ==>
              d.printed.value == Styled(ColourOf(EffectiveLevel(call.options)), call.message.text)
    ensures d.printed.Some? && (call.message.Thrown? || call.options.preStyled) ==>
              d.printed.value == Unstyled(call.message)
    ensures d.exit.Some? <==> exitOnCompletion && call.options.code.Some?
    ensures d.exit.Some? ==> d.exit == call.options.code
  {
    var level := EffectiveLevel(call.options);
    var printed :=
      if level.Name() !in levels then None
      else if !call.options.preStyled && call.message.Text? then Some(Styled(ColourOf(level), call.message.text))
      else Some(Unstyled(call.message));
    Decision(printed, if exitOnCompletion then call.options.code else None)
  }

  /** What one call prints, as a sequence of zero or one lines. */
  function PrintedBy(levels: seq<string>, call: LogCall): seq<Printed>
  {
    var d := Decide(levels, false, call);
    if d.printed.Some? then [d.printed.value] else []
  }

  /** What a sequence of calls prints, in order. */
  function Printout(levels: seq<string>, calls: seq<LogCall>): seq<Printed>
    decreases |calls|
  {
    if calls == [] then []
    else Printout(levels, calls[..|calls| - 1]) + PrintedBy(levels, calls[|calls| - 1])
  }

  /** The printout of two runs of calls is the two printouts one after the other. */
  lemma {:induction false} PrintoutAppend(levels: seq<string>, a: seq<LogCall>, b: seq<LogCall>)
    ensures Printout(levels, a + b) == Printout(levels, a) + Printout(levels, b)
    decreases |b|
  {
    if b != [] {
      var b' := b[..|b| - 1];
      assert (a + b)[..|a + b| - 1] == a + b';
      PrintoutAppend(levels, a, b');
    } else {
      assert a + b == a;
    }
  }

  /** An explicitly empty level list prints nothing (up.test.ts:40 builds such a logger). */
  lemma {:induction false} EmptyLevelsPrintNothing(calls: seq<LogCall>)
    ensures Printout([], calls) == []
    decreases |calls|
  {
    if calls != [] {
      EmptyLevelsPrintNothing(calls[..|calls| - 1]);
    }
  }

  /** With every level listed, each call prints exactly one line, in order. */
  lemma {:induction false} AllLevelsPrintEverything(calls: seq<LogCall>)
    ensures |Printout(AllLevels, calls)| == |calls|
    decreases |calls|
  {
    if calls != [] {
      AllLevelsPrintEverything(calls[..|calls| - 1]);
      var level := EffectiveLevel(calls[|calls| - 1].options);
      assert level.Name() in AllLevels by {
        match level
        case Info => assert AllLevels[0] == "info";
        case Warning => assert AllLevels[1] == "warning";
        case Error => assert AllLevels[2] == "error";
        case Success => assert AllLevels[3] == "success";
      }
    }
  }

  /** The function returned by `logBuilder`, with the console and the process
      it acts on: `calls` records every call made while the process runs,
      `output` what reached the console, `exit` the code the process exited
      with, once it has. */
  class Logger {
    const levels: seq<string>
    const exitOnCompletion: bool
    var calls: seq<LogCall>
    var output: seq<Printed>
    var exit: Option<int>

    /** What reached the console is what the recorded calls print. */
    ghost predicate Valid()
      reads this
    {
      output == Printout(levels, calls)
    }

    /** `logBuilder(logLevels, exitOnCompletion)`: an omitted level list means all
        four levels (logBuilder.ts:31-33); an empty one is kept as it is. */
    constructor (logLevels: Option<seq<string>>, exitOnCompletion: bool)
      ensures levels == if logLevels.None? then AllLevels else logLevels.value
      ensures this.exitOnCompletion == exitOnCompletion
      ensures calls == [] && output == [] && exit == None
      ensures Valid()
    {
      levels := if logLevels.None? then AllLevels else logLevels.value;
      this.exitOnCompletion := exitOnCompletion;
      calls, output, exit := [], [], None;
    }

    /** One call of the logger: print as Decide says, then exit if it says so.
        Once the process has exited nothing more happens. */
    method Log(message: Message, options: LogOptions)
      requires Valid()
      modifies this
      ensures Valid()
      ensures old(exit).Some? ==> calls == old(calls) && output == old(output) && exit == old(exit)
      ensures old(exit).None? ==>
                && calls == old(calls) + [LogCall(message, options)]
                && output == old(output) + PrintedBy(levels, LogCall(message, options))
                && exit == Decide(levels, exitOnCompletion, LogCall(message, options)).exit
    {
      if exit.None? {
        var call := LogCall(message, options);
        var d := Decide(levels, exitOnCompletion, call);
        calls := calls + [call];
        if d.printed.Some? {
          output := output + [d.printed.value];
        }
        exit := d.exit;
      }
    }
  }
}
