/**
 The queuing hook of the plugin: it sees every line the host is about to send
 to the printer, and takes over the lines of the form `OCTO<id> [args]`. For
 such a line it looks `<id>` up in the command table, runs
 `"<command> <args>"` through the shell, reports the outcome on the host
 console and drops the line. Every other line goes through untouched.

 The shell is not modelled: `os.system` is a parameter that, given the shell
 line, either returns a status value or raises.
 */
module Dispatcher {
  import opened Wrappers
  import opened PyStrings
  import opened CommandTable

  /** The hook's return value: `None` lets the line through, `(None,)` drops it. */
  datatype Disposition = PassThrough | Suppress

  /** What `os.system` does with a shell line: return a status value, or raise. */
  datatype ExecResult = Returned(status: int) | Raised

  /** The id and the argument text of an `OCTO<id> [args]` line. */
  datatype Invocation = Invocation(id: string, args: string)

  /**
   One run of the hook: the value it returns, the shell line it hands to
   `os.system` (if it gets that far), and the lines it writes to the host
   console, in order.
   */
  datatype Outcome = Outcome(disposition: Disposition, shellLine: Option<string>, console: seq<string>)

  /** Console line written before the shell runs; the id follows it. */
  const ExecBanner := "Exec(GCodeSystemCommands): OCTO"

  /** Console line written after the shell returns; the status follows it. */
  const ReturnBanner := "Return(GCodeSystemCommands): "

  /** Python truthiness of the host's `gcode` argument: `None` or the empty string. */
  predicate Falsy(gcode: Option<string>)
  {
    gcode.None? || gcode.value == ""
  }

  /** `cmd[:4].upper() == 'OCTO'`. */
  predicate HasOctoPrefix(cmd: string)
  {
    Upper(Take(cmd, 4)) == "OCTO"
  }

  /** The guard of the hook: the host did not recognise the line as G-code and it starts with OCTO in any case. */
  predicate Intercepts(cmd: string, gcode: Option<string>)
  {
    Falsy(gcode) && HasOctoPrefix(cmd)
  }

  /**
   `cmd[4:].split(' ', 1)`: the id runs up to the first space, the arguments
   are everything after that space, or empty when there is none.
   */
  function ParseInvocation(rest: string): (inv: Invocation)
    ensures ' ' !in inv.id
    ensures ' ' in rest ==> rest == inv.id + " " + inv.args
    ensures ' ' !in rest ==> inv == Invocation(rest, "")
  {
    var pieces := SplitOnce(rest, ' ');
    Invocation(pieces[0], if |pieces| > 1 then pieces[1] else "")
  }

  /** The status word reported for the value `os.system` returned. */
  function Status(r: int): (s: string)
    ensures s == "ok" <==> r == 0
    ensures s == "ok" || s == "error"
  {
    if r == 0 then "ok" else "error"
  }

  /** The body of `hook_gcode_queuing` for one line, against one table. */
  function Classify(cmd: string, gcode: Option<string>, table: Table, system: string -> ExecResult): (r: Outcome)
    ensures r.disposition == PassThrough <==> !Intercepts(cmd, gcode)
    ensures r.disposition == PassThrough ==> r.shellLine == None && r.console == []
    ensures r.shellLine.Some? <==> Intercepts(cmd, gcode) && ParseInvocation(Drop(cmd, 4)).id in table
    ensures r.shellLine.None? <==> r.console == []
  {
    if !Intercepts(cmd, gcode) then Outcome(PassThrough, None, [])
    else
      var inv := ParseInvocation(Drop(cmd, 4));
      if inv.id !in table then Outcome(Suppress, None, [])
      else
        var line := table[inv.id] + " " + inv.args;
        var exec := ExecBanner + inv.id;
        match system(line)
        case Raised => Outcome(Suppress, Some(line), [exec])
        case Returned(status) => Outcome(Suppress, Some(line), [exec, ReturnBanner + Status(status)])
  }

  /** Parsing undoes joining an id and its arguments with one space. */
  lemma ParseRoundTrip(id: string, args: string)
    requires ' ' !in id
    ensures ParseInvocation(id + " " + args) == Invocation(id, args)
  {
    var inv := ParseInvocation(id + " " + args);
    assert (id + " " + args)[|id|] == ' ';
    FirstSeparatorUnique(inv.id, inv.args, id, args, ' ');
  }

  /** The prefix test accepts exactly the four letters O, C, T, O, each in either case. */
  lemma OctoPrefixIgnoresCase(cmd: string)
    ensures HasOctoPrefix(cmd) <==>
            |cmd| >= 4 && cmd[0] in "oO" && cmd[1] in "cC" && cmd[2] in "tT" && cmd[3] in "oO"
  {
  }

  /** Lines that differ only in the case of their OCTO prefix are handled identically. */
  lemma SameOutcomeAcrossPrefixCase(cmd: string, cmd': string, gcode: Option<string>,
                                    table: Table, system: string -> ExecResult)
    requires Upper(Take(cmd, 4)) == Upper(Take(cmd', 4))
    requires Drop(cmd, 4) == Drop(cmd', 4)
    ensures Classify(cmd, gcode, table, system) == Classify(cmd', gcode, table, system)
  {
  }

  /** A line the guard rejects passes through, whatever the table and the shell would do. */
  lemma PassThroughIgnoresTable(cmd: string, gcode: Option<string>, table: Table, table': Table,
                                system: string -> ExecResult, system': string -> ExecResult)
    requires !Intercepts(cmd, gcode)
    ensures Classify(cmd, gcode, table, system) == Outcome(PassThrough, None, [])
    ensures Classify(cmd, gcode, table, system) == Classify(cmd, gcode, table', system')
  {
  }

  /**
   A table key that contains a space is never looked up: the parsed id never
   contains one, so removing such a key changes the outcome of no line.
   */
  lemma SpacedKeyNeverLookedUp(cmd: string, gcode: Option<string>, table: Table, k: string,
                               system: string -> ExecResult)
    requires ' ' in k
    ensures Classify(cmd, gcode, table, system) == Classify(cmd, gcode, table - {k}, system)
  {
  }

  /** An unknown id drops the line without running anything or writing to the console. */
  lemma UnknownIdSuppressed(cmd: string, gcode: Option<string>, table: Table, system: string -> ExecResult)
    requires Intercepts(cmd, gcode)
    requires ParseInvocation(Drop(cmd, 4)).id !in table
    ensures Classify(cmd, gcode, table, system) == Outcome(Suppress, None, [])
  {
  }

  /**
   A known id runs its command followed by one space and the arguments (the
   space is there even when the arguments are empty), and announces
   `Exec(...): OCTO<id>` before anything else; a `Return(...)` line follows
   exactly when the shell returned instead of raising.
   */
  lemma KnownIdRunsCommand(cmd: string, gcode: Option<string>, table: Table, system: string -> ExecResult)
    requires Intercepts(cmd, gcode)
    requires ParseInvocation(Drop(cmd, 4)).id in table
    ensures var inv := ParseInvocation(Drop(cmd, 4));
            var line := table[inv.id] + " " + inv.args;
            var r := Classify(cmd, gcode, table, system);
            && r.disposition == Suppress
            && r.shellLine == Some(line)
            && r.console[0] == ExecBanner + inv.id
            && (|r.console| == 2 <==> system(line).Returned?)
            && (system(line).Raised? ==> |r.console| == 1)
  {
  }

  /** The console reports `ok` exactly when the shell returned 0, and `error` for every other value. */
  lemma ReportsOkIffZero(cmd: string, gcode: Option<string>, table: Table, system: string -> ExecResult)
    requires Intercepts(cmd, gcode)
    requires ParseInvocation(Drop(cmd, 4)).id in table
    requires system(table[ParseInvocation(Drop(cmd, 4)).id] + " " + ParseInvocation(Drop(cmd, 4)).args).Returned?
    ensures var inv := ParseInvocation(Drop(cmd, 4));
            var r := Classify(cmd, gcode, table, system);
            var status := system(table[inv.id] + " " + inv.args).status;
            && |r.console| == 2
            && (r.console[1] == ReturnBanner + "ok" <==> status == 0)
            && (r.console[1] == ReturnBanner + "error" <==> status != 0)
  {
    var inv := ParseInvocation(Drop(cmd, 4));
    var status := system(table[inv.id] + " " + inv.args).status;
    var r := Classify(cmd, gcode, table, system);
    assert r.console[1] == ReturnBanner + Status(status);
    if status != 0 {
      assert (ReturnBanner + "error")[|ReturnBanner|] == 'e';
      assert (ReturnBanner + "ok")[|ReturnBanner|] == 'o';
    }
  }

  /** `OCTO7 foo bar` with no definition for `7`: dropped, nothing runs, nothing is printed. */
  lemma ExampleUndefined(system: string -> ExecResult)
    ensures Classify("OCTO7 foo bar", None, map[], system) == Outcome(Suppress, None, [])
  {
  }

  /**
   `OCTO7 foo bar` with `7` defined as `echo hi`: runs `echo hi foo bar`, and
   the console shows the Exec line, then `ok` for status 0 or `error` for 2.
   */
  lemma ExampleDefined(system: string -> ExecResult, status: int)
    requires status == 0 || status == 2
    requires system("echo hi foo bar") == Returned(status)
    ensures Classify("OCTO7 foo bar", None, map["7" := "echo hi"], system)
         == Outcome(Suppress, Some("echo hi foo bar"),
                    ["Exec(GCodeSystemCommands): OCTO7",
                     if status == 0 then "Return(GCodeSystemCommands): ok" else "Return(GCodeSystemCommands): error"])
  {
    var cmd := "OCTO7 foo bar";
    assert cmd[..4] == "OCTO" && cmd[4..] == "7" + " " + "foo bar";
    OctoPrefixIgnoresCase(cmd);
    ParseRoundTrip("7", "foo bar");
    var table := map["7" := "echo hi"];
    assert ParseInvocation(Drop(cmd, 4)) == Invocation("7", "foo bar");
    ExampleStrings();
  }

  /** The literal joins the scenario above relies on. */
  lemma ExampleStrings()
    ensures "echo hi" + " " + "foo bar" == "echo hi foo bar"
    ensures ExecBanner + "7" == "Exec(GCodeSystemCommands): OCTO7"
    ensures ReturnBanner + "ok" == "Return(GCodeSystemCommands): ok"
    ensures ReturnBanner + "error" == "Return(GCodeSystemCommands): error"
  {
  }

  /** `octo5`, `Octo5` and `OCTO5` are handled alike. */
  lemma ExamplePrefixCase(gcode: Option<string>, table: Table, system: string -> ExecResult)
    ensures Classify("octo5", gcode, table, system) == Classify("OCTO5", gcode, table, system)
    ensures Classify("Octo5", gcode, table, system) == Classify("OCTO5", gcode, table, system)
  {
  }

}
