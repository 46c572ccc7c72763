# GCode System Commands — a Dafny model of the dispatcher

This project models the command dispatcher of the OctoPrint plugin
"GCode System Commands". The plugin lets an administrator bind shell commands
to pseudo G-code lines of the form `OCTO<id> [args]`. The model covers its two
deterministic parts:

- **Table rebuild** (`reload_command_definitions`): the `command_definitions`
  setting, an ordered list of `{id, command}` records, becomes a fresh map from
  id to shell command. The previous map is discarded. When an id repeats, the
  last record wins.
- **Line classification** (`hook_gcode_queuing`): a line is intercepted when the
  host did not recognise it as G-code and its first four characters, upper-cased,
  are `OCTO`. The rest of the line is split at its first space into an id and an
  argument string, and the id is looked up. For a known id the hook first writes
  `Exec(GCodeSystemCommands): OCTO<id>` to the host console, then runs
  `"<command> <args>"` through the shell. Only if the shell returns (rather than
  raises) does it write `Return(GCodeSystemCommands): ok` or `... error`,
  depending on whether the value is 0. Every intercepted line is dropped
  (the hook returns `(None,)`). Every other line passes through (the hook returns
  `None`).

Files and modules:

- `wrappers.dfy` — `Wrappers`: `Option`, used for Python's `None`.
- `pystrings.dfy` — `PyStrings`: the Python string operations the hook uses,
  with Python's semantics. These are the clamping slices `s[:n]` and `s[n:]`,
  `str.upper()`, and `str.split(' ', 1)`.
- `command_table.dfy` — `CommandTable`: the `Definition` record, the reload loop
  (`Fold`), the rebuilt table (`Reload`) and the last-wins lemmas.
- `dispatcher.dfy` — `Dispatcher`: the hook as a pure function `Classify` of the
  line, the host's `gcode` argument, the table and a shell oracle. It returns an
  `Outcome` holding three things: the disposition (pass-through or suppress), the
  shell line handed to `os.system`, and the console lines in order.
- `plugin.dfy` — `GCodeSystemCommands`: the plugin instance state (the table), and
  lemmas that chain a reload with a later dispatch.

The shell is a parameter `system: string -> ExecResult`. Given the exact shell
line, it either returns a status value or raises.

Details of the code that the model keeps:

- An unknown id writes nothing to the host console; `__init__.py:47-49` only
  logs the error.
- The split is on `' '` only (`__init__.py:39`), so a tab stays inside the id.
- There is no pattern restricting the id to digits, and no environment variables
  are passed to the child process.
- A parsed id never contains a space. A table key that contains one is therefore
  never looked up, and its definition is dead. A line such as `OCTOa b x` looks
  up the id `a`, with `b x` as the arguments.

## Model

| member | source | states |
|---|---|---|
| PyStrings.Take | octoprint_gcodesystemcommands/__init__.py:38 | `cmd[:4]` is a prefix of `cmd` of length at most 4, and exactly 4 when the line is that long. |
| PyStrings.Drop | octoprint_gcodesystemcommands/__init__.py:39 | `cmd[4:]` is what remains after `cmd[:4]`: the two slices rejoin to `cmd`. |
| PyStrings.Upper | octoprint_gcodesystemcommands/__init__.py:38 | Upper-casing keeps the length and maps every character independently. |
| PyStrings.SplitOnce | octoprint_gcodesystemcommands/__init__.py:39 | `split(' ', 1)` gives one piece, the whole string, exactly when there is no space. Otherwise it gives two pieces: a space-free head, then the rest, which rejoin around one space to the input. |
| PyStrings.FirstSeparatorUnique | octoprint_gcodesystemcommands/__init__.py:39-43 | A split at a space-free prefix is unique, so the id and the arguments are determined by the line. |
| CommandTable.Fold | octoprint_gcodesystemcommands/__init__.py:31-34 | The loop itself: the records in order, each doing `table[id] = command` on the table built so far. Its properties are the Fold lemmas below. |
| CommandTable.FoldKeys | octoprint_gcodesystemcommands/__init__.py:31-34 | The loop adds exactly the ids of the list to the keys the table already had. This is why the table is reset first at line 26. |
| CommandTable.FoldKeepsUntouched | octoprint_gcodesystemcommands/__init__.py:31-34 | The loop leaves unchanged every entry whose id the list does not mention. |
| CommandTable.FoldLastWins | octoprint_gcodesystemcommands/__init__.py:31-34 | For each id, the value left in the table is the command of the last record with that id. |
| CommandTable.LastExists | octoprint_gcodesystemcommands/__init__.py:31-34 | Every id in the list has a last occurrence, so last-wins decides every entry. |
| CommandTable.Reload | octoprint_gcodesystemcommands/__init__.py:25-35 | The rebuilt table holds exactly the ids of the list, each mapped to the command of its last occurrence. |
| CommandTable.ReloadEntry | octoprint_gcodesystemcommands/__init__.py:25-35 | `k -> v` is in the rebuilt table if and only if some record `{k, v}` is not followed by another record with id `k`. |
| CommandTable.ReloadDistinct | octoprint_gcodesystemcommands/__init__.py:31-34 | With no repeated ids, the table has one entry per record and each record's id maps to its own command. |
| Dispatcher.Falsy | octoprint_gcodesystemcommands/__init__.py:38 | `not gcode` holds for the host's `gcode` argument when it is `None` or the empty string. |
| Dispatcher.HasOctoPrefix | octoprint_gcodesystemcommands/__init__.py:38 | `cmd[:4].upper() == 'OCTO'`. OctoPrefixIgnoresCase describes it letter by letter. |
| Dispatcher.Intercepts | octoprint_gcodesystemcommands/__init__.py:38 | The guard of the hook: `not gcode` and the OCTO prefix test, both required. |
| Dispatcher.ParseInvocation | octoprint_gcodesystemcommands/__init__.py:39-43 | The id has no space. When the text has a space, id ++ " " ++ args is the text. Otherwise the id is the whole text and the args are empty. |
| Dispatcher.ParseRoundTrip | octoprint_gcodesystemcommands/__init__.py:39-43 | Parsing `id + " " + args` gives back `id` and `args` for every space-free id. |
| Dispatcher.Status | octoprint_gcodesystemcommands/__init__.py:65-68 | The status is `ok` if and only if `os.system` returned 0. Otherwise it is `error`. |
| Dispatcher.Classify | octoprint_gcodesystemcommands/__init__.py:37-72 | A line passes through if and only if the guard rejects it, and then nothing runs and nothing is printed. A shell line is produced if and only if the line is intercepted and its id is in the table. The console stays empty exactly when no shell line is run. |
| Dispatcher.OctoPrefixIgnoresCase | octoprint_gcodesystemcommands/__init__.py:38 | The prefix test holds if and only if the line has at least four characters and they are O, C, T, O, each in either case. |
| Dispatcher.SameOutcomeAcrossPrefixCase | octoprint_gcodesystemcommands/__init__.py:38-39 | Two lines whose prefixes differ only in case, and which share the rest, get identical outcomes. |
| Dispatcher.PassThroughIgnoresTable | octoprint_gcodesystemcommands/__init__.py:37-38 | A rejected line passes through unchanged. The outcome does not depend on the table or on the shell. |
| Dispatcher.SpacedKeyNeverLookedUp | octoprint_gcodesystemcommands/__init__.py:39-46 | Removing a table key that contains a space changes the outcome of no line, because the parsed id never contains a space. |
| Dispatcher.UnknownIdSuppressed | octoprint_gcodesystemcommands/__init__.py:45-49 | An intercepted line whose id is not in the table is dropped. No shell line is run and the console gets nothing. |
| Dispatcher.KnownIdRunsCommand | octoprint_gcodesystemcommands/__init__.py:46-61 | A known id runs exactly `command + " " + args`, with the space even when args are empty. The first console line is `Exec(...): OCTO<id>`. A second line follows exactly when the shell returned rather than raised, and the line is dropped either way. |
| Dispatcher.ReportsOkIffZero | octoprint_gcodesystemcommands/__init__.py:63-70 | After the shell returns, the second console line is `Return(...): ok` if and only if the value is 0, and `Return(...): error` if and only if it is not. |
| Dispatcher.ExampleUndefined | octoprint_gcodesystemcommands/__init__.py:37-49 | `OCTO7 foo bar` with an empty table is dropped. Nothing runs and nothing is printed. |
| Dispatcher.ExampleDefined | octoprint_gcodesystemcommands/__init__.py:37-72 | `OCTO7 foo bar` with `7 -> echo hi` runs `echo hi foo bar` and prints the Exec line. It then prints `ok` for status 0 or `error` for status 2. |
| Dispatcher.ExamplePrefixCase | octoprint_gcodesystemcommands/__init__.py:38 | `octo5`, `Octo5` and `OCTO5` get the same outcome. |
| GCodeSystemCommands.Init | octoprint_gcodesystemcommands/__init__.py:18-19 | A newly constructed plugin holds an empty command table. |
| GCodeSystemCommands.HookGcodeQueuing | octoprint_gcodesystemcommands/__init__.py:37-72 | The hook against the table the instance holds. The disposition depends only on the guard, and a shell line is run only for an id in the current table. |
| GCodeSystemCommands.ReloadCommandDefinitions | octoprint_gcodesystemcommands/__init__.py:25-35 | After a reload the plugin's table has exactly the ids of the setting, whatever it held before, and last-wins values. |
| GCodeSystemCommands.ReloadThenRunLastDefinition | octoprint_gcodesystemcommands/__init__.py:25-57 | For every space-free id: after a reload, `OCTO<id> <args>` is dropped and runs the command of the last definition of `<id>`, followed by a space and the arguments. (An id with a space cannot be reached; see SpacedKeyNeverLookedUp.) |
| GCodeSystemCommands.ReloadForgetsStaleId | octoprint_gcodesystemcommands/__init__.py:25-49 | For every space-free id known before the reload but absent from the new setting: the id is unknown after the reload, and its line is dropped with nothing run and nothing printed. An id with a space parses as its first word, which may be defined. |
| GCodeSystemCommands.InitRunsNothing | octoprint_gcodesystemcommands/__init__.py:18-49 | With the empty table of a freshly constructed plugin, no line runs a shell command. Every intercepted line is dropped silently. |

## Left out

- `os.system` is not modelled (`__init__.py:56-61`). It is the oracle parameter
  `system`, which either returns a value or raises. The model does not describe
  the shell process, its output, blocking or the absence of a timeout. The value
  is the raw return of `os.system`, so on POSIX systems it is a wait status, not
  the exit code.
- The `self._logger` calls are diagnostic side effects and are not modelled. Only
  the two host-console lines written through `comm_instance._log` are modelled.
- The hook arguments `comm_instance`, `phase`, `cmd_type`, `*args` and `**kwargs`
  are not modelled: the hook never inspects them.
- Settings defaults, templates, assets, update metadata and plugin loading
  (`__init__.py:74-120`) are not modelled because they are host-framework glue
  with no logic. `on_settings_initialized` and `on_settings_save`
  (`__init__.py:22-23`, `79-81`) are not modelled either. The first only triggers
  a reload. The second persists the settings through the host (`:80`) and then
  triggers a reload. The reload is `GCodeSystemCommands.ReloadCommandDefinitions`.
- The settings-editor view model (`static/js/gcodesystemcommands.js`) is not
  modelled because it is user-interface binding.
- A record without `id` or `command` is not modelled. In the code it raises
  `KeyError` during the reload (`__init__.py:32-33`). Here the `Definition` type
  always has both fields, so such a record cannot be written.
- Ids are always strings in the model. A non-string id is not modelled, such as
  the numeric `0` that the settings editor gives a newly added row. In the code
  such an id never equals the string cut from a line.
- Concurrency is out of scope, so the race between a reload from a settings-save
  and a lookup on the line-processing path is not modelled.
- PyStrings.Upper: models upper-casing of ASCII letters only. Python's
  `str.upper()` also maps non-ASCII characters, and that mapping is not modelled.
