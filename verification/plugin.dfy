/**
 The plugin instance: the one piece of state it keeps is the command table.
 It starts empty, is replaced wholesale whenever the settings are loaded or
 saved, and is read by the queuing hook for every outgoing line.
 */
module GCodeSystemCommands {
  import opened Wrappers
  import opened CommandTable
  import opened Dispatcher
  import opened PyStrings

  datatype PluginState = PluginState(commandDefinitions: Table)

  /** A freshly constructed plugin, before the settings are read. */
  function Init(): PluginState
  {
    PluginState(map[])
  }

  /**
   `reload_command_definitions`: throw the current table away and build a new
   one from the setting. No entry of the previous table survives unless the
   setting defines its id again.
   */
  function ReloadCommandDefinitions(p: PluginState, settings: seq<Definition>): (p': PluginState)
    ensures p'.commandDefinitions.Keys == Ids(settings)
    ensures forall i :: IsLast(settings, i) ==> p'.commandDefinitions[settings[i].id] == settings[i].command
  {
    PluginState(Reload(settings))
  }

  /** `hook_gcode_queuing` against the table the plugin currently holds. */
  function HookGcodeQueuing(p: PluginState, cmd: string, gcode: Option<string>,
                            system: string -> ExecResult): (r: Outcome)
    ensures r.disposition == PassThrough <==> !Intercepts(cmd, gcode)
    ensures r.shellLine.Some? ==> ParseInvocation(Drop(cmd, 4)).id in p.commandDefinitions
  {
    Classify(cmd, gcode, p.commandDefinitions, system)
  }

  /**
   After a reload, `OCTO<id> <args>` runs the command of the last definition of
   `<id>` with the arguments appended, whatever the table held before.
   */
  lemma ReloadThenRunLastDefinition(p: PluginState, settings: seq<Definition>, i: int, args: string,
                                    gcode: Option<string>, system: string -> ExecResult)
    requires IsLast(settings, i)
    requires ' ' !in settings[i].id
    requires Falsy(gcode)
    ensures var r := HookGcodeQueuing(ReloadCommandDefinitions(p, settings), "OCTO" + settings[i].id + " " + args, gcode, system);
            && r.disposition == Suppress
            && r.shellLine == Some(settings[i].command + " " + args)
  {
    var id := settings[i].id;
    var cmd := "OCTO" + id + " " + args;
    assert cmd[..4] == "OCTO" && cmd[4..] == id + " " + args;
    OctoPrefixIgnoresCase(cmd);
    ParseRoundTrip(id, args);
  }

  /**
   An id the previous table knew but the new setting does not define is
   unknown after the reload: its line is dropped and nothing runs.
   */
  lemma ReloadForgetsStaleId(p: PluginState, settings: seq<Definition>, id: string, args: string,
                             gcode: Option<string>, system: string -> ExecResult)
    requires id in p.commandDefinitions && id !in Ids(settings)
    requires ' ' !in id
    requires Falsy(gcode)
    ensures HookGcodeQueuing(ReloadCommandDefinitions(p, settings), "OCTO" + id + " " + args, gcode, system)
         == Outcome(Suppress, None, [])
  {
    var cmd := "OCTO" + id + " " + args;
    assert cmd[..4] == "OCTO" && cmd[4..] == id + " " + args;
    OctoPrefixIgnoresCase(cmd);
    ParseRoundTrip(id, args);
  }

  /** Before the settings are read every OCTO line is dropped and nothing runs. */
  lemma InitRunsNothing(cmd: string, gcode: Option<string>, system: string -> ExecResult)
    ensures HookGcodeQueuing(Init(), cmd, gcode, system).shellLine == None
    ensures Intercepts(cmd, gcode) ==> HookGcodeQueuing(Init(), cmd, gcode, system) == Outcome(Suppress, None, [])
  {
  }

}
