/** How the `/help` command buttons reach the handlers: through the shared
    `registry` singleton of bot/registry.py. In this snapshot no module
    registers anything into it, so every button press finds nothing; the
    intended wiring registers every command of `COMMAND_PERMISSIONS`. */
module Wiring {
  import opened Wrappers
  import opened Events
  import opened Registry
  import opened Handlers
  import opened Callbacks

  /** The handler function the dispatcher calls for each table command. */
  function HandlerName(command: string): string {
    if command == "/start" then "handle_start"
    else if command == "/help" then "handle_help"
    else if command == "/status" then "handle_status"
    else if command == "/kick" then "handle_kick"
    else "handle_stop"
  }

  /** The entry a table row would register: `handle_stop` alone takes no RBAC handle. */
  function IntendedEntry(info: CommandInfo): CommandEntry {
    CommandEntry(info.command, info.action, info.description, HandlerRef(HandlerName(info.command)),
                 HandlerName(info.command) != "handle_stop")
  }

  /** As written: a `/help` button press dispatched through the shared registry,
      which nothing has registered into, always ends in "Unknown command". */
  method HelpButtonAsWritten(cbId: string, info: CommandInfo, cq: CallbackQuery, userId: int)
    returns (out: seq<Action>, call: Option<Invocation>)
    requires info in CommandPermissions
    requires cq.message.GetOr(EmptyMessage).ChatId().Some?
    ensures call.None?
    ensures out == [AnswerCallback(cbId, Some(RunningCommand(info.command))),
                    Send(cq.message.GetOr(EmptyMessage).ChatId().value, UnknownCommand(info.command), [])]
  {
    var registry := new CommandRegistry();
    out, call := HandleCommandCallback(registry, cbId, info.command, cq, userId);
  }

  /** The intended wiring: register every row of `COMMAND_PERMISSIONS` with its handler. */
  method RegisterCommands(registry: CommandRegistry)
    requires registry.Valid()
    modifies registry
    ensures registry.Valid()
    ensures forall info :: info in CommandPermissions ==> registry.Get(info.command) == Some(IntendedEntry(info))
  {
    CommandPermissionsDistinct();
    var i := 0;
    while i < |CommandPermissions|
      invariant 0 <= i <= |CommandPermissions|
      invariant registry.Valid()
      invariant forall j :: 0 <= j < i ==> registry.Get(CommandPermissions[j].command) == Some(IntendedEntry(CommandPermissions[j]))
    {
      var info := CommandPermissions[i];
      var entry := IntendedEntry(info);
      registry.Register(info.command, info.action, info.description, entry.handler, entry.needsRbac);
      i := i + 1;
    }
  }

  /** Corrected: with the commands registered, a `/help` button press is
      acknowledged and runs the command's own handler, passing the RBAC handle
      exactly when that handler takes one. */
  method HelpButtonCorrected(cbId: string, info: CommandInfo, cq: CallbackQuery, userId: int)
    returns (out: seq<Action>, call: Option<Invocation>)
    requires info in CommandPermissions
    requires cq.message.GetOr(EmptyMessage).ChatId().Some?
    ensures call == Some(Invocation(HandlerRef(HandlerName(info.command)), info.command !in {"/stop", "/exit"},
                                    BuildSyntheticMessage(cq, info.command), userId))
    ensures out == [AnswerCallback(cbId, Some(RunningCommand(info.command)))]
  {
    var registry := new CommandRegistry();
    RegisterCommands(registry);
    out, call := HandleCommandCallback(registry, cbId, info.command, cq, userId);
  }
}
