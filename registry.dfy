/** The command registry (bot/registry.py): a routing table from a command
    string to its `CommandEntry`. */
module Registry {
  import opened Wrappers
  import opened Events

  /** A registered handler, known by name. Its body is the handler's own code. */
  datatype HandlerRef = HandlerRef(name: string)

  /** `CommandEntry`: the frozen record bound to one command. */
  datatype CommandEntry = CommandEntry(
    command: string,
    action: string,
    description: string,
    handler: HandlerRef,
    needsRbac: bool)

  /** One call of a handler made by `dispatch`: `(rbac, message, user_id)` when
      `withRbac`, else `(message, user_id)`. */
  datatype Invocation = Invocation(handler: HandlerRef, withRbac: bool, message: Message, userId: int)

  class CommandRegistry {
    /** `_entries`. */
    var entries: map<string, CommandEntry>

    /** Every entry is filed under its own command. */
    ghost predicate Valid()
      reads this
    {
      forall c :: c in entries ==> entries[c].command == c
    }

    /** The instance starts empty. (The source makes it a process-wide singleton.) */
    constructor ()
      ensures Valid() && entries == map[]
    {
      entries := map[];
    }

    /** `register(command, action=..., description=..., needs_rbac=True)(handler)`:
        bind `command`, replacing any earlier binding (last registration wins)
        and leaving every other command as it was. */
    method Register(command: string, action: string, description: string, handler: HandlerRef, needsRbac: bool := true)
      requires Valid()
      modifies this
      ensures Valid()
      ensures entries == old(entries)[command := CommandEntry(command, action, description, handler, needsRbac)]
      ensures Get(command) == Some(CommandEntry(command, action, description, handler, needsRbac))
      ensures forall c :: c != command ==> Get(c) == old(Get(c))
    {
      entries := entries[command := CommandEntry(command, action, description, handler, needsRbac)];
    }

    /** `get`: the entry for `command`, or `None` when it was never registered. */
    function Get(command: string): (r: Option<CommandEntry>)
      reads this
      ensures r.Some? <==> command in entries
      ensures r.Some? ==> r.value == entries[command]
    {
      if command in entries then Some(entries[command]) else None
    }

    /** `entries()`: a copy of the table. Maps are values, so nothing done to the
        returned map can reach the registry. */
    method Entries() returns (m: map<string, CommandEntry>)
      ensures m == entries
    {
      m := entries;
    }

    /** `dispatch`: an unknown command calls nothing and returns false; a known
        one calls its handler exactly once, passing the RBAC handle exactly when
        the entry says `needs_rbac`, and returns true. */
    method Dispatch(command: string, message: Message, userId: int) returns (found: bool, call: Option<Invocation>)
      ensures found <==> command in entries
      ensures found <==> call.Some?
      ensures found ==> call.value == Invocation(entries[command].handler, entries[command].needsRbac, message, userId)
    {
      var entry := Get(command);
      if entry.None? {
        return false, None;
      }
      if entry.value.needsRbac {
        call := Some(Invocation(entry.value.handler, true, message, userId));
      } else {
        call := Some(Invocation(entry.value.handler, false, message, userId));
      }
      found := true;
    }
  }
}
