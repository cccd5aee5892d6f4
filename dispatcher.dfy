/** `process_update` and the polling loop `run` of bot/dispatcher.py. */
module Dispatcher {
  import opened Wrappers
  import opened PyText
  import opened Events
  import opened Identity
  import opened Rbac
  import opened Registry
  import opened Handlers
  import opened Callbacks
  import opened Polling

  /** The handlers `process_update` can call for a typed command. */
  datatype Command = Start | Help | Status | Stop | Kick

  /** The prefix chain of `process_update`: `/start`, `/help`, `/status`,
      `/stop` or `/exit`, `/kick`, in that order. */
  function CommandOf(text: string): (c: Option<Command>)
    ensures c.Some? ==> "/" <= text
  {
    if "/start" <= text then Some(Start)
    else if "/help" <= text then Some(Help)
    else if "/status" <= text then Some(Status)
    else if "/stop" <= text || "/exit" <= text then Some(Stop)
    else if "/kick" <= text then Some(Kick)
    else None
  }

  /** The handler named in `COMMAND_PERMISSIONS` for each `/help` command. */
  function TableHandler(command: string): Option<Command> {
    if command == "/start" then Some(Start)
    else if command == "/help" then Some(Help)
    else if command == "/status" then Some(Status)
    else if command == "/stop" || command == "/exit" then Some(Stop)
    else if command == "/kick" then Some(Kick)
    else None
  }

  /** What `process_update` does with an update. */
  datatype Route =
    | ToCallback(cq: CallbackQuery)
    | Skipped
    | Unmatched(userId: int)
    | RunCommand(command: Command, message: Message, userId: int)

  /** The message `process_update` reads: the first truthy of all four message
      fields, `edited_channel_post` included. */
  function DispatchMessage(u: Update): Option<Message> {
    OrMessage(OrMessage(OrMessage(u.message, u.editedMessage), u.channelPost), u.editedChannelPost)
  }

  /** `process_update` as a decision: a truthy `callback_query` wins; then an
      update without a message, or whose identity does not resolve, is skipped;
      then the text (default `""`) picks the command. */
  function RouteUpdate(u: Update): Route {
    if u.callbackQuery.Some? && u.callbackQuery.value.Truthy() then ToCallback(u.callbackQuery.value)
    else
      var message := DispatchMessage(u);
      if message.None? || !message.value.Truthy() then Skipped
      else
        match GetIdentity(u)
        case None => Skipped
        case Some(userId) =>
          match CommandOf(message.value.Text())
          case None => Unmatched(userId)
          case Some(c) => RunCommand(c, message.value, userId)
  }

  /** Every command `/help` can offer is routed, when typed, to the handler the
      table describes. */
  lemma HelpCommandsAreRouted(info: CommandInfo)
    requires info in CommandPermissions
    ensures TableHandler(info.command).Some?
    ensures CommandOf(info.command) == TableHandler(info.command)
  {
    var c := info.command;
    assert c in ["/start", "/help", "/status", "/kick", "/stop", "/exit"];
    if c == "/kick" {
      assert !("/stop" <= c) && !("/exit" <= c) by { assert c[1] == 'k'; }
    } else if c == "/stop" {
      assert !("/status" <= c) by { assert c[3] == 'o'; }
    } else if c == "/exit" {
      assert !("/start" <= c) && !("/status" <= c) && !("/stop" <= c) by { assert c[1] == 'e'; }
    } else if c == "/status" {
      assert !("/start" <= c) by { assert c[3] == 'a' && c[4] == 't'; }
    }
  }

  /** A callback query is handled whatever message fields the update also carries. */
  lemma CallbackWins(u: Update, m: Option<Message>)
    requires u.callbackQuery.Some? && u.callbackQuery.value.Truthy()
    ensures RouteUpdate(u.(message := m)) == ToCallback(u.callbackQuery.value)
  {
  }

  /** An update whose only payload is `edited_channel_post` is always skipped:
      the dispatcher reads that field but `get_identity` does not. */
  lemma EditedChannelPostOnlySkipped(u: Update)
    requires u.callbackQuery.None? && u.message.None? && u.editedMessage.None? && u.channelPost.None?
    ensures RouteUpdate(u) == Skipped
  {
    NoPayloadNoIdentity(u);
  }

  /** A routed command acts on the very message `get_identity` resolved the
      sender from, and on that sender. */
  lemma {:induction false} RoutedMessageIsIdentityMessage(u: Update)
    requires RouteUpdate(u).RunCommand?
    ensures FirstTruthy(Candidates(u)) == Some(RouteUpdate(u).message)
    ensures GetIdentity(u) == Some(RouteUpdate(u).userId)
  {
    var cs := Candidates(u);
    assert cs[1..] == [u.editedMessage, u.channelPost] && cs[1..][1..] == [u.channelPost];
    assert cs[1..][1..][1..] == [];
    if FirstTruthy(cs).None? {
      NoPayloadNoIdentity(u);
    }
  }

  /** `process_update`. A handler that would fail on a missing `chat.id` (the
      `message["chat"]["id"]` lookup every command handler begins with) is
      modelled as doing nothing. */
  method ProcessUpdate(rbac: RbacEngine, registry: CommandRegistry, u: Update, reply: KickReply)
    returns (out: seq<Action>, call: Option<Invocation>)
    modifies rbac
    ensures var route := RouteUpdate(u);
      route.ToCallback? ==>
        var permitted := old(PresserMayManage(rbac, route.cq));
        var entry := registry.Get(route.cq.data.GetOr(""));
        var v := CallbackVerdict(route.cq, permitted);
        && out == CallbackActions(route.cq, permitted, entry)
        && call == CallbackCall(route.cq, entry)
        && rbac.users == CallbackUsers(old(rbac.users), v)
        && rbac.persisted == old(rbac.persisted) + (if CallbackSaves(v) then [rbac.users] else [])
    ensures var route := RouteUpdate(u);
      !route.ToCallback? ==> call.None?
    ensures var route := RouteUpdate(u);
      (route.Skipped? || route.Unmatched? || (route.RunCommand? && route.message.ChatId().None?)) ==>
        out == [] && rbac.users == old(rbac.users) && rbac.persisted == old(rbac.persisted)
    ensures var route := RouteUpdate(u);
      route.RunCommand? && route.message.ChatId().Some? && route.command != Start ==>
        rbac.users == old(rbac.users) && rbac.persisted == old(rbac.persisted)
    ensures var route := RouteUpdate(u);
      route.RunCommand? && route.message.ChatId().Some? ==>
        var chat := route.message.ChatId().value;
        var userId := route.userId;
        var name := DisplayName(route.message, userId);
        match route.command
        case Start =>
          if Key(userId) in old(rbac.users) then
            && out == [Send(chat, WelcomeBack(name, old(rbac.GetRoleName(userId))), [])]
            && rbac.users == old(rbac.users) && rbac.persisted == old(rbac.persisted)
          else
            && rbac.users == old(rbac.users)[Key(userId) := SetLevelEntry(None, userId, 0, Some(name), AsKeywords(ExtractedMetadata(route.message)))]
            && rbac.persisted == old(rbac.persisted) + [rbac.users]
            && |out| >= 1 && out[0] == Send(chat, WelcomePending(name), [])
            && AlertsReachSuperAdmins(out[1..], rbac.users, name, userId)
        case Help => out == HelpReply(rbac, chat, userId)
        case Status => out == StatusReply(rbac, chat, userId)
        case Stop => out == StopReply(chat)
        case Kick => out == KickOutcome(rbac.HasPermission(userId, "kick_user"), route.message.Text(), chat, reply)
  {
    call := None;
    var route := RouteUpdate(u);
    match route {
      case ToCallback(cq) =>
        out, call := HandleCallbackQuery(rbac, registry, cq);
      case Skipped =>
        out := [];
      case Unmatched(_) =>
        out := [];
      case RunCommand(command, message, userId) =>
        if message.ChatId().None? {
          out := [];
          return;
        }
        match command {
          case Start =>
            out := HandleStart(rbac, message, userId);
          case Help =>
            out := HandleHelp(rbac, message, userId);
          case Status =>
            out := HandleStatus(rbac, message, userId);
          case Stop =>
            out := HandleStop(message, userId);
          case Kick =>
            out := HandleKick(rbac, message, userId, reply);
        }
    }
  }

  /** `run`, over a finite run of `getUpdates` answers: every update of an ok
      answer is processed in order, and the offset ends where the polling
      specification says. */
  method Run(rbac: RbacEngine, registry: CommandRegistry, polls: seq<PollResult>, reply: KickReply)
    returns (offset: Option<int>, out: seq<Action>)
    modifies rbac
    ensures offset == OffsetAfterPolls(None, polls)
  {
    offset := None;
    out := [];
    var i := 0;
    while i < |polls|
      invariant 0 <= i <= |polls|
      invariant offset == OffsetAfterPolls(None, polls[..i])
    {
      var poll := polls[i];
      assert polls[..i + 1][..i] == polls[..i];
      if poll.ok {
        var acts;
        offset, acts := ProcessBatch(rbac, registry, poll.result, offset, reply);
        out := out + acts;
      }
      i := i + 1;
    }
    assert polls[..i] == polls;
  }

  /** The `for` loop of `run`: each update of one ok answer is processed in
      order, and the offset moves past each. */
  method ProcessBatch(rbac: RbacEngine, registry: CommandRegistry, updates: seq<Update>, start: Option<int>, reply: KickReply)
    returns (offset: Option<int>, out: seq<Action>)
    modifies rbac
    ensures offset == OffsetAfterUpdates(start, updates)
  {
    offset := start;
    out := [];
    var j := 0;
    while j < |updates|
      invariant 0 <= j <= |updates|
      invariant offset == OffsetAfterUpdates(start, updates[..j])
    {
      var update := updates[j];
      var acts := ProcessOne(rbac, registry, update, reply);
      out := out + acts;
      offset := Some(update.updateId + 1);
      j := j + 1;
    }
    assert updates[..j] == updates;
  }

  /** One pass of the `for` body: `process_update` on one update, keeping only
      its outbound calls. */
  method ProcessOne(rbac: RbacEngine, registry: CommandRegistry, update: Update, reply: KickReply)
    returns (acts: seq<Action>)
    modifies rbac
  {
    var call;
    acts, call := ProcessUpdate(rbac, registry, update, reply);
  }

  // ---------------------------------------------------------------------
  // The dispatcher as written
  // ---------------------------------------------------------------------

  /** `process_update` as written: every handler it calls (`handle_start`,
      `handle_help`, `handle_status`, `handle_stop`, `handle_kick`,
      `handle_callback_query`) is a coroutine function, and `process_update`
      calls it without `await`. Each call only creates a coroutine that is never
      run, so whatever the route, no outbound call is made and the registry is
      untouched (the method may not modify it). */
  method ProcessUpdateAsWritten(rbac: RbacEngine, u: Update) returns (route: Route, out: seq<Action>)
    ensures route == RouteUpdate(u)
    ensures out == []
  {
    route := RouteUpdate(u);
    out := [];
  }

  /** User 7 typing `/status` in chat 7. */
  const StatusSample := Update(1, Some(Message(None, Some(EmptyPeer.(id := Some(7))), Some(EmptyPeer.(id := Some(7))), None, Some("/status"), false)), None, None, None, None)

  /** An update the two versions of `process_update` tell apart: typed `/status`
      is routed to `handle_status`, whose one report the corrected
      `ProcessUpdate` sends and `ProcessUpdateAsWritten` does not. */
  lemma StatusSampleIsAnswered(rbac: RbacEngine)
    ensures RouteUpdate(StatusSample).RunCommand?
    ensures RouteUpdate(StatusSample).command == Status
    ensures RouteUpdate(StatusSample).message.ChatId() == Some(7)
    ensures |StatusReply(rbac, 7, 7)| == 1
  {
    var m := StatusSample.message.value;
    assert m.Truthy();
    assert FirstTruthy(Candidates(StatusSample)) == Some(m);
    var t := "/status";
    assert !("/start" <= t) by { assert t[4] == 't' && "/start"[4] == 'r'; }
    assert !("/help" <= t) by { assert t[1] == 's' && "/help"[1] == 'h'; }
    assert m.Text() == t;
    assert CommandOf(t) == Some(Status);
  }

  /** `run` as written: `get_updates` is a coroutine function too, and `run`
      calls it without `await`, so `data` is a coroutine object and
      `data.get("ok")` raises `AttributeError` on the first poll. `run` ends
      there: no update is processed and the offset never moves. */
  method RunAsWritten(polls: seq<PollResult>) returns (offset: Option<int>, out: seq<Action>, raised: bool)
    ensures raised <==> |polls| > 0
    ensures offset == None && out == []
  {
    offset := None;
    out := [];
    raised := |polls| > 0;
  }

  /** One ok answer delivering one update moves the corrected `Run`'s offset
      past it, where `RunAsWritten` leaves it at `None`. */
  lemma OnePollMovesOffset(u: Update)
    ensures OffsetAfterPolls(None, [PollResult(true, [u])]) == Some(u.updateId + 1)
  {
    assert [PollResult(true, [u])][..0] == [];
  }
}
