/** Inline-button presses (bot/callbacks.py): the approval buttons of a
    registration alert, and the command buttons of the `/help` menu. */
module Callbacks {
  import opened Wrappers
  import opened PyText
  import opened Events
  import opened Rbac
  import opened Registry
  import opened Handlers

  /** The levels the approval buttons grant. */
  const MemberLevel := 10
  const ModeratorLevel := 50

  /** `_build_synthetic_message`: the minimal message a command handler needs,
      as if the presser had typed `text` in the chat of the pressed message. */
  function BuildSyntheticMessage(cq: CallbackQuery, text: string): (m: Message)
    ensures m.chat == Some(cq.message.GetOr(EmptyMessage).chat.GetOr(EmptyPeer))
    ensures m.ChatId() == cq.message.GetOr(EmptyMessage).ChatId()
    ensures m.from == Some(cq.from.GetOr(EmptyPeer))
    ensures m.messageId == Some(cq.message.GetOr(EmptyMessage).messageId.GetOr(0))
    ensures m.Text() == text
  {
    var cbMessage := cq.message.GetOr(EmptyMessage);
    Message(Some(cbMessage.messageId.GetOr(0)), Some(cbMessage.chat.GetOr(EmptyPeer)), Some(cq.from.GetOr(EmptyPeer)), None, Some(text), false)
  }

  /** Where `handle_callback_query` sends a press with complete identity. */
  datatype CallbackRoute = ToApproval | ToCommand | Unrouted

  /** The approval flow takes data holding a `:` whose text before the first `:`
      is one of the three approval verbs; otherwise data starting with `/` is a
      command; anything else is only acknowledged. */
  function RouteCallback(data: string): (route: CallbackRoute)
    ensures route == ToApproval <==> ':' in data && Partition(data, ':').0 in ["approve_member", "promote_mod", "reject"]
    ensures route == ToCommand <==> route != ToApproval && "/" <= data
  {
    SplitHeadIsPartitionHead(data, ':');
    if ':' in data && SplitOn(data, ':')[0] in ["approve_member", "promote_mod", "reject"] then ToApproval
    else if "/" <= data then ToCommand
    else Unrouted
  }

  /** The outcome of `_handle_approval_callback`: the target must parse as an
      integer before the permission is even consulted. */
  datatype Verdict = InvalidTarget | NotPermitted | Approve(target: int) | Promote(target: int) | Reject(target: int) | Ignored

  function ApprovalVerdict(data: string, permitted: bool): Verdict {
    var (action, _, targetText) := Partition(data, ':');
    match ParseInt(targetText)
    case None => InvalidTarget
    case Some(target) =>
      if !permitted then NotPermitted
      else if action == "approve_member" then Approve(target)
      else if action == "promote_mod" then Promote(target)
      else if action == "reject" then Reject(target)
      else Ignored
  }

  /** The level a verdict gives its target, if it changes one. */
  function VerdictLevel(v: Verdict): Option<(int, int)> {
    match v
    case Approve(t) => Some((t, MemberLevel))
    case Promote(t) => Some((t, ModeratorLevel))
    case _ => None
  }

  /** The calls a verdict makes: an acknowledgement, then (for the three verbs)
      one report to the approver's chat and one notice to the target. */
  function VerdictActions(v: Verdict, cbId: string, adminChatId: int): seq<Action> {
    match v
    case InvalidTarget => [AnswerCallback(cbId, Some(InvalidUserData))]
    case NotPermitted => [AnswerCallback(cbId, Some(ManageUsersDenied))]
    case Approve(t) => [AnswerCallback(cbId, Some(ApprovedAck(t))), Send(adminChatId, ApprovedReport(t), []), Send(t, ApprovedWelcome, [])]
    case Promote(t) => [AnswerCallback(cbId, Some(PromotedAck(t))), Send(adminChatId, PromotedReport(t), []), Send(t, PromotedWelcome, [])]
    case Reject(t) => [AnswerCallback(cbId, Some(RejectedAck(t))), Send(adminChatId, RejectedReport(t), []), Send(t, RejectedNotice, [])]
    case Ignored => []
  }

  /** The registry after a verdict: a level change through `set_user_level`, or nothing. */
  function VerdictRegistry(users: Rbac.Registry, v: Verdict): Rbac.Registry {
    match VerdictLevel(v)
    case None => users
    case Some((t, level)) => users[Key(t) := SetLevelEntry(Lookup(users, Key(t)), t, level, None, map[])]
  }

  /** `_handle_approval_callback`. */
  method HandleApprovalCallback(rbac: RbacEngine, cbId: string, data: string, adminId: int, adminChatId: int) returns (out: seq<Action>)
    modifies rbac
    ensures var v := ApprovalVerdict(data, old(rbac.HasPermission(adminId, "manage_users")));
      && out == VerdictActions(v, cbId, adminChatId)
      && rbac.users == VerdictRegistry(old(rbac.users), v)
      && rbac.persisted == old(rbac.persisted) + (if VerdictLevel(v).Some? then [rbac.users] else [])
  {
    var (action, _, targetText) := Partition(data, ':');
    var target := ParseInt(targetText);
    if target.None? {
      out := [AnswerCallback(cbId, Some(InvalidUserData))];
      return;
    }
    var t := target.value;
    if !rbac.HasPermission(adminId, "manage_users") {
      out := [AnswerCallback(cbId, Some(ManageUsersDenied))];
      return;
    }
    if action == "approve_member" {
      rbac.SetUserLevel(t, MemberLevel);
      out := [AnswerCallback(cbId, Some(ApprovedAck(t))), Send(adminChatId, ApprovedReport(t), []), Send(t, ApprovedWelcome, [])];
    } else if action == "promote_mod" {
      rbac.SetUserLevel(t, ModeratorLevel);
      out := [AnswerCallback(cbId, Some(PromotedAck(t))), Send(adminChatId, PromotedReport(t), []), Send(t, PromotedWelcome, [])];
    } else if action == "reject" {
      out := [AnswerCallback(cbId, Some(RejectedAck(t))), Send(adminChatId, RejectedReport(t), []), Send(t, RejectedNotice, [])];
    } else {
      out := [];
    }
  }

  /** `_handle_command_callback`: acknowledge first, then dispatch the command
      through the registry with a synthetic message; a command the registry does
      not know gets an "Unknown command" message in the chat. */
  method HandleCommandCallback(registry: CommandRegistry, cbId: string, command: string, cq: CallbackQuery, userId: int)
    returns (out: seq<Action>, call: Option<Invocation>)
    requires cq.message.GetOr(EmptyMessage).ChatId().Some?
    ensures var chat := cq.message.GetOr(EmptyMessage).ChatId().value;
      && call == (match registry.Get(command)
                  case None => None
                  case Some(e) => Some(Invocation(e.handler, e.needsRbac, BuildSyntheticMessage(cq, command), userId)))
      && out == [AnswerCallback(cbId, Some(RunningCommand(command)))]
                + (if call.None? then [Send(chat, UnknownCommand(command), [])] else [])
  {
    var message := BuildSyntheticMessage(cq, command);
    var chat := message.ChatId().value;
    out := [AnswerCallback(cbId, Some(RunningCommand(command)))];
    var found;
    found, call := registry.Dispatch(command, message, userId);
    if !found {
      out := out + [Send(chat, UnknownCommand(command), [])];
    }
  }

  /** Whether a press carries both a sender id and a chat id. */
  predicate Identified(cq: CallbackQuery) {
    cq.from.GetOr(EmptyPeer).id.Some? && cq.message.GetOr(EmptyMessage).ChatId().Some?
  }

  /** Whether the presser holds `manage_users`. */
  function PresserMayManage(rbac: RbacEngine, cq: CallbackQuery): bool
    reads rbac
  {
    var userId := cq.from.GetOr(EmptyPeer).id;
    userId.Some? && rbac.HasPermission(userId.value, "manage_users")
  }

  /** The approval verdict of a press, when the press reaches the approval flow. */
  function CallbackVerdict(cq: CallbackQuery, permitted: bool): Option<Verdict> {
    var data := cq.data.GetOr("");
    if Identified(cq) && RouteCallback(data) == ToApproval then Some(ApprovalVerdict(data, permitted)) else None
  }

  /** The calls a press makes, given whether the presser may manage users and
      what the registry holds for the press's data. */
  function CallbackActions(cq: CallbackQuery, permitted: bool, entry: Option<CommandEntry>): seq<Action> {
    var cbId := cq.id.GetOr("");
    var data := cq.data.GetOr("");
    if !Identified(cq) then [AnswerCallback(cbId, Some(CouldNotProcess))]
    else
      var chat := cq.message.GetOr(EmptyMessage).ChatId().value;
      match RouteCallback(data)
      case ToApproval => VerdictActions(ApprovalVerdict(data, permitted), cbId, chat)
      case ToCommand =>
        [AnswerCallback(cbId, Some(RunningCommand(data)))] + (if entry.None? then [Send(chat, UnknownCommand(data), [])] else [])
      case Unrouted => [AnswerCallback(cbId, None)]
  }

  /** The handler call a press makes: only a command press whose command is
      registered calls anything, with the synthetic message for that command. */
  function CallbackCall(cq: CallbackQuery, entry: Option<CommandEntry>): Option<Invocation> {
    var data := cq.data.GetOr("");
    if Identified(cq) && RouteCallback(data) == ToCommand && entry.Some? then
      Some(Invocation(entry.value.handler, entry.value.needsRbac, BuildSyntheticMessage(cq, data), cq.from.GetOr(EmptyPeer).id.value))
    else None
  }

  /** The user registry after a press with verdict `v`. */
  function CallbackUsers(users: Rbac.Registry, v: Option<Verdict>): Rbac.Registry {
    if v.Some? then VerdictRegistry(users, v.value) else users
  }

  /** Whether a press with verdict `v` saves the registry. */
  predicate CallbackSaves(v: Option<Verdict>) {
    v.Some? && VerdictLevel(v.value).Some?
  }

  /** `handle_callback_query`. A press without `from.id` or `message.chat.id`
      gets only a "could not process" acknowledgement; otherwise the data is
      routed by `RouteCallback` to the approval flow, to the command flow, or to
      a bare acknowledgement. */
  method HandleCallbackQuery(rbac: RbacEngine, registry: CommandRegistry, cq: CallbackQuery)
    returns (out: seq<Action>, call: Option<Invocation>)
    modifies rbac
    ensures |out| > 0 && out[0].AnswerCallback?
    ensures var permitted := old(PresserMayManage(rbac, cq));
      var entry := registry.Get(cq.data.GetOr(""));
      var v := CallbackVerdict(cq, permitted);
      && out == CallbackActions(cq, permitted, entry)
      && call == CallbackCall(cq, entry)
      && rbac.users == CallbackUsers(old(rbac.users), v)
      && rbac.persisted == old(rbac.persisted) + (if CallbackSaves(v) then [rbac.users] else [])
  {
    var cbId := cq.id.GetOr("");
    var data := cq.data.GetOr("");
    var user := cq.from.GetOr(EmptyPeer);
    var userId := user.id;
    var chatId := cq.message.GetOr(EmptyMessage).ChatId();
    if userId.None? || chatId.None? {
      out := [AnswerCallback(cbId, Some(CouldNotProcess))];
      call := None;
      return;
    }
    var route := RouteCallback(data);
    if route == ToApproval {
      out := HandleApprovalCallback(rbac, cbId, data, userId.value, chatId.value);
      call := None;
      return;
    }
    if route == ToCommand {
      out, call := HandleCommandCallback(registry, cbId, data, cq, userId.value);
      return;
    }
    out := [AnswerCallback(cbId, None)];
    call := None;
  }

  /** Every press is answered, first, under its own callback id. */
  lemma EveryPressAnswered(cq: CallbackQuery, permitted: bool, entry: Option<CommandEntry>)
    ensures var out := CallbackActions(cq, permitted, entry);
      |out| > 0 && out[0].AnswerCallback? && out[0].callbackId == cq.id.GetOr("")
  {
    var data := cq.data.GetOr("");
    if Identified(cq) && RouteCallback(data) == ToApproval {
      SplitHeadIsPartitionHead(data, ':');
    }
  }

  /** Only a press by someone holding `manage_users`, on an approve or promote
      button whose target parses, changes the user registry. */
  lemma OnlyPermittedApprovalChangesUsers(users: Rbac.Registry, cq: CallbackQuery, permitted: bool)
    requires CallbackUsers(users, CallbackVerdict(cq, permitted)) != users
    ensures Identified(cq) && RouteCallback(cq.data.GetOr("")) == ToApproval && permitted
    ensures CallbackVerdict(cq, permitted).value.Approve? || CallbackVerdict(cq, permitted).value.Promote?
  {
  }

  /** A decimal id never holds a `:`. */
  lemma NoColonInId(n: int)
    ensures ':' !in IntToStr(n)
  {
    var s := NatToStr(if n < 0 then -n else n);
    assert forall i :: 0 <= i < |s| ==> IsDigit(s[i]);
    if n < 0 {
      assert IntToStr(n) == "-" + s;
    }
  }

  /** The data of an alert button, `verb:<id>`, partitions back into the verb
      and an id that parses to the user id it was built from. */
  lemma ButtonDataRoundTrip(verb: string, userId: int)
    requires ':' !in verb
    ensures var parts := Partition(ButtonData(verb, userId), ':');
      parts.0 == verb && ParseInt(parts.2) == Some(userId)
  {
    var id := IntToStr(userId);
    NoColonInId(userId);
    ParseIntOfIntToStr(userId);
    assert verb + ":" + id == verb + [':'] + id;
  }

  /** What a press on `verb:<id>` decides, for each approval verb. */
  lemma ButtonVerdict(verb: string, userId: int, permitted: bool)
    requires verb in ["approve_member", "promote_mod", "reject"]
    ensures var data := ButtonData(verb, userId);
      && RouteCallback(data) == ToApproval
      && ApprovalVerdict(data, permitted)
         == if !permitted then NotPermitted
            else if verb == "approve_member" then Approve(userId)
            else if verb == "promote_mod" then Promote(userId)
            else Reject(userId)
  {
    ButtonDataRoundTrip(verb, userId);
    assert ButtonData(verb, userId)[|verb|] == ':';
  }

  /** Pressing a button of a registration alert for `userId`: the press goes to
      the approval flow, and for a presser holding `manage_users` the approve
      button makes `userId` a Member (level 10), the promote button a Moderator
      (level 50), and the reject button changes no level; for a presser without
      `manage_users` every button is refused. */
  lemma AlertButtonsReachApproval(userId: int, permitted: bool)
    ensures var kb := ApprovalKeyboard(userId);
      && RouteCallback(kb[0][0].callbackData) == ToApproval
      && RouteCallback(kb[0][1].callbackData) == ToApproval
      && RouteCallback(kb[1][0].callbackData) == ToApproval
      && ApprovalVerdict(kb[0][0].callbackData, permitted) == (if permitted then Approve(userId) else NotPermitted)
      && ApprovalVerdict(kb[0][1].callbackData, permitted) == (if permitted then Promote(userId) else NotPermitted)
      && ApprovalVerdict(kb[1][0].callbackData, permitted) == (if permitted then Reject(userId) else NotPermitted)
  {
    ButtonVerdict("approve_member", userId, permitted);
    ButtonVerdict("promote_mod", userId, permitted);
    ButtonVerdict("reject", userId, permitted);
  }

  /** So a permitted approve or promote press sets exactly the level of the
      registered user. */
  lemma AlertButtonLevels(userId: int)
    ensures VerdictLevel(ApprovalVerdict(ApprovalKeyboard(userId)[0][0].callbackData, true)) == Some((userId, MemberLevel))
    ensures VerdictLevel(ApprovalVerdict(ApprovalKeyboard(userId)[0][1].callbackData, true)) == Some((userId, ModeratorLevel))
  {
    AlertButtonsReachApproval(userId, true);
  }

  /** A target that does not parse is reported as invalid whether or not the
      presser holds `manage_users`: the parse comes before the permission check. */
  lemma InvalidTargetBeforePermission(data: string, permitted: bool)
    requires ParseInt(Partition(data, ':').2).None?
    ensures ApprovalVerdict(data, permitted) == InvalidTarget
  {
  }
}
