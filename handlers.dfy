/** The command handlers (bot/handlers.py). Each outbound call is an `Action`
    appended to the handler's output, in the order the source makes the calls. */
module Handlers {
  import opened Wrappers
  import opened PyText
  import opened Events
  import opened Rbac

  /** One row of `COMMAND_PERMISSIONS`. */
  datatype CommandInfo = CommandInfo(command: string, action: string, description: string)

  /** `COMMAND_PERMISSIONS`, in its declared order. */
  const CommandPermissions: seq<CommandInfo> := [
    CommandInfo("/start", "view_help", "Register and request access"),
    CommandInfo("/help", "view_help", "Show available commands"),
    CommandInfo("/status", "view_help", "View your rank and permissions"),
    CommandInfo("/kick", "kick_user", "Kick a user from the chat"),
    CommandInfo("/stop", "view_help", "End your session"),
    CommandInfo("/exit", "view_help", "End your session")
  ]

  /** The profile keys `_extract_user_metadata` copies; `is_special` is not among them. */
  const ProfileKeys: seq<string> := ["username", "first_name", "last_name", "language_code", "is_premium"]

  /** `from_user.get(key)` for the profile keys. */
  function Field(p: Peer, key: string): Option<MetaValue> {
    if key == "username" then (if p.username.Some? then Some(Text(p.username.value)) else None)
    else if key == "first_name" then (if p.firstName.Some? then Some(Text(p.firstName.value)) else None)
    else if key == "last_name" then (if p.lastName.Some? then Some(Text(p.lastName.value)) else None)
    else if key == "language_code" then (if p.languageCode.Some? then Some(Text(p.languageCode.value)) else None)
    else if key == "is_premium" then (if p.isPremium.Some? then Some(Flag(p.isPremium.value)) else None)
    else None
  }

  /** `_extract_user_metadata`: exactly the non-`None` profile fields of the
      sender, and never `is_special`. */
  method ExtractUserMetadata(fromUser: Peer) returns (meta: map<string, MetaValue>)
    ensures forall k :: k in meta <==> k in ProfileKeys && Field(fromUser, k).Some?
    ensures forall k :: k in meta ==> meta[k] == Field(fromUser, k).value
    ensures "is_special" !in meta
  {
    meta := map[];
    var i := 0;
    while i < |ProfileKeys|
      invariant 0 <= i <= |ProfileKeys|
      invariant forall k :: k in meta <==> k in ProfileKeys[..i] && Field(fromUser, k).Some?
      invariant forall k :: k in meta ==> meta[k] == Field(fromUser, k).value
    {
      var key := ProfileKeys[i];
      var val := Field(fromUser, key);
      if val.Some? {
        meta := meta[key := val.value];
      }
      assert ProfileKeys[..i + 1] == ProfileKeys[..i] + [key];
      i := i + 1;
    }
    assert ProfileKeys[..i] == ProfileKeys;
  }

  /** Profile values passed on as keyword arguments (`**meta`). */
  function AsKeywords(meta: map<string, MetaValue>): Metadata {
    map k | k in meta :: Some(meta[k])
  }

  /** `from_user.get("first_name", str(user_id))`. */
  function DisplayName(message: Message, userId: int): string {
    message.from.GetOr(EmptyPeer).firstName.GetOr(IntToStr(userId))
  }

  /** The inline keyboard of a registration alert for `userId`. */
  function ApprovalKeyboard(userId: int): seq<seq<Button>> {
    [ [Button(ApproveLabel, ButtonData("approve_member", userId)), Button(PromoteLabel, ButtonData("promote_mod", userId))],
      [Button(RejectLabel, ButtonData("reject", userId))] ]
  }

  /** The callback data of an approval button: `verb:<id>`. */
  function ButtonData(verb: string, userId: int): string {
    verb + ":" + IntToStr(userId)
  }

  /** One registration alert for `userId`, sent to `adminId`. */
  function Alert(adminId: int, name: string, userId: int): Action {
    Send(adminId, RegistrationAlert(name, userId), ApprovalKeyboard(userId))
  }

  /** The alerts of a new registration reach exactly the ids `get_superadmins`
      reports for `users`: one alert per reported registry key, each to the id
      read from its key. */
  ghost predicate AlertsReachSuperAdmins(alerts: seq<Action>, users: Registry, name: string, userId: int) {
    && |alerts| == |SuperAdminKeys(users)|
    && (forall i :: 0 <= i < |alerts| ==> alerts[i].Send? && alerts[i] == Alert(alerts[i].chatId, name, userId))
    && (forall x :: (exists i :: 0 <= i < |alerts| && alerts[i] == Alert(x, name, userId))
                    <==> exists k :: k in SuperAdminKeys(users) && ParseInt(k) == Some(x))
    && exists keys :: AlertsFollowKeys(alerts, keys, users, name, userId)
  }

  /** `keys` enumerates the superadmin keys of `users` once each, and the i-th
      alert goes to the id read from the i-th key. */
  ghost predicate AlertsFollowKeys(alerts: seq<Action>, keys: seq<string>, users: Registry, name: string, userId: int) {
    && |keys| == |alerts|
    && (forall i, j :: 0 <= i < j < |keys| ==> keys[i] != keys[j])
    && (forall k :: k in keys <==> k in SuperAdminKeys(users))
    && (forall i :: 0 <= i < |keys| ==> ParseInt(keys[i]).Some? && alerts[i] == Alert(ParseInt(keys[i]).value, name, userId))
  }

  /** The alert loop of `handle_start`: one alert per listed admin, in list order. */
  method SendAlerts(admins: seq<int>, name: string, userId: int) returns (alerts: seq<Action>)
    ensures |alerts| == |admins|
    ensures forall i :: 0 <= i < |admins| ==> alerts[i] == Alert(admins[i], name, userId)
  {
    alerts := [];
    var i := 0;
    while i < |admins|
      invariant 0 <= i <= |admins|
      invariant |alerts| == i
      invariant forall j :: 0 <= j < i ==> alerts[j] == Alert(admins[j], name, userId)
    {
      alerts := alerts + [Alert(admins[i], name, userId)];
      i := i + 1;
    }
  }

  /** `handle_start`: a known id gets one "welcome back" message naming its role
      and nothing else happens. A new id is registered at level 0 under its first
      name (else its id), with its profile fields; it gets a "pending" welcome,
      and every id `get_superadmins` reports gets one alert carrying the
      approve / promote / reject buttons for the new id. */
  method HandleStart(rbac: RbacEngine, message: Message, userId: int) returns (out: seq<Action>)
    requires message.ChatId().Some?
    modifies rbac
    ensures Key(userId) in old(rbac.users) ==>
      && out == [Send(message.ChatId().value, WelcomeBack(DisplayName(message, userId), old(rbac.GetRoleName(userId))), [])]
      && rbac.users == old(rbac.users) && rbac.persisted == old(rbac.persisted)
    ensures Key(userId) !in old(rbac.users) ==>
      && rbac.users == old(rbac.users)[Key(userId) := SetLevelEntry(None, userId, 0, Some(DisplayName(message, userId)), AsKeywords(ExtractedMetadata(message)))]
      && rbac.persisted == old(rbac.persisted) + [rbac.users]
      && |out| >= 1 && out[0] == Send(message.ChatId().value, WelcomePending(DisplayName(message, userId)), [])
      && AlertsReachSuperAdmins(out[1..], rbac.users, DisplayName(message, userId), userId)
  {
    var chat := message.ChatId().value;
    var fromUser := message.from.GetOr(EmptyPeer);
    var name := DisplayName(message, userId);
    if Key(userId) in rbac.users {
      var roleName := rbac.GetRoleName(userId);
      out := [Send(chat, WelcomeBack(name, roleName), [])];
      return;
    }
    var meta := ExtractUserMetadata(fromUser);
    ExtractedMetadataIs(message, meta);
    rbac.SetUserLevel(userId, 0, Some(name), AsKeywords(meta));
    var admins;
    ghost var keys;
    admins, keys := rbac.GetSuperadmins();
    var alerts := SendAlerts(admins, name, userId);
    AlertsOfAdmins(admins, keys, alerts, rbac.users, name, userId);
    out := [Send(chat, WelcomePending(name), [])] + alerts;
    assert out[1..] == alerts;
  }

  lemma AlertsOfAdmins(admins: seq<int>, keys: seq<string>, alerts: seq<Action>, users: Registry, name: string, userId: int)
    requires forall x :: x in admins <==> exists k :: k in SuperAdminKeys(users) && ParseInt(k) == Some(x)
    requires |admins| == |SuperAdminKeys(users)|
    requires |keys| == |admins|
    requires forall i, j :: 0 <= i < j < |keys| ==> keys[i] != keys[j]
    requires forall k :: k in keys <==> k in SuperAdminKeys(users)
    requires forall i :: 0 <= i < |keys| ==> ParseInt(keys[i]) == Some(admins[i])
    requires |alerts| == |admins| && forall i :: 0 <= i < |admins| ==> alerts[i] == Alert(admins[i], name, userId)
    ensures AlertsReachSuperAdmins(alerts, users, name, userId)
  {
    forall x
      ensures (exists i :: 0 <= i < |alerts| && alerts[i] == Alert(x, name, userId)) <==> x in admins
    {
      if x in admins {
        var j :| 0 <= j < |admins| && admins[j] == x;
        assert alerts[j] == Alert(x, name, userId);
      }
    }
    assert AlertsFollowKeys(alerts, keys, users, name, userId);
  }

  /** The metadata `_extract_user_metadata` returns for the message's sender. */
  ghost function ExtractedMetadata(message: Message): map<string, MetaValue> {
    var p := message.from.GetOr(EmptyPeer);
    map k | k in ProfileKeys && Field(p, k).Some? :: Field(p, k).value
  }

  lemma ExtractedMetadataIs(message: Message, meta: map<string, MetaValue>)
    requires var p := message.from.GetOr(EmptyPeer);
      (forall k :: k in meta <==> k in ProfileKeys && Field(p, k).Some?)
      && (forall k :: k in meta ==> meta[k] == Field(p, k).value)
    ensures meta == ExtractedMetadata(message)
  {
  }

  /** The `/help` button for one table row; tapping it sends the command itself. */
  function HelpButton(info: CommandInfo): Button {
    Button(CommandLabel(info.command, info.description), info.command)
  }

  /** The rows of the `/help` keyboard: one per table row whose action the id may
      perform, in table order. */
  function HelpRows(rbac: RbacEngine, userId: int, table: seq<CommandInfo>): seq<seq<Button>>
    reads rbac
  {
    if table == [] then []
    else
      var info := table[|table| - 1];
      HelpRows(rbac, userId, table[..|table| - 1]) + (if rbac.HasPermission(userId, info.action) then [[HelpButton(info)]] else [])
  }

  /** A command of the table gets a `/help` button exactly when the id holds its
      permission. */
  lemma {:induction false} HelpRowsExactlyPermitted(rbac: RbacEngine, userId: int, table: seq<CommandInfo>, info: CommandInfo)
    requires forall i, j :: 0 <= i < j < |table| ==> table[i].command != table[j].command
    requires info in table
    ensures [HelpButton(info)] in HelpRows(rbac, userId, table) <==> rbac.HasPermission(userId, info.action)
  {
    var init := table[..|table| - 1];
    var last := table[|table| - 1];
    var rows := HelpRows(rbac, userId, init);
    assert forall r :: r in rows ==> exists k :: 0 <= k < |init| && r == [HelpButton(init[k])] by {
      HelpRowsFromTable(rbac, userId, init);
    }
    if info == last {
      assert [HelpButton(info)] !in rows;
    } else {
      assert info in init;
      HelpRowsExactlyPermitted(rbac, userId, init, info);
    }
  }

  /** The commands of `COMMAND_PERMISSIONS` are distinct (they are the keys of a dict). */
  lemma CommandPermissionsDistinct()
    ensures forall i, j :: 0 <= i < j < |CommandPermissions| ==> CommandPermissions[i].command != CommandPermissions[j].command
  {
  }

  /** So `/help` shows a command's button exactly when the id holds its permission. */
  lemma HelpMenuShowsPermitted(rbac: RbacEngine, userId: int, info: CommandInfo)
    requires info in CommandPermissions
    ensures [HelpButton(info)] in HelpRows(rbac, userId, CommandPermissions) <==> rbac.HasPermission(userId, info.action)
  {
    CommandPermissionsDistinct();
    HelpRowsExactlyPermitted(rbac, userId, CommandPermissions, info);
  }

  /** Every `/help` row is the button of some table row. */
  lemma {:induction false} HelpRowsFromTable(rbac: RbacEngine, userId: int, table: seq<CommandInfo>)
    ensures forall r :: r in HelpRows(rbac, userId, table) ==> exists k :: 0 <= k < |table| && r == [HelpButton(table[k])]
  {
    if table != [] {
      var init := table[..|table| - 1];
      HelpRowsFromTable(rbac, userId, init);
      forall r | r in HelpRows(rbac, userId, table)
        ensures exists k :: 0 <= k < |table| && r == [HelpButton(table[k])]
      {
        if r in HelpRows(rbac, userId, init) {
          var k :| 0 <= k < |init| && r == [HelpButton(init[k])];
          assert table[k] == init[k];
        } else {
          assert r == [HelpButton(table[|table| - 1])];
        }
      }
    }
  }

  /** The one message `/help` sends to `chat`: the buttons of the permitted
      commands in table order, or the notice that there are none. */
  function HelpReply(rbac: RbacEngine, chat: int, userId: int): seq<Action>
    reads rbac
  {
    var rows := HelpRows(rbac, userId, CommandPermissions);
    [if rows == [] then Send(chat, NoAvailableCommands, []) else Send(chat, CommandMenu, rows)]
  }

  /** `handle_help`: one message; its keyboard lists the permitted commands of
      `COMMAND_PERMISSIONS` in table order, or it says there are none. */
  method HandleHelp(rbac: RbacEngine, message: Message, userId: int) returns (out: seq<Action>)
    requires message.ChatId().Some?
    ensures out == HelpReply(rbac, message.ChatId().value, userId)
  {
    var chat := message.ChatId().value;
    var buttons: seq<seq<Button>> := [];
    var i := 0;
    while i < |CommandPermissions|
      invariant 0 <= i <= |CommandPermissions|
      invariant buttons == HelpRows(rbac, userId, CommandPermissions[..i])
    {
      var info := CommandPermissions[i];
      assert CommandPermissions[..i + 1][..i] == CommandPermissions[..i];
      if rbac.HasPermission(userId, info.action) {
        buttons := buttons + [[HelpButton(info)]];
      }
      i := i + 1;
    }
    assert CommandPermissions[..i] == CommandPermissions;
    if buttons == [] {
      out := [Send(chat, NoAvailableCommands, [])];
      return;
    }
    out := [Send(chat, CommandMenu, buttons)];
  }

  /** `", ".join(actions) if actions else "None"`. */
  function PermissionsText(actions: seq<string>): (t: string)
    ensures actions == [] ==> t == "None"
    ensures |actions| == 1 ==> t == actions[0]
  {
    if actions == [] then "None" else Join(actions, ", ")
  }

  /** The one message `/status` sends to `chat`: the id's role name, level and
      permitted actions. */
  function StatusReply(rbac: RbacEngine, chat: int, userId: int): seq<Action>
    reads rbac
  {
    [Send(chat, StatusReport(rbac.GetRoleName(userId), rbac.GetUserLevel(userId), PermissionsText(rbac.GetUserActions(userId))), [])]
  }

  /** `handle_status`: one message reporting the id's role name, level and
      permitted actions. */
  method HandleStatus(rbac: RbacEngine, message: Message, userId: int) returns (out: seq<Action>)
    requires message.ChatId().Some?
    ensures out == StatusReply(rbac, message.ChatId().value, userId)
  {
    var chat := message.ChatId().value;
    var level := rbac.GetUserLevel(userId);
    var roleName := rbac.GetRoleName(userId);
    var actions := rbac.GetUserActions(userId);
    var actionsStr := if actions != [] then Join(actions, ", ") else "None";
    out := [Send(chat, StatusReport(roleName, level, actionsStr), [])];
  }

  /** The one message `/stop` and `/exit` send to `chat`. */
  function StopReply(chat: int): seq<Action> {
    [Send(chat, SessionEnded, [])]
  }

  /** `handle_stop` (for `/stop` and `/exit`): one "session ended" message. */
  method HandleStop(message: Message, userId: int) returns (out: seq<Action>)
    requires message.ChatId().Some?
    ensures out == StopReply(message.ChatId().value)
  {
    out := [Send(message.ChatId().value, SessionEnded, [])];
  }

  /** What `kickChatMember` answered: no usable reply (the request or its JSON
      decoding raised), or the reply's `ok` flag and optional `description`. */
  datatype KickReply = NoReply | Reply(ok: bool, description: Option<string>)

  /** The target of `/kick <user_id>`: the second whitespace-separated token, if
      there is one and it is an integer. */
  function KickTarget(text: string): Option<int> {
    var parts := Words(text);
    if |parts| < 2 then None else ParseInt(parts[1])
  }

  /** The report that follows a kick request, chosen by the API's answer: the
      kick succeeded, the API refused it (with its description, else "Unknown
      error"), or the API could not be reached. */
  function KickReport(target: int, reply: KickReply): Notice {
    match reply
    case NoReply => KickUnreachable
    case Reply(ok, description) => if ok then Kicked(target) else KickFailed(description.GetOr("Unknown error"))
  }

  /** The calls `/kick` makes in `chat`, given whether the sender holds `kick_user`. */
  function KickOutcome(permitted: bool, text: string, chat: int, reply: KickReply): seq<Action> {
    if !permitted then [Send(chat, KickDenied, [])]
    else
      var parts := Words(text);
      if |parts| < 2 then [Send(chat, KickUsage, [])]
      else
        match ParseInt(parts[1])
        case None => [Send(chat, KickInvalidId, [])]
        case Some(target) => [KickRequest(chat, target), Send(chat, KickReport(target, reply), [])]
  }

  /** `/kick`, read off its outcome: the `kick_user` permission is checked first,
      then the argument count, then the integer parse; each failure sends one
      explanatory message and issues no kick request. Otherwise exactly one kick
      request for the target in this chat is issued, followed by the report the
      API's answer selects. */
  lemma KickOutcomeChecks(permitted: bool, text: string, chat: int, reply: KickReply)
    ensures var out := KickOutcome(permitted, text, chat, reply);
      var parts := Words(text);
      && (!permitted ==> out == [Send(chat, KickDenied, [])])
      && (permitted && |parts| < 2 ==> out == [Send(chat, KickUsage, [])])
      && (permitted && |parts| >= 2 && ParseInt(parts[1]).None? ==> out == [Send(chat, KickInvalidId, [])])
      && ((exists i :: 0 <= i < |out| && out[i].KickRequest?) <==> permitted && KickTarget(text).Some?)
      && (permitted && KickTarget(text).Some? ==>
            var target := KickTarget(text).value;
            out == [KickRequest(chat, target), Send(chat, KickReport(target, reply), [])])
  {
    var out := KickOutcome(permitted, text, chat, reply);
    if permitted && KickTarget(text).Some? {
      assert out[0].KickRequest?;
    }
  }

  /** `handle_kick`: the calls of `KickOutcome` for the sender's `kick_user`
      permission, the message text and the API's answer. */
  method HandleKick(rbac: RbacEngine, message: Message, userId: int, reply: KickReply) returns (out: seq<Action>)
    requires message.ChatId().Some?
    ensures out == KickOutcome(rbac.HasPermission(userId, "kick_user"), message.Text(), message.ChatId().value, reply)
  {
    var chat := message.ChatId().value;
    if !rbac.HasPermission(userId, "kick_user") {
      out := [Send(chat, KickDenied, [])];
      return;
    }
    var parts := Words(message.Text());
    if |parts| < 2 {
      out := [Send(chat, KickUsage, [])];
      return;
    }
    var target := ParseInt(parts[1]);
    if target.None? {
      out := [Send(chat, KickInvalidId, [])];
      return;
    }
    out := [KickRequest(chat, target.value), Send(chat, KickReport(target.value, reply), [])];
  }
}
