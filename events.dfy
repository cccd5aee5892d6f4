/** The shapes of the inbound Telegram updates the bot reads, and the outbound
    calls it makes, as values.

    A JSON object is a record of optional fields plus `extra`, which says whether
    it carries keys the model does not track. Python treats a dict as true exactly
    when it is non-empty, and `Truthy` says the same of the record. A key whose
    value is JSON `null` is modelled as absent. */
module Events {
  import opened Wrappers

  /** A user or chat object (`from`, `chat`, `sender_chat`). */
  datatype Peer = Peer(
    id: Option<int>,
    username: Option<string>,
    firstName: Option<string>,
    lastName: Option<string>,
    languageCode: Option<string>,
    isPremium: Option<bool>,
    extra: bool)
  {
    predicate Truthy() {
      id.Some? || username.Some? || firstName.Some? || lastName.Some?
        || languageCode.Some? || isPremium.Some? || extra
    }
  }

  /** `{}`, what `d.get("chat", {})` falls back to. */
  const EmptyPeer := Peer(None, None, None, None, None, None, false)

  /** A message-like object (`message`, `edited_message`, `channel_post`, `edited_channel_post`). */
  datatype Message = Message(
    messageId: Option<int>,
    chat: Option<Peer>,
    from: Option<Peer>,
    senderChat: Option<Peer>,
    text: Option<string>,
    extra: bool)
  {
    predicate Truthy() {
      messageId.Some? || chat.Some? || from.Some? || senderChat.Some? || text.Some? || extra
    }

    /** `message["chat"]["id"]`, or `None` when either key is missing. */
    function ChatId(): Option<int> {
      if chat.Some? then chat.value.id else None
    }

    /** `message.get("text", "")`. */
    function Text(): string {
      text.GetOr("")
    }
  }

  const EmptyMessage := Message(None, None, None, None, None, false)

  /** An inline-button press. */
  datatype CallbackQuery = CallbackQuery(
    id: Option<string>,
    from: Option<Peer>,
    message: Option<Message>,
    data: Option<string>,
    extra: bool)
  {
    predicate Truthy() {
      id.Some? || from.Some? || message.Some? || data.Some? || extra
    }
  }

  /** One entry of a `getUpdates` result. `update_id` is always present. */
  datatype Update = Update(
    updateId: int,
    message: Option<Message>,
    editedMessage: Option<Message>,
    channelPost: Option<Message>,
    editedChannelPost: Option<Message>,
    callbackQuery: Option<CallbackQuery>)

  /** Python's `a or b`: the first operand when it is truthy, else the second. */
  function OrMessage(a: Option<Message>, b: Option<Message>): Option<Message> {
    if a.Some? && a.value.Truthy() then a else b
  }

  /** What a message says. Exact wording, emoji and Markdown are not modelled;
      each constructor stands for one fixed text of the source, and its
      arguments for the values interpolated into it. */
  datatype Notice =
    // bot/handlers.py
    | WelcomeBack(name: string, roleName: string)
    | WelcomePending(name: string)
    | RegistrationAlert(name: string, userId: int)
    | NoAvailableCommands
    | CommandMenu
    | StatusReport(roleName: string, level: int, permissions: string)
    | SessionEnded
    | KickDenied
    | KickUsage
    | KickInvalidId
    | KickUnreachable
    | Kicked(target: int)
    | KickFailed(description: string)
    // bot/callbacks.py
    | CouldNotProcess
    | RunningCommand(command: string)
    | UnknownCommand(command: string)
    | InvalidUserData
    | ManageUsersDenied
    | ApprovedAck(target: int)
    | ApprovedReport(target: int)
    | ApprovedWelcome
    | PromotedAck(target: int)
    | PromotedReport(target: int)
    | PromotedWelcome
    | RejectedAck(target: int)
    | RejectedReport(target: int)
    | RejectedNotice
    // bot.py
    | PromoteDenied
    | PromoteUsage
    | PromoteInvalidArgs
    | PromoteTooHigh
    | PromoteDone(target: int, level: int)

  /** The text on an inline button. */
  datatype Label = ApproveLabel | PromoteLabel | RejectLabel | CommandLabel(command: string, description: string)

  datatype Button = Button(caption: Label, callbackData: string)

  /** One outbound call to the messaging API. `buttons` is the inline keyboard
      (rows of buttons); an empty keyboard means no `reply_markup`. */
  datatype Action =
    | Send(chatId: int, notice: Notice, buttons: seq<seq<Button>>)
    | AnswerCallback(callbackId: string, ack: Option<Notice>)
    | KickRequest(chatId: int, userId: int)
}
