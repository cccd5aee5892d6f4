/** Sender resolution: which principal an inbound update acts for
    (core/identity.py, `get_identity`). */
module Identity {
  import opened Wrappers
  import opened Events

  /** The message-like fields `get_identity` consults, in priority order.
      `edited_channel_post` is not among them. */
  function Candidates(u: Update): seq<Option<Message>> {
    [u.message, u.editedMessage, u.channelPost]
  }

  /** Reference definition of "first match": the first candidate that is a non-empty object. */
  function FirstTruthy(cs: seq<Option<Message>>): (r: Option<Message>)
    ensures r.Some? ==> r.value.Truthy() && r in cs
    ensures r.Some? ==> exists i :: 0 <= i < |cs| && cs[i] == r && forall j :: 0 <= j < i ==> cs[j].None? || !cs[j].value.Truthy()
    ensures r.None? ==> forall i :: 0 <= i < |cs| ==> cs[i].None? || !cs[i].value.Truthy()
  {
    if cs == [] then None
    else if cs[0].Some? && cs[0].value.Truthy() then cs[0]
    else FirstTruthy(cs[1..])
  }

  /** Who a chosen message speaks for: its `sender_chat` (an anonymous group
      admin or a channel, a negative id) when that object is non-empty, else its
      `from` user when that is non-empty, else nobody. The id itself may be
      missing from the object, in which case there is no identity either. */
  function SenderOf(m: Message): Option<int> {
    if m.senderChat.Some? && m.senderChat.value.Truthy() then m.senderChat.value.id
    else if m.from.Some? && m.from.value.Truthy() then m.from.value.id
    else None
  }

  /** `get_identity(update)`: the Python or-chain
      `message or edited_message or channel_post`, then the sender rule. */
  function GetIdentity(u: Update): (r: Option<int>)
    ensures r == (match FirstTruthy(Candidates(u)) case None => None case Some(m) => SenderOf(m))
  {
    var message := OrMessage(OrMessage(u.message, u.editedMessage), u.channelPost);
    ghost var cs := Candidates(u);
    assert cs[1..] == [u.editedMessage, u.channelPost] && cs[1..][1..] == [u.channelPost];
    assert FirstTruthy(cs[1..][1..]) == OrMessage(u.channelPost, None) by {
      assert cs[1..][1..][1..] == [];
    }
    assert FirstTruthy(cs) == (if message.Some? && message.value.Truthy() then message else None);
    if message.None? || !message.value.Truthy() then None
    else SenderOf(message.value)
  }

  /** The priority `message` > `edited_message` > `channel_post`: a later
      field is chosen only when every earlier one is absent or empty. */
  lemma CandidatePriority(u: Update)
    ensures u.message.Some? && u.message.value.Truthy() ==> FirstTruthy(Candidates(u)) == u.message
    ensures (u.message.None? || !u.message.value.Truthy()) && u.editedMessage.Some? && u.editedMessage.value.Truthy()
            ==> FirstTruthy(Candidates(u)) == u.editedMessage
    ensures (u.message.None? || !u.message.value.Truthy()) && (u.editedMessage.None? || !u.editedMessage.value.Truthy())
            ==> FirstTruthy(Candidates(u)) == OrMessage(u.channelPost, None)
  {
    var cs := Candidates(u);
    assert cs[1..] == [u.editedMessage, u.channelPost] && cs[1..][1..] == [u.channelPost];
    assert FirstTruthy(cs[1..][1..]) == OrMessage(u.channelPost, None) by {
      assert cs[1..][1..][1..] == [];
    }
  }

  /** With no non-empty message, edited message or channel post there is no identity. */
  lemma NoPayloadNoIdentity(u: Update)
    requires forall c :: c in Candidates(u) ==> c.None? || !c.value.Truthy()
    ensures GetIdentity(u).None?
  {
    assert FirstTruthy(Candidates(u)).None?;
  }

  /** A non-empty `sender_chat` on the chosen message wins over `from`, even when
      `from` is present. */
  lemma SenderChatWins(u: Update, m: Message)
    requires FirstTruthy(Candidates(u)) == Some(m)
    requires m.senderChat.Some? && m.senderChat.value.Truthy()
    ensures GetIdentity(u) == m.senderChat.value.id
  {
  }

  /** Without a non-empty `sender_chat`, the chosen message's `from.id` is the identity. */
  lemma FromWhenNoSenderChat(u: Update, m: Message)
    requires FirstTruthy(Candidates(u)) == Some(m)
    requires m.senderChat.None? || !m.senderChat.value.Truthy()
    requires m.from.Some? && m.from.value.Truthy()
    ensures GetIdentity(u) == m.from.value.id
  {
  }

  /** The choice is first-match, not first-with-a-sender: when the new message is
      non-empty but names no sender, the edited message and channel post are not
      tried, whatever they hold. */
  lemma NoFallThrough(u: Update)
    requires u.message.Some? && u.message.value.Truthy()
    requires SenderOf(u.message.value).None?
    ensures GetIdentity(u).None?
  {
  }

  /** `edited_channel_post` never influences the result. */
  lemma EditedChannelPostIgnored(u: Update, p: Option<Message>)
    ensures GetIdentity(u.(editedChannelPost := p)) == GetIdentity(u)
  {
  }
}
