/** The older bot of bot.py: a single `/promote` command over the threshold
    model of chitragupt_iam.py, and its own polling loop. */
module LegacyBot {
  import opened Wrappers
  import opened PyText
  import opened Events
  import opened LegacyIam
  import opened Polling

  /** The level at and above which `/promote` refuses to go. */
  const SuperAdminLevel := 100

  /** The outcome of `/promote <user_id> <level>`, in the order its checks run. */
  datatype PromoteOutcome = Denied | Usage | InvalidArgs | TooHigh | Promoted(target: int, level: int)

  function PromoteDecision(permitted: bool, text: string): PromoteOutcome {
    if !permitted then Denied
    else
      var parts := Words(text);
      if |parts| < 3 then Usage
      else
        match (ParseInt(parts[1]), ParseInt(parts[2]))
        case (Some(target), Some(level)) =>
          if level >= SuperAdminLevel then TooHigh else Promoted(target, level)
        case _ => InvalidArgs
  }

  /** The one message each outcome sends to the chat. */
  function PromoteReply(outcome: PromoteOutcome): Notice {
    match outcome
    case Denied => PromoteDenied
    case Usage => PromoteUsage
    case InvalidArgs => PromoteInvalidArgs
    case TooHigh => PromoteTooHigh
    case Promoted(target, level) => PromoteDone(target, level)
  }

  /** The entity registry after an outcome: a promotion creates or updates the
      target's record exactly as `update_entity_level` does; any other outcome
      leaves the registry alone. */
  function PromotedEntities(entities: Entities, outcome: PromoteOutcome): Entities {
    if outcome.Promoted? then
      var key := IntToStr(outcome.target);
      entities[key := UpdatedEntity(if key in entities then Some(entities[key]) else None, outcome.target, outcome.level, None)]
    else entities
  }

  /** `handle_promote`: exactly one message; the registry changes only for a
      `Promoted` outcome, and then exactly as `update_entity_level` says. */
  method HandlePromote(iam: ChitraguptIam, message: Message, entityId: int) returns (out: seq<Action>)
    requires message.ChatId().Some?
    modifies iam
    ensures var outcome := PromoteDecision(old(iam.CanPerform(entityId, "promote")), message.Text());
      && out == [Send(message.ChatId().value, PromoteReply(outcome), [])]
      && iam.entities == PromotedEntities(old(iam.entities), outcome)
      && iam.persisted == old(iam.persisted) + (if outcome.Promoted? then [iam.entities] else [])
  {
    var chat := message.ChatId().value;
    ghost var outcome := PromoteDecision(iam.CanPerform(entityId, "promote"), message.Text());
    if !iam.CanPerform(entityId, "promote") {
      assert outcome == Denied;
      out := [Send(chat, PromoteDenied, [])];
      return;
    }
    var parts := Words(message.Text());
    if |parts| < 3 {
      assert outcome == Usage;
      out := [Send(chat, PromoteUsage, [])];
      return;
    }
    var target := ParseInt(parts[1]);
    var level := ParseInt(parts[2]);
    if target.None? || level.None? {
      assert outcome == InvalidArgs;
      out := [Send(chat, PromoteInvalidArgs, [])];
      return;
    }
    if level.value >= SuperAdminLevel {
      assert outcome == TooHigh;
      out := [Send(chat, PromoteTooHigh, [])];
      return;
    }
    assert outcome == Promoted(target.value, level.value);
    iam.UpdateEntityLevel(target.value, level.value);
    out := [Send(chat, PromoteDone(target.value, level.value), [])];
  }

  /** The permission is checked before the text is even looked at. */
  lemma DeniedWhateverTheText(text: string)
    ensures PromoteDecision(false, text) == Denied
  {
  }

  /** `/promote` never grants a level at or above 100. */
  lemma PromoteStaysBelowSuperAdmin(permitted: bool, text: string)
    requires PromoteDecision(permitted, text).Promoted?
    ensures PromoteDecision(permitted, text).level < SuperAdminLevel
    ensures permitted
  {
  }

  /** A permitted `/promote <id> <level>` with two integer arguments below 100
      promotes exactly that id to exactly that level. */
  lemma PromoteParsesArguments(target: int, level: int)
    requires level < SuperAdminLevel
    ensures PromoteDecision(true, Join(["/promote", IntToStr(target), IntToStr(level)], " ")) == Promoted(target, level)
  {
    var words := ["/promote", IntToStr(target), IntToStr(level)];
    IntToStrIsWord(target);
    IntToStrIsWord(level);
    assert IsWord("/promote");
    WordsOfJoin(words);
    ParseIntOfIntToStr(target);
    ParseIntOfIntToStr(level);
  }

  /** `process_update` of bot.py: only `message` or `edited_message` is read, an
      update without an identity is ignored, and only text starting with
      `/promote` is acted on. A missing `chat.id` is modelled as doing nothing. */
  method ProcessUpdate(iam: ChitraguptIam, u: Update) returns (out: seq<Action>)
    modifies iam
    ensures var message := OrMessage(u.message, u.editedMessage);
      (message.None? || !message.value.Truthy() || IdentifyEntity(u).None?
       || !("/promote" <= message.value.Text()) || message.value.ChatId().None?) ==>
        out == [] && iam.entities == old(iam.entities) && iam.persisted == old(iam.persisted)
    ensures var message := OrMessage(u.message, u.editedMessage);
      (message.Some? && message.value.Truthy() && IdentifyEntity(u).Some?
       && "/promote" <= message.value.Text() && message.value.ChatId().Some?) ==>
        var outcome := PromoteDecision(old(iam.CanPerform(IdentifyEntity(u).value, "promote")), message.value.Text());
        && out == [Send(message.value.ChatId().value, PromoteReply(outcome), [])]
        && iam.entities == PromotedEntities(old(iam.entities), outcome)
        && iam.persisted == old(iam.persisted) + (if outcome.Promoted? then [iam.entities] else [])
    ensures |out| <= 1
  {
    var message := OrMessage(u.message, u.editedMessage);
    if message.None? || !message.value.Truthy() {
      return [];
    }
    var entityId := IdentifyEntity(u);
    if entityId.None? {
      return [];
    }
    var text := message.value.Text();
    if "/promote" <= text {
      if message.value.ChatId().None? {
        return [];
      }
      out := HandlePromote(iam, message.value, entityId.value);
    } else {
      out := [];
    }
  }

  /** `main`, over a finite run of `getUpdates` answers, with the same offset
      bookkeeping as the newer dispatcher. */
  method MainLoop(iam: ChitraguptIam, polls: seq<PollResult>) returns (offset: Option<int>, out: seq<Action>)
    modifies iam
    ensures offset == OffsetAfterPolls(None, polls)
  {
    offset := None;
    out := [];
    var i := 0;
    while i < |polls|
      invariant 0 <= i <= |polls|
      invariant offset == OffsetAfterPolls(None, polls[..i])
    {
      var poll := polls[i];
      assert polls[..i + 1][..i] == polls[..i];
      if poll.ok {
        var start := offset;
        var j := 0;
        while j < |poll.result|
          invariant 0 <= j <= |poll.result|
          invariant offset == OffsetAfterUpdates(start, poll.result[..j])
        {
          var update := poll.result[j];
          var acts := ProcessUpdate(iam, update);
          out := out + acts;
          offset := Some(update.updateId + 1);
          j := j + 1;
        }
        assert poll.result[..j] == poll.result;
      }
      i := i + 1;
    }
    assert polls[..i] == polls;
  }
}
