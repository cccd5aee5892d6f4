# Chitragupt access-control core in Dafny

Chitragupt is a Telegram bot that guards a group with role-based access
control. A user who sends `/start` is registered at level 0 and waits. Every
super-admin receives an alert with three buttons: approve the user as a
member (level 10), promote them to moderator (level 50), or reject them. A
user's level selects a role from the role table. The role's actions decide
which commands the user may run (`/help`, `/status`, `/stop`, `/exit`,
`/kick`). Super-admins, configured in `SUPER_ADMINS`, may do everything.
An older, self-contained bot (bot.py with chitragupt_iam.py) offers a
single `/promote` command over a plain level-threshold model.

This project models that core:

- `Identity`: who an update speaks for.
- `Rbac`: the RBAC engine as a class. The user registry is a field that its
  methods update. Every save appends a snapshot to a ghost `persisted` list.
- `Registry`: the command registry, also a class.
- `Handlers`, `Callbacks`, `Dispatcher`: the handlers, the button callbacks
  and the update dispatcher. A handler returns the outbound calls it makes
  (send a message, answer a callback, kick a member) as a list of `Action`
  values.
- `Polling`: the offset bookkeeping of the two long-polling loops.
- `Config`: parsing of `SUPER_ADMINS`.
- `LegacyIam`, `LegacyBot`: the older bot.
- `Wiring`: how the `/help` buttons reach their handlers; see Findings.
- Supporting modules: `Wrappers` (`Option`, `Result`), `PyText` (the Python
  string operations the core relies on: `strip`, `split`, `str(int)`,
  `int(str)`, `partition`) and `Events` (Telegram update shapes and outbound
  actions).

JSON objects are records of optional fields plus a flag for untracked keys.
For objects without `null` values this makes Python's "a dict is truthy iff it
is non-empty" exact, and the or-chains `message or edited_message or ...` pick
the same object the source picks. A key whose value is `null` counts as absent,
so an object such as `{"text": null}` is empty in the model but truthy in
Python.

The model describes the bot as its authors evidently intended it to run: the
dispatcher in bot/dispatcher.py calls its coroutine handlers and `get_updates`
without `await`, so as written it never runs a handler and stops at its first
poll. Findings records both versions.

## Model

| member | source | states |
|---|---|---|
| Identity.FirstTruthy | core/identity.py:7-11 | the chosen payload is a non-empty candidate and every candidate before it is absent or empty; no choice means every candidate is absent or empty |
| Identity.CandidatePriority | core/identity.py:7-11 | message wins when non-empty, else edited_message when non-empty, else channel_post |
| Identity.GetIdentity | core/identity.py:1-24 | the identity is the sender of the first non-empty of message, edited_message, channel_post, and nothing when there is none |
| Identity.NoPayloadNoIdentity | core/identity.py:12-13 | with no non-empty payload there is no identity |
| Identity.SenderChatWins | core/identity.py:15-18 | a non-empty sender_chat decides the identity even when from is present |
| Identity.FromWhenNoSenderChat | core/identity.py:20-22 | without sender_chat the from user's id is the identity |
| Identity.NoFallThrough | core/identity.py:7-24 | a non-empty first payload without a sender gives no identity; later payloads are not tried |
| Identity.EditedChannelPostIgnored | core/identity.py:7-11 | edited_channel_post never changes the identity |
| Rbac.BuildRoleTableLastWins | core/rbac.py:37-39 | a level is in the role table iff some role has it, and the entry is the last role listed with that level |
| Rbac.LoadTables | core/rbac.py:20-54 | loading succeeds iff both files parse; a missing or malformed file gives its own error, rules first |
| Rbac.MergeMetaAt | core/rbac.py:123-125 | after a merge each profile key holds the supplied non-None value, else the old one, and no other key changes |
| Rbac.MergeMetaIdempotent | core/rbac.py:113-115 | merging the same metadata twice equals merging it once |
| Rbac.MergeChangesIffDiffers | core/rbac.py:198-201 | a merge changes the stored metadata iff some supplied key differs from what is stored |
| Rbac.SetLevelCreates | core/rbac.py:107-117 | a new user gets the level, the name (or the id when the name is empty) and exactly the supplied profile keys |
| Rbac.SetLevelUpdates | core/rbac.py:118-125 | an existing user gets the new level, keeps its name unless a non-empty one is given, and has the metadata merged |
| Rbac.SetLevelIdempotent | core/rbac.py:95-128 | applying the same level update twice gives the same entry as applying it once |
| Rbac.SyncPersistsIffChanged | core/rbac.py:167-204 | sync_super_admin saves exactly when the entry would change or is new |
| Rbac.SyncTwiceDoesNotPersist | core/rbac.py:158-204 | a second identical sync changes nothing and saves nothing |
| Rbac.RbacEngine.constructor | core/rbac.py:20-54 | the engine starts from the loaded registry, the role table built from the rules and the configured super-admins, with nothing saved |
| Rbac.RbacEngine.GetUserLevel | core/rbac.py:56-64 | an unregistered id has level 0 |
| Rbac.RbacEngine.HasPermission | core/rbac.py:66-93 | a super-admin is always granted; an id whose level has no role is always refused |
| Rbac.RbacEngine.GetRoleName | core/rbac.py:130-136 | an id whose level has no role is reported as "Unknown" |
| Rbac.RbacEngine.GetUserActions | core/rbac.py:138-144 | an id whose level has no role has no actions |
| Rbac.RbacEngine.GetSuperadmins | core/rbac.py:146-156 | the ids returned are read one each from a list of the level-100 keys that int() accepts, each such key listed exactly once, so an id read from two keys comes back twice |
| Rbac.ListsAdminsStep | core/rbac.py:149-154 | looking at one more registry key keeps the list exactly one id per superadmin key seen so far |
| Rbac.RbacEngine.Persist | core/rbac.py:206-224 | a save records the current registry |
| Rbac.RbacEngine.SetUserLevel | core/rbac.py:95-128 | only the id's entry changes, it gets the created or updated entry, the id then reads at that level, and the registry is saved once |
| Rbac.RbacEngine.SyncSuperAdmin | core/rbac.py:158-204 | the id's entry becomes the synced level-100 entry, and the registry is saved iff that changed something |
| Rbac.CopyMetadata | core/rbac.py:113-115 | the metadata copy loop computes the merge |
| Rbac.RefreshMetadata | core/rbac.py:198-201 | the refresh loop computes the merge and reports a change iff some supplied key differs |
| Rbac.UnknownIdIsLevelZero | core/rbac.py:130-144 | an unregistered id reads as level 0 with the level-0 role's name and actions |
| Rbac.PermissionAgreesWithActions | core/rbac.py:82-93 | for a non-super-admin, has_permission holds iff get_user_actions lists the action or the wildcard |
| Rbac.WildcardGrantsAll | core/rbac.py:87-88 | the wildcard action grants every action |
| Registry.CommandRegistry.constructor | bot/registry.py:98-103 | the registry starts empty |
| Registry.CommandRegistry.Register | bot/registry.py:107-133 | registering binds the command to its entry (last registration wins) and leaves other commands alone |
| Registry.CommandRegistry.Get | bot/registry.py:137-139 | get finds an entry iff the command is registered, and returns that entry |
| Registry.CommandRegistry.Entries | bot/registry.py:141-143 | entries returns the whole table |
| Registry.CommandRegistry.Dispatch | bot/registry.py:145-164 | an unknown command calls nothing and returns false; a known one calls its handler once, with the RBAC handle iff needs_rbac, and returns true |
| Handlers.ExtractUserMetadata | bot/handlers.py:165-172 | the metadata is exactly the sender's profile fields that are present, never is_special |
| Handlers.SendAlerts | bot/handlers.py:69-71 | one alert per listed admin, in list order |
| Handlers.AlertsOfAdmins | bot/handlers.py:69-71 | the alerts go one per superadmin key, each to the id read from its key |
| Handlers.HandleStart | bot/handlers.py:25-71 | a known id only gets a welcome back; a new id is registered at level 0 with its name and profile, saved, welcomed as pending, and every super-admin is alerted |
| Handlers.ExtractedMetadataIs | bot/handlers.py:165-172 | any map holding exactly the present profile fields is the extracted metadata |
| Handlers.HelpRowsExactlyPermitted | bot/handlers.py:79-82 | in a table of distinct commands, a command's button is shown iff the id holds its action |
| Handlers.CommandPermissionsDistinct | bot/handlers.py:14-21 | the command table names each command once |
| Handlers.HelpMenuShowsPermitted | bot/handlers.py:79-82 | the /help menu shows a command iff the user holds its permission |
| Handlers.HelpRowsFromTable | bot/handlers.py:79-82 | every row of the menu is the button of some table command |
| Handlers.HandleHelp | bot/handlers.py:74-89 | /help sends the one message HelpReply describes: the permitted buttons in table order, or the no-commands notice when none is permitted (HelpMenuShowsPermitted) |
| Handlers.PermissionsText | bot/handlers.py:100 | no actions read "None"; a single action reads as itself |
| Handlers.HandleStatus | bot/handlers.py:92-108 | /status sends one report of the id's role name, level and actions, as StatusReply describes |
| Handlers.HandleStop | bot/handlers.py:111-115 | /stop sends one session-ended message to the chat |
| Handlers.HandleKick | bot/handlers.py:118-162 | the calls are KickOutcome of the sender's kick_user permission, the text and the API's answer |
| Handlers.KickOutcomeChecks | bot/handlers.py:127-162 | the permission, then the argument count, then the integer are checked, each failure with its own message; a kick request is issued iff all pass, followed by "kicked" when the API says ok, the API's description (else "Unknown error") when it refuses, or "failed to reach" when it cannot be reached |
| Callbacks.BuildSyntheticMessage | bot/callbacks.py:16-25 | the synthetic message is in the pressed message's chat, from the presser, with message id defaulting to 0 and the given text |
| Callbacks.RouteCallback | bot/callbacks.py:44-55 | approval iff the data has a colon and an approval verb before it; command iff not approval and it starts with "/" |
| Callbacks.HandleApprovalCallback | bot/callbacks.py:83-120 | the answer and registry follow the verdict: an unparsable target or a missing manage_users permission changes nothing; approve and promote set levels 10 and 50 and save; reject only reports |
| Callbacks.HandleCommandCallback | bot/callbacks.py:58-80 | the press is acknowledged, the registered handler is called with a synthetic message, and an unknown command gets an "Unknown command" message |
| Callbacks.HandleCallbackQuery | bot/callbacks.py:28-55 | every press is answered first; the calls, the handler call and the registry are those of CallbackActions, CallbackCall and CallbackUsers: a press without sender or chat is only answered; an approval press follows its verdict; a command press is acknowledged and runs the registered handler with the synthetic message and the RBAC handle iff needs_rbac, or reports "Unknown command"; anything else gets a bare answer |
| Callbacks.EveryPressAnswered | bot/callbacks.py:28-55 | the first call of every press answers that press's own callback id |
| Callbacks.OnlyPermittedApprovalChangesUsers | bot/callbacks.py:96-114 | only an approve or promote press by someone holding manage_users changes the registry |
| Callbacks.ButtonDataRoundTrip | bot/callbacks.py:87-94 | splitting a button's data at the first colon gives back its verb and its user id |
| Callbacks.ButtonVerdict | bot/callbacks.py:44-46 | an approval button routes to approval and yields the verb's verdict for its user, or a refusal |
| Callbacks.AlertButtonsReachApproval | bot/handlers.py:52-62 | the three alert buttons route to the approval flow with approve, promote and reject of the new user |
| Callbacks.AlertButtonLevels | bot/callbacks.py:102-114 | the approve and promote buttons set the new user to levels 10 and 50 |
| Callbacks.InvalidTargetBeforePermission | bot/callbacks.py:87-100 | an unparsable target is rejected before the permission is consulted |
| Dispatcher.CommandOf | bot/dispatcher.py:55-66 | a command is recognised only in text starting with "/" |
| Dispatcher.HelpCommandsAreRouted | bot/dispatcher.py:55-64 | every command /help offers is routed, when typed, to its own handler |
| Dispatcher.CallbackWins | bot/dispatcher.py:30-35 | a callback query is handled whatever message the update also carries |
| Dispatcher.EditedChannelPostOnlySkipped | bot/dispatcher.py:37-50 | an update carrying only edited_channel_post is skipped, because get_identity ignores it |
| Dispatcher.RoutedMessageIsIdentityMessage | bot/dispatcher.py:37-52 | a routed command acts on the message the identity came from, and for that sender |
| Dispatcher.ProcessUpdate | bot/dispatcher.py:26-66 | a callback has exactly the callback handler's effect; skipped and unmatched updates change nothing; /start welcomes a known id back, or registers a new id at level 0, saves and alerts every super-admin; /help, /status, /stop and /kick produce exactly their handlers' calls and leave the registry alone |
| Dispatcher.Run | bot/dispatcher.py:69-94 | after any run of polls the offset is the polling offset function of those polls |
| Dispatcher.ProcessBatch | bot/dispatcher.py:92-94 | processing one ok answer moves the offset one past each update in turn |
| Dispatcher.ProcessUpdateAsWritten | bot/dispatcher.py:55-64 | as written, the un-awaited handler calls make no outbound call and leave the registry untouched, whatever the route |
| Dispatcher.StatusSampleIsAnswered | bot/dispatcher.py:59-60 | a typed /status with a chat is routed to handle_status, whose reply is one message |
| Dispatcher.RunAsWritten | bot/dispatcher.py:83-84 | as written, the first poll raises, so no update is processed and the offset stays None |
| Dispatcher.OnePollMovesOffset | bot/dispatcher.py:92-94 | one ok answer with one update moves the offset past that update |
| Polling.OffsetAfterUpdates | bot/dispatcher.py:92-94 | processing a batch leaves the offset one past the last update's id, or unchanged for an empty batch |
| Polling.FailedPollKeepsOffset | bot/dispatcher.py:84-87 | a poll that is not ok does not move the offset |
| Polling.OffsetIsLastDeliveredPlusOne | bot/dispatcher.py:82-94 | the offset is one past the last update any ok poll delivered, or the start offset when none did |
| Config.ParseSuperAdmins | config.py:28-44 | the token loop returns the parsed ids of the setting |
| Config.NoSettingNoAdmins | config.py:33-34 | an unset or empty setting gives no super-admins |
| Config.PresentMembership | config.py:40-43 | an id is kept iff some token reads as it |
| Config.PresentAppend | config.py:36-44 | the ids of two token runs are the ids of each, in order |
| Config.PresentLength | config.py:36-44 | at most one id per token |
| Config.TokenIdsMembership | config.py:36-43 | an id is read iff some token strips to that integer |
| Config.SuperAdminsMembership | config.py:28-44 | an id is a super-admin iff the setting is non-empty and some comma-separated token reads as it |
| Config.SuperAdminsRoundTrip | config.py:28-44 | writing any list of ids comma-separated and parsing it gives back the same ids in the same order |
| LegacyIam.EntityLevelIn | chitragupt_iam.py:73-78 | an unknown entity has level 0 |
| LegacyIam.CanPerformIn | chitragupt_iam.py:56-71 | an unknown action or an unknown entity is refused |
| LegacyIam.UpdatedEntity | chitragupt_iam.py:80-93 | the entity gets the new level, keeps its name or is named (name or id), and a negative id is marked special |
| LegacyIam.IdentifyEntityIsGetIdentity | chitragupt_iam.py:31-54 | identify_entity resolves the same principal as get_identity |
| LegacyIam.ChitraguptIam.constructor | chitragupt_iam.py:8-29 | the model starts from the loaded rules and entities, with nothing saved |
| LegacyIam.ChitraguptIam.UpdateEntityLevel | chitragupt_iam.py:80-96 | only the entity's record changes, it then reads at the new level, and the registry is saved once |
| LegacyIam.CanPerformAfterUpdate | chitragupt_iam.py:56-96 | after an update the entity may do exactly the known actions its new level reaches |
| LegacyIam.UpdateLeavesOthers | chitragupt_iam.py:80-96 | an update leaves every other entity's level and permissions alone |
| LegacyIam.CanPerformMonotone | chitragupt_iam.py:70-71 | raising a level never removes a permission |
| LegacyBot.HandlePromote | bot.py:37-65 | exactly one reply, chosen by the outcome; the registry changes and is saved only for a successful promotion, and then exactly as update_entity_level says |
| LegacyBot.DeniedWhateverTheText | bot.py:44-46 | the permission is checked before the text is read |
| LegacyBot.PromoteStaysBelowSuperAdmin | bot.py:60-65 | /promote never grants level 100 or above, and only a permitted entity promotes |
| LegacyBot.PromoteParsesArguments | bot.py:48-65 | a permitted "/promote id level" with level below 100 promotes exactly that id to exactly that level |
| LegacyBot.ProcessUpdate | bot.py:68-80 | at most one reply; an update without a usable message, identity or /promote text changes nothing; a /promote from an identified sender in a chat gets the reply and registry change of its PromoteDecision outcome |
| LegacyBot.MainLoop | bot.py:83-99 | the polling offset follows the same function as the newer dispatcher's |
| Wiring.HelpButtonAsWritten | bot/callbacks.py:72-80 | with the registry as shipped, every /help button press calls nothing and ends in "Unknown command" |
| Wiring.RegisterCommands | bot/registry.py:107-133 | registering the command table binds every command to its intended handler |
| Wiring.HelpButtonCorrected | bot/callbacks.py:72-80 | with the commands registered, a /help button runs its command's own handler, with the RBAC handle except for /stop and /exit |

## Left out

- Concurrency: the asyncio lock around saves, the atomic temp-file rename and the thread hop of `_save_users` are not modelled. A save appends a snapshot to `persisted`.
- Logging is left out everywhere.
- Network I/O: `send_message`, `answer_callback_query`, `getUpdates` and `kickChatMember` become `Action` values. The kick reply is a parameter.
- Message wording, emoji and HTML formatting are not modelled. Each text is a `Notice` constructor carrying the values it shows.
- The polling loops' sleep, retries and endlessness: `Run` and `MainLoop` take a finite list of poll answers.
- The `BOT_TOKEN` check and the sdk package are not part of this model.
- In bot/dispatcher.py the handlers and `get_updates` are coroutines called without `await`; `run` raises at line 84 on its first poll. `Dispatcher.ProcessUpdate` and `Dispatcher.Run` model the awaited calls; `Dispatcher.ProcessUpdateAsWritten` and `Dispatcher.RunAsWritten` model the code as it stands (see Findings).
- JSON `null` is treated like an absent key, so a payload whose only keys hold `null` is falsy in the model though truthy in Python.
- Python's `int()` leniency is not modelled: `ParseInt` accepts an optional sign and ASCII digits only, without surrounding whitespace or other Unicode digits.
- Rbac.RbacEngine.GetSuperadmins: states which id is read from which key and that each key is read once, not the order of the list, because the registry is a map and dict insertion order is not modelled.
- Registry handler bodies are opaque. `Dispatch` returns an `Invocation` record instead of running the handler.
- The registry's process-wide singleton (`__new__`) and its decorator form are not modelled. Each `CommandRegistry` is one instance, and `Register` takes the handler directly.
- A message without `chat.id` would raise `KeyError` in every handler. The dispatchers model that as no effect, and the handlers require a chat id.
- A `users.json` without the `entities` key would raise in chitragupt_iam.py. The model always has an entity map.
- File reads at start-up are modelled by `Rbac.LoadTables` over already-decoded sources; JSON decoding itself is not modelled.

## Findings

| source | as written | input that shows it | evidently intended | confidence | as-written member | corrected member |
|---|---|---|---|---|---|---|
| bot/dispatcher.py:55-64 | `process_update` calls the coroutine handlers (`handle_start` … `handle_kick`, and `handle_callback_query` at line 34) without `await`, so each call only creates a coroutine that never runs | user 7 typing "/status" in chat 7 | `handle_status` runs and sends the status report | high; not executed | Dispatcher.ProcessUpdateAsWritten | Dispatcher.ProcessUpdate |
| bot/dispatcher.py:83-84 | `get_updates` (a coroutine function in bot/telegram.py:28) is called without `await`, so `data.get("ok")` raises `AttributeError` on a coroutine object at the first poll | one ok answer carrying one update | the update is processed and the offset moves past it | high; not executed | Dispatcher.RunAsWritten | Dispatcher.Run |
| bot/callbacks.py:72-80 | `_handle_command_callback` dispatches through the shared `registry` of bot/registry.py:167, but no module in this snapshot registers any command into it | pressing the "/status" button of the /help menu | the button runs `handle_status`, as typing /status does | medium; not executed | Wiring.HelpButtonAsWritten | Wiring.HelpButtonCorrected |
