# Sentinel command core in Dafny

This project models the command core of Sentinel, a chat-moderation bot, and proves
properties of that model. Every incoming message goes through the `message` event. The event
picks the guild's prefix, exempts staff from automatic moderation, resolves the command in the
registry and checks the bot's and the actor's permissions. It then runs the handler and routes
any error back to the chat. Around this pipeline the model covers:

- the per-guild configuration: the row cache and its `patch`, the `edit` row builder, the getters and the read-through `fetchConfig`;
- the interactive `settings setup` loop in both revisions: the seven-item schema, the rewound counter, skips, timeout and batched cleanup;
- the type-directed `resolveValue`/`validateValue` pair and the single-key `settings edit`;
- the resolution helpers: role, channel, property path, mention extraction and manageability;
- mention-aware argument tokenisation;
- command metadata and the reply function;
- the SQL placeholder formatter;
- help pagination;
- the ban and kick guard chains;
- the error and response templates.

There is one Dafny module per source file. The older revision of a file gets its own module,
named with a `V1` suffix, next to the current one. The chat platform is data:
- guilds, roles, channels and members are values in maps;
- permission bitmasks are sets of flags;
- the platform's calls become parameters of the operations;
- sends, deletions, bans and database writes become effects returned in order.

Where the source mutates an object in place, the model does too: the guild's config cache,
its `GuildConfig`, the last-reply record of a message, the command registry and the database
rows are classes. Each of their methods is proved against a function of the old state.
The loops that update variables (`setup`, `omitObject`, `getProp`, `extractMentions`,
`cleanContent`, `sortCommands`, `paginateCommands`, `resolveCommand`, the dispatch pipeline)
are methods with loop invariants. Each is proved equal to a specification function, and
the lemmas are stated about those functions.

Revisions. The current revision lives under `src/`. The older revision lives at the repository
root (`commands/admin/settings.ts`, `events/message.ts`, `util/index.ts`). The older files
are modelled where they differ from the current ones. Lemmas such as
`SettingsV1.OnlyDevelopersGained`, `DispatchV1.RevisionsDifferOnAnswers` and
`SettingsV1.RevisionsAgreeOnStrings` relate the two revisions.

Where the code does something a reader might not expect, the model follows the
code and a lemma states the behaviour:

- The bot's guild-wide permission result is overwritten by the channel result whenever the
  channel part of the mask is not empty (`Dispatch.ChannelOverwritesGuild`,
  `Dispatch.GuildFailureOverwritten`). The check that both parts pass is therefore not what
  the code does.
- On a timeout the setup deletes every recorded message in one call, not in batches of 100
  (`SettingsSetup.TimeoutDeletesRecorded`).
- On completion the batching loop leaves its last 1 to 100 ids undeleted
  (`SettingsSetup.BatchesCover`).
- The role-list parser maps each piece to the first role mentioned anywhere in the message,
  so a list of mentions collapses to copies of one role (`Settings.MentionedRoleListCollapses`).
- In both revisions a boolean answer `Y` passes the y/n filter but is stored as false
  (`SettingsSetup.CapitalYStoresFalse`).

## Model

| member | source | states |
|---|---|---|
| Constants.NoPermission | util/Constants.ts:20 | the given message is the text; without one it is the fixed refusal |
| Constants.InvalidModeShape | util/Constants.ts:22-26 | the text starts with "Mode `x`" when a non-empty mode was provided, else with "Please provide a mode for this command", and ends with a full stop |
| Constants.InvalidModeListsEveryMode | util/Constants.ts:22-26 | every offered mode occurs back-ticked in the text |
| Constants.NoImplementation | util/Constants.ts:11-14 | two lines, the first the fixed head |
| Constants.NoImplementationListsEveryArg | util/Constants.ts:11-14 | every argument occurs back-ticked in the second line |
| Constants.Hastebin | util/Constants.ts:30 | an empty id gives the base URL; any other id gives the base URL, a slash and the id |
| Constants.PasteIdRoundTrip | util/Constants.ts:30 | the id is recovered from the URL built for it, as what follows the base and the slash |
| SentinelErrors.NewInvalidType | src/structures/SentinelError.ts:2-23 | code INVALID_TYPE and the message "Supplied p is not e" |
| SentinelErrors.NewPropertyDoesntExist | src/structures/SentinelError.ts:3-23 | code PROPERTY_DOESNT_EXIST and the message naming the property and the dot-joined path |
| SentinelErrors.NameDeterminesClassAndCode | src/structures/SentinelError.ts:25-27 | the name `Base [CODE]` identifies the error class and the code |
| SentinelErrors.PropertyPathRecoverable | src/structures/SentinelError.ts:3 | a path of dot-free segments is recovered from the message |
| CommandErrors.RenderError | util/Constants.ts:19-27 | NO_PERMISSION and SAY_NO_ARGS render their texts; other keys stay the named template applied to the extras |
| CommandErrors.NewCommandError | src/structures/CommandError.ts:11-26 | name is the key, dmError false; a leading reply function becomes `send` and is dropped from the template arguments; otherwise `send` is absent and all extras reach the template |
| CommandErrors.SendArgOnlyBinds | src/structures/CommandError.ts:17-25 | a leading reply function does not change the message rendered from the remaining extras |
| CommandErrors.Dm | src/structures/CommandError.ts:28-31 | sets dmError and keeps name, message and send |
| CommandErrors.CommandErrorObject.constructor | src/structures/CommandError.ts:11-26 | the new object holds the error the construction rule gives |
| CommandErrors.CommandErrorObject.MarkDm | src/structures/CommandError.ts:28-31 | returns the same object, now marked as a direct-message error |
| Util.OmitObject | src/util/index.ts:15-24 | the loop builds exactly the entries whose key is not omitted |
| Util.WithoutMembers | src/util/index.ts:15-24 | an entry survives iff it was present and its key is not omitted |
| Util.AwaitResponse | src/util/index.ts:59-78 | the first arrival within the time limit that is by the author and passes the answer filter, else none; without options the filter is `*` and the limit three minutes |
| Util.ResolveRole | src/util/index.ts:80-85 | the first mentioned role, else the role with that id, else the first role whose lower-cased name equals the key, else none |
| Util.ResolveChannel | src/util/index.ts:87-99 | a mentioned or id-named channel is returned only if its kind is allowed, with no name fallback; otherwise the first allowed channel with that lower-cased name |
| Util.ResolvedChannelHasAllowedType | src/util/index.ts:87-99 | a resolved channel always has an allowed kind |
| Util.OwnerManagesEveryone | src/util/index.ts:167-173 | the owner can manage every member |
| Util.OwnerManagedOnlyByOwner | src/util/index.ts:167-173 | nobody else can manage the owner |
| Util.ManageabilityTotal | src/util/index.ts:167-173 | among non-owners, manageability is `actor.highest >= target.highest`, so equal positions manage each other |
| Util.GetProp | src/util/index.ts:101-124 | the walk computes the specification of the traversal, with `['token']` as the default omit list |
| Util.GetPropReturnsReached | src/util/index.ts:101-124 | a success returns the value reached along the path, cut short before the first omitted key after the first one |
| Util.GetPropErrorNamesStep | src/util/index.ts:101-124 | a failure is PROPERTY_DOESNT_EXIST naming the step that was not an object, or the undefined last step, with the path walked so far |
| Util.ExtractMentions | src/util/index.ts:129-165 | the loop computes the specified scan; a success has a `members` list exactly in guild mode |
| Util.ScanShape | src/util/index.ts:130-141 | the scan consumes a prefix of the tokens, within the limit, made of mentions and at most one final empty token; it stops at the end, at the limit, after the empty token or before a non-mention; the rest is left in order and every user it fetched is recorded |
| Util.ScanFailure | src/util/index.ts:143-158 | a failure happens at a mention token; UNKNOWN_USER becomes the command error carrying that id, and any other error except UNKNOWN_MEMBER is rethrown |
| UtilV1.ExtractMention | util/index.ts:120-135 | a limit other than 1 throws null; no first token is a type fault; otherwise the content drops the first token and user and member come from its snowflake, with fetch errors swallowed |
| Arguments.CleanContent | src/util/CommandArguments.ts:4-30 | the lower-cased content split on spaces, each token cleaned of its mentions |
| Arguments.NewCommandArguments | src/util/CommandArguments.ts:39-43 | positional args and `regular` have the same length |
| Arguments.ArgumentsAligned | src/util/CommandArguments.ts:39-43 | both lists drop the command token; `regular` keeps case; a mention-free token is its lower-cased regular token |
| Arguments.SliceKeepsAlignment | src/util/CommandArguments.ts:45-49 | `slice` cuts both lists with one range and keeps them aligned |
| Arguments.PlainTokenUnchanged | src/util/CommandArguments.ts:27 | a token without a mention passes unchanged |
| Arguments.MatchAtMention | src/util/CommandArguments.ts:3 | the mention pattern matches a well-formed mention with a 17 to 19 digit id |
| Arguments.MentionInsidePlainText | src/util/CommandArguments.ts:3 | a mention inside plain text is the only match |
| Arguments.TextAroundMentionDropped | src/util/CommandArguments.ts:6-26 | a token holding a mention becomes only the mention's rendering |
| Arguments.UnresolvedMentionVerbatim | src/util/CommandArguments.ts:11-23 | an unresolved mention is re-emitted as written |
| Arguments.WrongLengthIdIsNoMention | src/util/CommandArguments.ts:3 | a mention written with fewer than 17 or more than 19 digits is no mention: the token passes through unchanged |
| Messages.TrackedMessage.SetLastCommand | src/client/structures/Message.ts:8-20 | the first call creates the record with 0 edits; later calls overwrite it and add one edit |
| Messages.RecordCountsEdits | src/client/structures/Message.ts:8-20 | after n ≥ 1 calls the record holds the last command and response and n-1 edits |
| Messages.Invites | src/client/structures/Message.ts:22-25 | none when nothing matched; otherwise the last `/`-segment of each match, in order |
| Messages.LastSegmentIsSlashFreeSuffix | src/client/structures/Message.ts:24 | the segment is a slash-free suffix of the match: the whole match when it has no slash, and otherwise what follows its last slash |
| BaseCommand.MakeCommand | src/util/BaseCommand.ts:19-39 | aliases, usage and dmAllowed take their defaults; a falsy permission is absent; the bot mask is built by the clientPermissions rule |
| BaseCommand.ClientPermissions | src/util/BaseCommand.ts:31-37 | a zero Permissions object gives null and a non-zero one is kept as is; any other input gives its mask plus SEND_MESSAGES |
| BaseCommand.AdministratorImpliesSendMessages | src/util/BaseCommand.ts:34-36 | an administrator mask already has SEND_MESSAGES and is kept unchanged |
| BaseCommand.HasPermissions | src/util/BaseCommand.ts:41-52 | no permission allows; a predicate gets the guild or direct-message arguments, and `hasPermissions` throws exactly when the predicate throws, else gives its answer; a mask is checked on the member, and throws without one |
| BaseCommand.PrepareReply | src/util/BaseCommand.ts:89-97 | a string naming a response template becomes the template output without options; other content passes unchanged |
| BaseCommand.Send | src/util/BaseCommand.ts:76-106 | edits the previous reply when there is one, else sends; then records the response on the message |
| Registry.SentinelClient.ResolveCommand | src/client/SentinelClient.ts:43-58 | the loop computes the name-then-alias resolution |
| Registry.ExactNameWins | src/client/SentinelClient.ts:46 | an exact name match wins with no alias |
| Registry.FirstAliasWins | src/client/SentinelClient.ts:47-57 | otherwise the first command in registry order with that alias wins, reporting the alias |
| Registry.ResolveNothing | src/client/SentinelClient.ts:44-57 | no command exactly when no name and no alias matches; an alias is reported only on an alias match |
| Registry.CaseSensitive | src/client/SentinelClient.ts:46-49 | in any registry, a name resolves to its command while its lower-case form, when it differs and nothing else is written that way, resolves to nothing |
| Registry.Insert | src/client/SentinelClient.ts:78 | a new name is appended; an existing name's entry is replaced in place |
| Registry.InsertReplaces | src/client/SentinelClient.ts:78 | after an insert the name finds the inserted command, every other name finds what it found before, and names stay unique |
| Registry.LaterNameReplaces | src/client/SentinelClient.ts:60-81 | a later command with a taken name replaces the earlier one |
| Registry.Categorised | src/client/SentinelClient.ts:73-77 | the category is the parent folder unless it is `commands` |
| Registry.SentinelClient.LoadCommands | src/client/SentinelClient.ts:60-81 | the registry is the ordered name-keyed insertion of the loaded commands |
| Registry.RuntimeConfig | src/client/SentinelClient.ts:30 | the runtime config is the input without `database`, `token` and `channels` |
| Database.OwnIffKey | src/client/database/DatabaseManager.ts:21 | a parameter object has an own property exactly when one of its entries has that key |
| Database.FormatPlaceholder | src/client/database/DatabaseManager.ts:19-26 | `:key` becomes the escaped value of an own key, null included, and stays verbatim otherwise |
| Database.FormatReplacesPlaceholder | src/client/database/DatabaseManager.ts:19-26 | a placeholder between non-word text is replaced in place |
| Database.FormatWithoutValues | src/client/database/DatabaseManager.ts:19-26 | with no values the statement is unchanged |
| Database.InsertColumnsReadBack | src/client/database/DatabaseManager.ts:12-17 | the column list of the insert, read up to the first `)` and split on `, `, gives back the data's keys in order when no key holds a comma or `)` |
| Database.PrepareQuery | src/client/database/DatabaseManager.ts:38-48 | one object, or two params whose second is not `true`, format and clear the params; `INSERT` builds the insert; anything else passes through |
| Database.SkipFormatPassesThrough | src/client/database/DatabaseManager.ts:40-44 | a `true` second param skips formatting |
| Json.DecodeEncode | src/structures/GuildConfig.ts:7 | a stored role-id list decodes to itself |
| Json.EncodeInjective | src/structures/GuildConfig.ts:84-95 | different role-id lists are stored differently |
| GuildConfigs.Patched | src/structures/GuildConfig.ts:29-38 | each field updated iff its raw key is present; role lists parsed, `auto_mod` normalised; a bad role column throws |
| GuildConfigs.PatchNothing | src/structures/GuildConfig.ts:29-38 | an empty row changes nothing |
| GuildConfigs.PatchKeepsAbsentFields | src/structures/GuildConfig.ts:29-38 | every absent field keeps its previous value |
| GuildConfigs.GuildConfig.constructor | src/structures/GuildConfig.ts:21-27 | a new config is the unset config patched with the row |
| GuildConfigs.GuildConfig.Patch | src/structures/GuildConfig.ts:29-38 | the object's new state is the patch of its old state |
| GuildConfigs.RolesOf | src/structures/GuildConfig.ts:44-52 | null without guild or ids; otherwise one entry per id, the cached role or null |
| GuildConfigs.ChannelOf | src/structures/GuildConfig.ts:54-67 | null without guild or id; a result is that guild's channel with that id |
| GuildConfigs.GettersNeedGuild | src/structures/GuildConfig.ts:40-67 | without a cached guild every getter gives null |
| GuildConfigs.PrefixColumn | src/structures/GuildConfig.ts:72-75 | written iff supplied or fillNull; the default prefix and a falsy one are written as null |
| GuildConfigs.RolesColumn | src/structures/GuildConfig.ts:77-97 | written iff supplied or fillNull; a falsy list is null; an unresolvable role throws INVALID_TYPE; otherwise the JSON of the ids in order |
| GuildConfigs.ChannelColumn | src/structures/GuildConfig.ts:99-130 | written iff supplied or fillNull; a channel that is not a text channel of the guild throws INVALID_TYPE; otherwise its id |
| GuildConfigs.AutoModColumn | src/structures/GuildConfig.ts:132-134 | written iff a boolean was supplied or fillNull; the value is 1 for true, else 0 |
| GuildConfigs.EditRowColumns | src/structures/GuildConfig.ts:69-134 | the row holds exactly the columns the column rules write |
| GuildConfigs.FillNullWritesEverything | src/structures/GuildConfig.ts:69-134 | fillNull with no data writes every column, nulls and auto_mod 0 |
| GuildConfigs.UnresolvedModRoleThrows | src/structures/GuildConfig.ts:77-86 | an unresolvable mod role throws before any write |
| GuildConfigs.EditRowParses | src/structures/GuildConfig.ts:69-140 | the built row always patches without throwing |
| GuildConfigs.EditedModRolesRoundTrip | src/structures/GuildConfig.ts:77-86 | after `edit` the cache holds exactly the resolved mod role ids in input order |
| GuildConfigs.DefaultPrefixStoredAsNull | src/structures/GuildConfig.ts:72-75 | editing the prefix to the default leaves no custom prefix |
| GuildConfigs.GuildConfig.Edit | src/structures/GuildConfig.ts:69-142 | one UPDATE with the built row, then the cache is patched with exactly that row; an invalid reference throws before the UPDATE |
| GuildConfigs.ConfigStore.Select | src/client/structures/Guild.ts:10-12 | logs the select and returns the row by id |
| Guilds.TrackedGuild.FetchConfig | src/client/structures/Guild.ts:8-20 | a cached config without force is returned with no query; otherwise one SELECT, an INSERT of the bare id when missing, and the cache replaced by the returned config |
| Guilds.BareRowSetsOnlyTheId | src/client/structures/Guild.ts:14-17 | a config built from the bare row has only its guild id set |
| Settings.OnlyTheBooleanItemIsRequired | src/commands/admin/settings.ts:28-69 | of the seven items only the boolean one is not optional |
| Settings.SettingsPermission | src/commands/admin/settings.ts:77-86 | administrator allows; no cached config gives null; a developer or admin-role holder is allowed; otherwise the Server Admin text |
| Settings.SettingsCheck | src/commands/admin/settings.ts:76-86 | the declared predicate: in a guild it answers SettingsPermission for the member and throws without one; given the author of a direct message, which has no `hasPermission`, it always throws |
| Settings.RunMode | src/commands/admin/settings.ts:92-108 | no arg or `view` views; `setup` and `edit` route, `edit` with the arguments after the first; anything else is INVALID_MODE listing the three modes |
| Settings.UnknownModeRefused | src/commands/admin/settings.ts:104-107 | any other mode is refused with INVALID_MODE |
| Settings.Question | src/commands/admin/settings.ts:117-145 | two lines, plus the skip hint for an optional item; the second is the description |
| Settings.AllowedAnswers | src/commands/admin/settings.ts:118-121 | a boolean item accepts only y/n, every other item anything |
| Settings.ResolvedString | src/commands/admin/settings.ts:208-219 | an empty input falls back to the content; a string over the maximum gives null, otherwise itself |
| Settings.ResolvedBoolean | src/commands/admin/settings.ts:220-221 | true iff the text is exactly y, yes, enable or enabled |
| Settings.ResolvedRole | src/commands/admin/settings.ts:223-228 | the role the text resolves to, else null |
| Settings.ResolvedRoles | src/commands/admin/settings.ts:229-243 | the list split on commas resolves piece by piece; null if any piece fails or the count exceeds the maximum |
| Settings.MentionedRoleListCollapses | src/commands/admin/settings.ts:230-234 | with a role mention in the message every piece resolves to that first role |
| Settings.ResolvedChannelOfAllowedKind | src/commands/admin/settings.ts:244-252 | a channel id only for a channel of an allowed kind |
| Settings.ValidateValueAccepts | src/commands/admin/settings.ts:257-283 | a value is accepted, except a channel the bot cannot post in |
| Settings.ValidateValueRefusesNull | src/commands/admin/settings.ts:257-283 | null gives the type-specific message plus the suffix |
| Settings.AnswersNeverThrow | src/commands/admin/settings.ts:257-283 | validating a resolved answer never reaches the `throw null` for a null boolean |
| Settings.JudgeStoresValid | src/commands/admin/settings.ts:170-176 | an answer is stored iff it resolves and validates, and then the resolved value |
| Settings.ResolvedValuesFit | src/commands/admin/settings.ts:170-176 | a resolved value has the type of its key |
| Settings.FindSetting | src/commands/admin/settings.ts:191-194 | the item whose lower-cased key is the first argument, if any |
| Settings.EditSetting | src/commands/admin/settings.ts:190-206 | an unknown key throws INVALID_SETTING with the key list; an invalid value throws CUSTOM_MESSAGE; otherwise the one key is edited without fillNull |
| Settings.EditWritesOneKey | src/commands/admin/settings.ts:202-204 | the edit row holds only that key's column |
| SettingsSetup.RunSetup | src/commands/admin/settings.ts:110-188 | the loop computes the setup specification: questions, answers, retries, skips, timeout, one edit and the cleanup |
| SettingsSetup.AskItem | src/commands/admin/settings.ts:138-159 | one question and wait is one step of the specification |
| SettingsSetup.HandleAnswer | src/commands/admin/settings.ts:160-176 | skip, store or retry of one answer as the specification says |
| SettingsSetup.StepAdvances | src/commands/admin/settings.ts:160-176 | the index advances iff the answer skips or is stored; a refusal re-asks the same item with the values unchanged and records the retry message |
| SettingsSetup.TimeoutDeletesRecorded | src/commands/admin/settings.ts:154-159 | a timeout deletes only the ids recorded before the question and cancels |
| SettingsSetup.SetupEditsOnce | src/commands/admin/settings.ts:154-179 | a completed setup edits once with fillNull; a timed-out one never edits |
| SettingsSetup.SetupNeverThrows | src/commands/admin/settings.ts:110-188 | the setup never throws |
| SettingsSetup.DeleteBatches | src/commands/admin/settings.ts:181-186 | the splice loop deletes the batches of the batching rule |
| SettingsSetup.BatchesCover | src/commands/admin/settings.ts:181-186 | up to 100 ids are deleted at once; more are deleted 100 at a time and the last 1 to 100 are left |
| SettingsSetup.CapitalYStoresFalse | commands/admin/settings.ts:104-169 | the answer `Y` passes the y/n filter and stores false |
| SettingsV1.OriginalPermission | commands/admin/settings.ts:74-80 | administrator allows; no config gives null; an admin-role holder is allowed; otherwise the Server Admin text |
| SettingsV1.OnlyDevelopersGained | commands/admin/settings.ts:74-80 | the later predicate differs only for developers, and never refuses what this one allows |
| SettingsV1.OriginalRunMode | commands/admin/settings.ts:84-94 | no arg or `view` views, `setup` sets up, anything else is ignored |
| SettingsV1.UnknownModeIgnored | commands/admin/settings.ts:90-94 | an unknown mode, `edit` included, is ignored without an error |
| SettingsV1.JudgeInlineStores | commands/admin/settings.ts:156-204 | the inline judgement never throws and stores only values of the item's type |
| SettingsV1.InvalidRoleBeforeCount | commands/admin/settings.ts:179-193 | an invalid piece is refused as invalid before the count is checked |
| SettingsV1.InlineStringBound | commands/admin/settings.ts:160-167 | a string is stored iff within the maximum, as the content itself |
| SettingsV1.RevisionsAgreeOnStrings | commands/admin/settings.ts:160-167 | both revisions decide a string answer alike |
| Dispatch.RouteError | src/events/message.ts:85-96 | a command error goes via its send, else to the DM or channel by dmError; any other error is emitted and answered with "name: message" |
| Dispatch.EffectivePrefix | src/events/message.ts:30-33 | the config's prefix when truthy, else the default |
| Dispatch.GuildPart | src/events/message.ts:7-19 | the guild-wide part is exactly the required flags in GUILD_PERMISSIONS |
| Dispatch.Dispatch | src/events/message.ts:23-97 | bot messages and empty content do nothing; a bare bot mention that reaches the test gets only the prefix reply |
| Dispatch.MessageEvent.Handle | src/events/message.ts:23-97 | the early-return pipeline computes the dispatch, fixing the mention pattern on first use |
| Dispatch.Check | src/events/message.ts:60-84 | the bot and actor checks compute the authorisation stage |
| Dispatch.RunsExactlyWhenAllowed | src/events/message.ts:24-84 | the handler runs iff every stage passes |
| Dispatch.RunsResolvedCommand | src/events/message.ts:53-84 | a run is of the command the lower-cased token resolves to, with the message's arguments and reply function |
| Dispatch.ActorAnswers | src/events/message.ts:77-83 | false throws NO_PERMISSION bound to send; a string is sent as content; null is silent |
| Dispatch.AutoModSparesStaff | src/events/message.ts:34-43 | automod applies only with autoMod set to a member without administrator, mod or admin role, and then removes an invite message and stops |
| Dispatch.NothingElseIsInviteRemoved | src/events/message.ts:99-106 | only automod removes invites |
| Dispatch.NoStageRemovesInvites | src/events/message.ts:62-84 | the later stages never remove invites |
| Dispatch.ChannelOverwritesGuild | src/events/message.ts:62-72 | with a channel part the result is the channel check alone; without one it is the guild-wide check on a non-empty part |
| Dispatch.GuildFailureOverwritten | src/events/message.ts:67-72 | a failed guild-wide check is overwritten by a passing channel check |
| Dispatch.GuildPartSplits | src/events/message.ts:64-67 | the guild-wide and channel parts split the mask |
| Dispatch.EmptyMaskNeverChecked | src/events/message.ts:62-75 | an empty mask would fail, and no command has one |
| DispatchV1.RouteErrorV1 | events/message.ts:43-55 | dmError goes to the author first; others as in the later routing |
| DispatchV1.RoutingDiffersOnlyForBoundDmErrors | events/message.ts:43-50 | the revisions differ only for a dm error that has its own send |
| DispatchV1.DispatchV1 | events/message.ts:7-56 | bot messages, empty content and a guild channel without SEND_MESSAGES do nothing |
| DispatchV1.HandleV1 | events/message.ts:7-56 | the early-return pipeline computes the older dispatch |
| DispatchV1.TruthinessDecides | events/message.ts:30-40 | a falsy answer throws NO_PERMISSION via send; a truthy one runs the command |
| DispatchV1.RevisionsDifferOnAnswers | events/message.ts:30-40 | a refusal text runs the command here, and null refuses here |
| DispatchV1.NoDirectMessageGate | events/message.ts:27-28 | a guild-only command runs in a direct message here, where the later revision ignores it |
| Help.SortCommands | src/commands/general/help.ts:45-56 | groups by category (default general), registry order within a group, groups in order of first appearance |
| Help.FirstOfMeaning | src/commands/general/help.ts:45-56 | a group's position is its first member's position in the registry |
| Help.PaginateCommands | src/commands/general/help.ts:25-43 | throws exactly when checking some command's permission throws (a mask without a member, or a predicate that throws); otherwise pages of at most 6, a new page only after 6, holding exactly the formatted entries of the allowed commands in order |
| Help.OnePageExactlyWhenFew | src/commands/general/help.ts:17-22 | there is one page iff there are at most 6 entries, and it holds all of them |
| Help.RunHelp | src/commands/general/help.ts:16-43 | throws exactly when checking some registered command's permission throws; otherwise HELP_PAGE is sent only for a single page, with at most 6 entries, each of a command allowed exactly |
| Help.ThrowsRegrouped | src/commands/general/help.ts:32-56 | checking the category groups throws exactly when checking the registry throws, since the groups hold every registered command |
| Moderation.GuildOnlyPredicatesThrowInDm | src/util/BaseCommand.ts:44-46 | in a direct message, `help` (which lists every command through `hasPermissions`, help.ts:34) throws whenever ban, kick or settings is registered, because their predicates are handed the author and throw |
| Help.EntriesFromGroups | src/commands/general/help.ts:32-40 | every listed entry is of a registered command whose permission answer is exactly true |
| Moderation.ModPermission | src/commands/moderator/ban.ts:15-21 | null without a cached config; BAN/KICK_MEMBERS or a mod role allows; otherwise the Server Moderator text |
| Moderation.ModCheck | src/commands/moderator/kick.ts:15-21 | the declared predicate: in a guild it answers ModPermission for the member and throws without one; given the author of a direct message, which has no `guild`, it always throws |
| Moderation.AdministratorsModerate | src/commands/moderator/ban.ts:18 | an administrator may ban and kick |
| Moderation.KickFlagDoesNotBan | src/commands/moderator/kick.ts:18 | KICK_MEMBERS alone allows kicking but not banning |
| Moderation.ModeratorRolesServeBoth | src/commands/moderator/ban.ts:19 | a mod-role holder may ban and kick |
| Moderation.Run | src/commands/moderator/ban.ts:27-46 | a missing first argument throws MENTION_MEMBER; any effect is on an accepted target |
| Moderation.RunAsWritten | src/commands/moderator/ban.ts:29-31 | as the call reaches the current extraction, nothing is ever removed: an empty first argument or a successful scan throws MENTION_MEMBER, otherwise the scan's error is thrown |
| Moderation.AsWrittenNeverRemoves | src/commands/moderator/kick.ts:30-31 | wherever the intended call removes an accepted target, the call as written removes nobody and throws |
| Moderation.AsWrittenOtherFaults | src/util/index.ts:149-157 | the call as written throws MENTION_MEMBER, UNKNOWN_USER, or a fetch error other than the two codes the scan handles |
| Moderation.UnfitTargetMentionsMember | src/commands/moderator/ban.ts:31 | a missing target, the author or the bot throws MENTION_MEMBER |
| Moderation.ManageabilityBeforeRemovability | src/commands/moderator/ban.ts:32-33 | an unmanageable target is refused before bannability is checked |
| Moderation.ByBotDistinguishes | src/commands/moderator/ban.ts:32-33 | the two NOT_MANAGEABLE refusals differ exactly by byBot |
| Moderation.AcceptedTargetRemoved | src/commands/moderator/ban.ts:35-45 | an accepted target is removed with the audit reason, logged iff a logs channel exists, then REMOVED_USER is replied |
| Moderation.RemovedExactlyWhenAccepted | src/commands/moderator/kick.ts:29-42 | a target is removed iff it passes every guard |
| Moderation.ReasonNeverBare | src/commands/moderator/ban.ts:37 | the reason is the author tag, ": " and the content or the default reason |
| Moderation.BanAndKickShareGuards | src/commands/moderator/kick.ts:27-43 | ban and kick refuse the same inputs with the same error names |

## Left out

- I/O is left out: the chat platform, the SQL driver and the filesystem. Sends, edits, deletions, bans, kicks and queries are effects or class state. Fetches, awaited replies and timers are parameters or data.
- The bootstrap and the `require`/`readdirRecursive` parts of `loadCommands` and `loadEvents` (src/util/index.ts:26-46) are left out because they are module wiring. `LoadCommands` takes the loaded commands and their file paths as input.
- `connect`, `open` and `close` of the database are driver calls and are left out. `mysql.escape` is an uninterpreted function parameter.
- `awaitResponse` is modelled with `max` 1 and a finite window of arrivals. Waiting itself is not modelled.
- The mention, snowflake and invite patterns are parameters, because their text in src/util/Constants.ts is not part of this model. The same goes for the response templates, `DEFAULT_REASON` and `ModerationTypes`. `CommandArguments`' own mention pattern is written out.
- Templates from src/util/Constants.ts stay symbolic, as the template name applied to its arguments. Only NO_PERMISSION, SAY_NO_ARGS, INVALID_MODE, NO_IMPLEMENTATION, HASTEBIN, HELLO_WORLD and ADDED_CONFIG of util/Constants.ts are rendered.
- The VIEW_CONFIG rendering of `settings view` is a template, so the model records only the send and the forced fetch.
- Moderation.Run: requires a guild and an author member, because the command is guild-only (`dmAllowed: false`) and the pipeline never runs it in a direct message.
- Moderation.Run: models the single-mention call the commands are written against (util/index.ts:120-135), not the call as written; `Moderation.RunAsWritten` models that call (see Findings).
- Moderation.AcceptedTargetRemoved: holds for the intended single-mention call; with the call as written no target is ever accepted (`Moderation.AsWrittenNeverRemoves`).
- Moderation.RemovedExactlyWhenAccepted: holds for the intended single-mention call; with the call as written nothing is ever removed (`Moderation.AsWrittenNeverRemoves`).
- CommandError is a value, so that pure guard chains can raise it. `CommandErrorObject` models the mutating constructor and `dm()` on top of that value.
- The automod deletion delay of 50 ms is left out, and its INVITES_NOT_ALLOWED reply is one recorded effect.
- The eval, lookup and thin template commands, together with the log-forwarding events and src/util/AutoMod.ts, are not part of this model.
- Only parts of the root copies of GuildConfig, BaseCommand and Message match their src counterparts, and only those are modelled once, through src: the `patch` logic (structures/GuildConfig.ts has no `logs_channel`), `getSend`, and `setLastCommand`. The root GuildConfig has no `edit`, no `ConfigEditData` and no `logsChannelID`; the root BaseCommand keeps `permissions` unresolved and has no `clientPermissions`, `description` or static `hasPermissions`; the root Message has no `invites`.
- SettingsSetup: the root setup (commands/admin/settings.ts:207) calls `config.edit(values, true)`, which the root GuildConfig shown does not define; the model runs it against the src `GuildConfig.edit`.
- Platform permission flags are an enumeration, not bit values. `Permissions#has` follows the administrator-implies-all rule. `hasPermission` adds the owner override.
- Moderation.BanAndKickShareGuards: states equal refusals by error name, not equal errors, because MENTION_MEMBER carries the action's name.
- Text.Lower: folds only the ASCII letters A-Z, while `toLowerCase` also folds other letters. An input with non-ASCII capitals can therefore match a name, role, channel, command token, y/n answer or cleaned text in the code where the model does not.
- Json.Decode: accepts only the canonical encoding of a list of strings, without whitespace, escapes or other JSON values, while `JSON.parse` accepts all of them. A stored value in another form is read by the code where the model fails (and the model's patch then throws).

## Findings

| source | as written | input that shows it | evidently intended | confidence | as-written member | corrected member |
|---|---|---|---|---|---|---|
| src/commands/moderator/ban.ts:30, src/commands/moderator/kick.ts:30 | `Util.extractMentions(args.regular, message.guild!, 1)` passes the guild where the current signature (src/util/index.ts:129) expects an options object, so the scan runs in the DM shape with no limit, and the result has no `member`; every run throws MENTION_MEMBER (or the scan's UNKNOWN_USER or fetch error) and nobody is ever banned or kicked | `ban <@12345678901234567> spam` by a moderator, naming a manageable and bannable member | the single-mention extraction of util/index.ts:120-135: the first token's user and guild member, then the guard chain and the removal | high (not executed) | Moderation.RunAsWritten, Moderation.AsWrittenNeverRemoves | Moderation.Run, Moderation.RemovedExactlyWhenAccepted |
