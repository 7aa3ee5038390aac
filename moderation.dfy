/** The `ban` and `kick` commands of the moderator category: the same permission
    predicate over a different flag, and the same guard chain of early throws before
    the member is removed, the removal logged and the moderator answered. `Run` takes
    the target from the single-mention extraction of `UtilV1`, the signature the two
    commands are written against; `RunAsWritten` is the call as it reaches the current
    `Util.extractMentions`, which never yields a target. The platform's ban and kick
    requests and the replies are effects the model records in order. */
module Moderation {
  import opened Wrappers
  import opened Text
  import opened Platform
  import opened CommandErrors
  import opened BaseCommand
  import opened Arguments
  import opened GuildConfigs
  import opened Settings
  import opened UtilV1
  import Util
  import Help

  datatype Action = Ban | Kick

  /** The flag each command accepts in place of a moderator role. */
  function ActionFlag(a: Action): Flag {
    match a
    case Ban => BanMembers
    case Kick => KickMembers
  }

  /** The command name, which is also what MENTION_MEMBER is given. */
  function ActionName(a: Action): string {
    match a
    case Ban => "ban"
    case Kick => "kick"
  }

  const MODERATOR_REFUSAL := "You need to be a Server Moderator to use this command!"

  /** The moderation predicate, in order: no cached configuration gives null before any
      permission is looked at; the command's flag, or a moderator role, gives true;
      otherwise the refusal text. */
  function ModPermission(a: Action, g: Guild, m: Member, config: Option<ConfigState>): (r: PermAnswer)
    ensures config.None? ==> r == Undecided
    ensures config.Some? ==>
      (r == Allow <==> MemberHas(g, m, {ActionFlag(a)}) || HoldsListed(config.value.modRoleIDs, m))
    ensures r != Allow && r != Undecided ==> r == Reason(MODERATOR_REFUSAL)
  {
    if config.None? then Undecided
    else if MemberHas(g, m, {ActionFlag(a)}) then Allow
    else if HoldsListed(config.value.modRoleIDs, m) then Allow
    else Reason(MODERATOR_REFUSAL)
  }

  /** The predicate as the command declares it (`configOf` is the configuration cached on
      a guild, `guild.config`). In a guild it answers `ModPermission` for the member, and
      throws when the message has no member. In a direct message it is handed the
      author, a user with no `guild`, and destructuring `guild.config` throws. */
  function ModCheck(a: Action, configOf: Guild -> Option<ConfigState>): (check: PermissionCheck)
    ensures forall u: User, m: Option<Member>, ch: Channel :: check.inDm(u, m, ch) == ThrewTypeError
    ensures forall g: Guild, m: Member, ch: Channel ::
      check.inGuild(g, Some(m), ch) == Returned(ModPermission(a, g, m, configOf(g)))
    ensures forall g: Guild, ch: Channel :: check.inGuild(g, None, ch) == ThrewTypeError
  {
    PermissionCheck(
      (g: Guild, m: Option<Member>, ch: Channel) =>
        if m.Some? then Returned(ModPermission(a, g, m.value, configOf(g))) else ThrewTypeError,
      (u: User, m: Option<Member>, ch: Channel) => ThrewTypeError)
  }

  /** What the command does on the platform and in the chat, in order. */
  datatype ModEffect =
    | Banned(target: Id, days: int, reason: string)
    | Kicked(target: Id, reason: string)
    /** `respondWith(logChannel, 'REMOVED_USER_LOG', type, moderator, [user], content)` */
    | LogSent(channel: Id, action: Action, moderator: Id, targets: seq<Option<User>>, content: string)
    /** `send('REMOVED_USER', type, [user], content)` */
    | RemovedReply(send: SendFn, action: Action, targets: seq<Option<User>>, content: string)

  /** What `run` throws: a command error, the `null` of a refused extraction limit, the
      TypeError of reading through an absent value, or a platform fetch error the
      extraction passes on. */
  datatype Fault = Raised(error: CommandError) | NullThrown | TypeFault | FetchFailed(cause: Util.FetchError)

  datatype RunResult = RunResult(effects: seq<ModEffect>, thrown: Option<Fault>)

  /** What the command cannot see in the message: the bot's id, the default reason and
      the `ModerationTypes` texts of the constants file, and the cached guilds through
      which a configuration reaches its logs channel. */
  datatype ModEnv = ModEnv(botId: Id, defaultReason: string, typeName: Action -> string, guilds: map<Id, Guild>)

  /** The reason given to the platform: the author's tag, then the text after the
      mention, or the default reason when there is none. */
  function AuditReason(author: User, content: string, defaultReason: string): string {
    author.tag + ": " + (if content == "" then defaultReason else content)
  }

  function Removal(a: Action, target: Id, reason: string): ModEffect {
    match a
    case Ban => Banned(target, 7, reason)
    case Kick => Kicked(target, reason)
  }

  function MentionMember(a: Action): CommandError {
    NewCommandError("MENTION_MEMBER", [StrArg(ActionName(a))])
  }

  function NotManageable(a: Action, env: ModEnv, byBot: bool): CommandError {
    NewCommandError("NOT_MANAGEABLE", [StrArg(env.typeName(a))] + (if byBot then [ByBotArg(true)] else []))
  }

  /** The removability the platform computes for the bot. */
  function Removable(a: Action, target: Member): bool {
    match a
    case Ban => target.bannable
    case Kick => target.kickable
  }

  /** A target the command accepts: a member found by the mention, neither the author
      nor the bot, manageable by the author and removable by the bot. */
  predicate AcceptedTarget(a: Action, env: ModEnv, g: Guild, actor: Member, author: User, t: Option<Member>) {
    t.Some? && t.value.Id() != author.id && t.value.Id() != env.botId
    && Util.IsManageableBy(g, t.value, actor) && Removable(a, t.value)
  }

  /** `run(message, args, send)`, given what the awaited extraction resolved to. The
      command is guild-only, and the guild and the member of the message are read
      with a non-null assertion. */
  function Run(a: Action, env: ModEnv, msg: Msg, args: CommandArguments,
               mention: Result<SingleMention, SingleFailure>, config: Option<ConfigState>): (r: RunResult)
    requires msg.guild.Some? && msg.member.Some?
    ensures (|args.args| == 0 || args.args[0] == "") ==> r == RunResult([], Some(Raised(MentionMember(a))))
    ensures r.effects != [] ==>
      mention.Ok? && AcceptedTarget(a, env, msg.guild.value, msg.member.value, msg.author, mention.value.member)
  {
    if |args.args| == 0 || args.args[0] == "" then RunResult([], Some(Raised(MentionMember(a))))
    else
      match mention
      case Err(ThrowsNull) => RunResult([], Some(NullThrown))
      case Err(NoFirstToken) => RunResult([], Some(TypeFault))
      case Ok(found) =>
        var g := msg.guild.value;
        var actor := msg.member.value;
        if found.member.None? || found.member.value.Id() == msg.author.id || found.member.value.Id() == env.botId then
          RunResult([], Some(Raised(MentionMember(a))))
        else
          var target := found.member.value;
          if !Util.IsManageableBy(g, target, actor) then RunResult([], Some(Raised(NotManageable(a, env, false))))
          else if !Removable(a, target) then RunResult([], Some(Raised(NotManageable(a, env, true))))
          else
            var removed := [Removal(a, target.Id(), AuditReason(msg.author, found.content, env.defaultReason))];
            match config
            case None => RunResult(removed, Some(TypeFault))
            case Some(c) =>
              var logged := match LogsChannel(c, env.guilds)
                            case Some(ch) => [LogSent(ch.id, a, actor.Id(), [found.user], found.content)]
                            case None => [];
              RunResult(removed + logged + [RemovedReply(SendFn(msg.id), a, [found.user], found.content)], None)
  }

  // ------------------------------------------------------------------ properties

  /** An administrator, or the owner, moderates wherever the configuration is cached;
      nobody does where it is not. */
  lemma AdministratorsModerate(a: Action, g: Guild, m: Member, config: Option<ConfigState>)
    requires Has(m.perms, {Administrator}) || m.Id() == g.ownerID
    ensures ModPermission(a, g, m, config) == (if config.Some? then Allow else Undecided)
  {
  }

  /** Both commands take the same moderator roles; the flags are what sets them apart. */
  lemma ModeratorRolesServeBoth(g: Guild, m: Member, config: Option<ConfigState>)
    requires config.Some? && HoldsListed(config.value.modRoleIDs, m)
    ensures ModPermission(Ban, g, m, config) == Allow && ModPermission(Kick, g, m, config) == Allow
  {
  }

  /** A member allowed to kick but not to ban: the kick flag alone. */
  lemma KickFlagDoesNotBan(g: Guild, m: Member, config: Option<ConfigState>)
    requires config.Some? && !HoldsListed(config.value.modRoleIDs, m) && m.Id() != g.ownerID
    requires Administrator !in m.perms && KickMembers in m.perms && BanMembers !in m.perms
    ensures ModPermission(Kick, g, m, config) == Allow
    ensures ModPermission(Ban, g, m, config) == Reason(MODERATOR_REFUSAL)
  {
    assert !Has(m.perms, {BanMembers}) by {
      assert BanMembers in {BanMembers};
    }
  }

  /** A found target that is missing, the author or the bot is MENTION_MEMBER, and
      nothing happens. */
  lemma UnfitTargetMentionsMember(a: Action, env: ModEnv, msg: Msg, args: CommandArguments,
                                  found: SingleMention, config: Option<ConfigState>)
    requires msg.guild.Some? && msg.member.Some? && |args.args| >= 1 && args.args[0] != ""
    requires found.member.None? || found.member.value.Id() in {msg.author.id, env.botId}
    ensures Run(a, env, msg, args, Ok(found), config) == RunResult([], Some(Raised(MentionMember(a))))
  {
  }

  /** The author must manage the target before the bot's own ability is asked; each
      refusal is NOT_MANAGEABLE, the second one marked as the bot's. */
  lemma ManageabilityBeforeRemovability(a: Action, env: ModEnv, msg: Msg, args: CommandArguments,
                                        found: SingleMention, config: Option<ConfigState>)
    requires msg.guild.Some? && msg.member.Some? && |args.args| >= 1 && args.args[0] != ""
    requires found.member.Some? && found.member.value.Id() != msg.author.id && found.member.value.Id() != env.botId
    ensures !Util.IsManageableBy(msg.guild.value, found.member.value, msg.member.value) ==>
      Run(a, env, msg, args, Ok(found), config) == RunResult([], Some(Raised(NotManageable(a, env, false))))
    ensures Util.IsManageableBy(msg.guild.value, found.member.value, msg.member.value) && !Removable(a, found.member.value) ==>
      Run(a, env, msg, args, Ok(found), config) == RunResult([], Some(Raised(NotManageable(a, env, true))))
  {
  }

  /** The byBot marker reaches the template: the two refusals render differently. */
  lemma ByBotDistinguishes(a: Action, env: ModEnv)
    ensures NotManageable(a, env, true).message == Template("NOT_MANAGEABLE", [StrArg(env.typeName(a)), ByBotArg(true)])
    ensures NotManageable(a, env, false).message == Template("NOT_MANAGEABLE", [StrArg(env.typeName(a))])
    ensures NotManageable(a, env, true) != NotManageable(a, env, false)
  {
    assert ([StrArg(env.typeName(a))] + [ByBotArg(true)])[0] == StrArg(env.typeName(a));
    assert [StrArg(env.typeName(a))] + [] == [StrArg(env.typeName(a))];
  }

  /** An accepted target is removed with the audit reason (a ban deleting 7 days of
      messages), the removal is logged exactly when the configuration names a logs
      channel that is cached, and the moderator is answered last, with the text after
      the mention rather than the default reason. */
  lemma AcceptedTargetRemoved(a: Action, env: ModEnv, msg: Msg, args: CommandArguments,
                              found: SingleMention, c: ConfigState)
    requires msg.guild.Some? && msg.member.Some? && |args.args| >= 1 && args.args[0] != ""
    requires AcceptedTarget(a, env, msg.guild.value, msg.member.value, msg.author, found.member)
    ensures var r := Run(a, env, msg, args, Ok(found), Some(c));
      r.thrown.None?
      && r.effects[0] == Removal(a, found.member.value.Id(), AuditReason(msg.author, found.content, env.defaultReason))
      && (a == Ban ==> r.effects[0].days == 7)
      && |r.effects| == (if LogsChannel(c, env.guilds).Some? then 3 else 2)
      && r.effects[|r.effects| - 1] == RemovedReply(SendFn(msg.id), a, [found.user], found.content)
      && (LogsChannel(c, env.guilds).Some? ==>
            r.effects[1] == LogSent(LogsChannel(c, env.guilds).value.id, a, msg.member.value.Id(), [found.user], found.content))
  {
  }

  /** The removal happens exactly when the first argument is there and the mention
      found an accepted target; it is then the first effect, and only that member is
      removed. */
  lemma RemovedExactlyWhenAccepted(a: Action, env: ModEnv, msg: Msg, args: CommandArguments,
                                   mention: Result<SingleMention, SingleFailure>, config: Option<ConfigState>)
    requires msg.guild.Some? && msg.member.Some?
    ensures var r := Run(a, env, msg, args, mention, config);
      r.effects != [] <==>
        |args.args| >= 1 && args.args[0] != "" && mention.Ok?
        && AcceptedTarget(a, env, msg.guild.value, msg.member.value, msg.author, mention.value.member)
    ensures var r := Run(a, env, msg, args, mention, config);
      r.effects != [] ==> r.effects[0] == Removal(a, mention.value.member.value.Id(),
                                                 AuditReason(msg.author, mention.value.content, env.defaultReason))
  {
  }

  /** The reason is never left without a text after the tag. */
  lemma ReasonNeverBare(author: User, content: string, defaultReason: string)
    requires defaultReason != ""
    ensures |AuditReason(author, content, defaultReason)| > |author.tag| + 2
    ensures AuditReason(author, content, defaultReason)[..|author.tag| + 2] == author.tag + ": "
    ensures content != "" ==> AuditReason(author, content, defaultReason)[|author.tag| + 2..] == content
  {
  }

  /** Ban and kick share every guard: where the bot may both ban and kick the target,
      the two commands remove, or throw the same error, alike. */
  lemma BanAndKickShareGuards(env: ModEnv, msg: Msg, args: CommandArguments,
                              mention: Result<SingleMention, SingleFailure>, config: Option<ConfigState>)
    requires msg.guild.Some? && msg.member.Some?
    requires mention.Ok? && mention.value.member.Some? ==> mention.value.member.value.bannable == mention.value.member.value.kickable
    ensures var b := Run(Ban, env, msg, args, mention, config);
      var k := Run(Kick, env, msg, args, mention, config);
      (b.effects == [] <==> k.effects == [])
      && (b.thrown.Some? <==> k.thrown.Some?)
      && (b.thrown.Some? && b.thrown.value.Raised? ==>
            k.thrown.value.Raised? && b.thrown.value.error.name == k.thrown.value.error.name)
  {
  }

  // ------------------------------------------------------- the call as written

  /** `run` as the two commands are written (ban.ts:30, kick.ts:30): they call the
      current `Util.extractMentions` with the guild and `1` in the places of the old
      single-mention signature. The guild is taken for the options object, which has
      no `guild` and no `limit` of its own, so the scan reads every leading mention in
      the DM shape; and neither shape of its result has a `member` property, so the
      target read from it is always undefined. */
  function RunAsWritten(a: Action, msg: Msg, args: CommandArguments, dir: Util.Directory,
                        snowflake: Util.Snowflakes): (r: RunResult)
    requires msg.guild.Some?
    ensures r.effects == []
    ensures (|args.args| == 0 || args.args[0] == ""
             || Util.ExtractSpec(Util.FromTokens(args.regular), None, None, dir, snowflake).Ok?)
            ==> r.thrown == Some(Raised(MentionMember(a)))
    ensures r.thrown != Some(Raised(MentionMember(a))) ==>
      match Util.ExtractSpec(Util.FromTokens(args.regular), None, None, dir, snowflake)
      case Err(UnknownUser(e)) => r.thrown == Some(Raised(e))
      case Err(Rethrown(cause)) => r.thrown == Some(FetchFailed(cause))
      case Ok(_) => false
  {
    if |args.args| == 0 || args.args[0] == "" then RunResult([], Some(Raised(MentionMember(a))))
    else
      match Util.ExtractSpec(Util.FromTokens(args.regular), None, None, dir, snowflake)
      case Err(UnknownUser(e)) => RunResult([], Some(Raised(e)))
      case Err(Rethrown(cause)) => RunResult([], Some(FetchFailed(cause)))
      case Ok(_) => RunResult([], Some(Raised(MentionMember(a))))
  }

  /** The commands as written never remove anyone: wherever the intended single-mention
      call removes an accepted target, the call as written removes nobody and throws. */
  lemma AsWrittenNeverRemoves(a: Action, env: ModEnv, msg: Msg, args: CommandArguments,
                              found: SingleMention, c: ConfigState,
                              dir: Util.Directory, snowflake: Util.Snowflakes)
    requires msg.guild.Some? && msg.member.Some? && |args.args| >= 1 && args.args[0] != ""
    requires AcceptedTarget(a, env, msg.guild.value, msg.member.value, msg.author, found.member)
    ensures Run(a, env, msg, args, Ok(found), Some(c)).effects != []
    ensures RunAsWritten(a, msg, args, dir, snowflake).effects == []
    ensures RunAsWritten(a, msg, args, dir, snowflake).thrown.Some?
  {
    AcceptedTargetRemoved(a, env, msg, args, found, c);
  }

  /** Besides MENTION_MEMBER the commands as written throw only what the scan throws:
      UNKNOWN_USER, or a fetch error that is neither of the two codes the scan tells
      apart. */
  lemma AsWrittenOtherFaults(a: Action, msg: Msg, args: CommandArguments,
                             dir: Util.Directory, snowflake: Util.Snowflakes)
    requires msg.guild.Some?
    ensures var t := RunAsWritten(a, msg, args, dir, snowflake).thrown.value;
      t == Raised(MentionMember(a))
      || (t.Raised? && t.error.name == "UNKNOWN_USER")
      || (t.FetchFailed? && t.cause != Util.ApiError(Util.UNKNOWN_USER_CODE)
            && t.cause != Util.ApiError(Util.UNKNOWN_MEMBER_CODE))
  {
    var scanned := Util.Scan(Util.Tokens(Util.FromTokens(args.regular)), None, true, dir, snowflake, map[], map[]);
    if scanned.Err? {
      var _ := Util.ScanFailure(Util.Tokens(Util.FromTokens(args.regular)), None, true, dir, snowflake, map[], map[]);
    }
  }

  /** In a direct message, `help` throws as soon as `ban`, `kick` or `settings` is
      registered: their predicates are written for a guild member, are handed the
      author instead, and throw. */
  lemma GuildOnlyPredicatesThrowInDm(cmds: seq<Command>, msg: Msg, p: nat,
                                     configOf: Guild -> Option<ConfigState>, devs: seq<Id>)
    requires msg.guild.None? && p < |cmds|
    requires cmds[p].permissions == Some(CheckFn(ModCheck(Ban, configOf)))
          || cmds[p].permissions == Some(CheckFn(ModCheck(Kick, configOf)))
          || cmds[p].permissions == Some(CheckFn(SettingsCheck(configOf, devs)))
    ensures Help.Throws(cmds, msg)
  {
    assert HasPermissions(cmds[p], msg).Faulted?;
  }
}
