/** The `message` event of the current revision: the pipeline every incoming message
    goes through, from the prefix to the command handler, with its error routing.

    The platform is a parameter: `fetched` is what `guild.fetchConfig()` gives,
    `inviteMatches` what the invite pattern finds in the content, `nullRead` what the
    runtime throws when a property of the missing member is read (also what a
    permission predicate throws; the model does not tell TypeErrors apart), and `run` how the
    command handler ends. */
module Dispatch {
  import opened Wrappers
  import opened Text
  import opened Platform
  import opened CommandErrors
  import opened BaseCommand
  import opened Arguments
  import opened GuildConfigs
  import Settings
  import Registry
  import Messages
  import Constants

  /** The permissions the bot needs guild-wide; every other one it needs in the channel. */
  const GUILD_PERMISSIONS: seq<Flag> := [BanMembers, ChangeNickname, KickMembers, ManageChannels,
    ManageEmojis, ManageGuild, ManageNicknames, ManageRoles, ViewAuditLog, ViewGuildInsights]

  const UNEXPECTED_HEAD := "An unexpected error has occoured"

  /** What reaches the `catch`: a command error, or any other error with its name and message. */
  datatype Thrown = Raised(error: CommandError) | Unexpected(name: string, message: string)

  /** How the command handler ends. */
  datatype RunOutcome = Finished | RunThrew(thrown: Thrown)

  /** What the pipeline does to the outside, in order. */
  datatype Effect =
    | InviteRemoved                                  // the message deleted and INVITES_NOT_ALLOWED sent
    | PrefixSent(text: string)
    | Replied(send: SendFn, content: Content, options: seq<Extra>)
    | Ran(command: string, args: CommandArguments, send: SendFn)
    | ErrorViaSend(send: SendFn, message: ErrorText)
    | ErrorToAuthor(message: ErrorText)
    | ErrorToChannel(message: ErrorText)
    | Emitted(errorName: string, errorMessage: string)
    | UnexpectedSent(lines: seq<string>)

  datatype DispatchEnv = DispatchEnv(
    defaultPrefix: string, botId: Id, commands: seq<Command>, fetched: Result<ConfigState, Thrown>,
    inviteMatches: seq<string>, nullRead: Thrown, run: RunOutcome)

  // ------------------------------------------------------------------ the stages

  /** The `catch`: a command error goes through its own reply function when it has one,
      else to the author or the channel as `dmError` says; any other error is emitted
      and answered with its name and message. */
  function RouteError(t: Thrown): (r: seq<Effect>)
    ensures t.Raised? ==> |r| == 1 && !r[0].Emitted? && !r[0].UnexpectedSent?
    ensures t.Raised? && t.error.send.Some? ==> r == [ErrorViaSend(t.error.send.value, t.error.message)]
    ensures t.Raised? && t.error.send.None? ==>
      r == [if t.error.dmError then ErrorToAuthor(t.error.message) else ErrorToChannel(t.error.message)]
    ensures t.Unexpected? ==> |r| == 2 && r[0] == Emitted(t.name, t.message) && r[1].UnexpectedSent?
  {
    match t
    case Raised(e) =>
      if e.send.Some? then [ErrorViaSend(e.send.value, e.message)]
      else if e.dmError then [ErrorToAuthor(e.message)]
      else [ErrorToChannel(e.message)]
    case Unexpected(name, message) =>
      [Emitted(name, message), UnexpectedSent([UNEXPECTED_HEAD, name + ": " + message])]
  }

  /** The guild has a prefix of its own: set, and not empty. */
  predicate OwnPrefix(config: Option<ConfigState>) {
    config.Some? && config.value.prefix.Present? && config.value.prefix.value.Some?
    && config.value.prefix.value.value != ""
  }

  /** The guild's own prefix when it has one, else the default one. */
  function EffectivePrefix(defaultPrefix: string, config: Option<ConfigState>): (p: string)
    ensures OwnPrefix(config) ==> p == config.value.prefix.value.value
    ensures !OwnPrefix(config) ==> p == defaultPrefix
    ensures defaultPrefix != "" ==> p != ""
  {
    if OwnPrefix(config) then config.value.prefix.value.value else defaultPrefix
  }

  /** Automatic moderation applies to a member who is neither an administrator nor the
      holder of a moderator or admin role, in a guild where it is switched on. */
  predicate AutoModApplies(config: ConfigState, g: Guild, m: Member) {
    config.autoMod == Present(true) && !MemberHas(g, m, {Administrator})
    && !Settings.HoldsListed(config.modRoleIDs, m) && !Settings.HoldsListed(config.adminRoleIDs, m)
  }

  /** The message is exactly a mention of the bot: `<@id>` or `<@!id>`. */
  predicate IsBotMention(content: string, botId: Id) {
    content == "<@" + botId + ">" || content == "<@!" + botId + ">"
  }

  /** The command token: the text after the prefix up to the first space. */
  function CommandToken(content: string, prefix: string): string
    requires prefix <= content
  {
    Split(content[|prefix|..], ' ')[0]
  }

  /** The command the lower-cased token resolves to. */
  function Lookup(commands: seq<Command>, content: string, prefix: string): Option<Command>
    requires prefix <= content
  {
    Registry.Resolve(commands, Lower(CommandToken(content, prefix))).command
  }

  /** The guild-wide part of a bot permission mask: the listed flags the mask has. */
  function GuildPart(cp: Perms): (gp: Perms)
    ensures forall f :: f in gp <==> f in GUILD_PERMISSIONS && Has(cp, {f})
  {
    set f | f in GUILD_PERMISSIONS && Has(cp, {f})
  }

  /** The bot permission check: the guild-wide part on the bot's member, then the rest
      on the channel; a non-empty rest decides alone, overwriting the guild-wide result. */
  predicate BotHas(cp: Perms, g: Guild, ch: Channel) {
    var gp := GuildPart(cp);
    var guildWide := gp != {} && MemberHas(g, g.me, gp);
    if cp - gp != {} then Has(ch.botPerms, cp - gp) else guildWide
  }

  /** Whether the pipeline stops on the bot's own permissions. */
  predicate BotLacks(c: Command, msg: Msg) {
    msg.guild.Some? && c.clientPermissions.Some? && !BotHas(c.clientPermissions.value, msg.guild.value, msg.channel)
  }

  /** The last stage, for a resolved command that may run here: the bot permission
      check, then the actor's, then the handler. */
  function Authorised(env: DispatchEnv, msg: Msg, c: Command): seq<Effect> {
    var send := SendFn(msg.id);
    if BotLacks(c, msg) then
      var cp := c.clientPermissions.value;
      [Replied(send, TextContent("CLIENT_MISSING_PERMISSIONS"), [PermsArg(cp - GuildPart(cp)), PermsArg(GuildPart(cp))])]
    else
      match HasPermissions(c, msg)
      case Faulted => RouteError(env.nullRead)
      case Answered(Allow) =>
        [Ran(c.name, ArgumentsOf(msg), send)] + (if env.run.RunThrew? then RouteError(env.run.thrown) else [])
      case Answered(Deny) => RouteError(Raised(NewCommandError("NO_PERMISSION", [SendArg(send)])))
      case Answered(Reason(text)) => [Replied(send, OptionsContent(text), [])]
      case Answered(Undecided) => []
  }

  /** From the prefix check on: a message without the prefix, an unknown command or a
      guild-only command in a direct message end silently. */
  function Resolved(env: DispatchEnv, msg: Msg, prefix: string): seq<Effect> {
    if !(prefix <= msg.content) then []
    else
      match Lookup(env.commands, msg.content, prefix)
      case None => []
      case Some(c) => if !c.dmAllowed && msg.guild.None? then [] else Authorised(env, msg, c)
  }

  /** The configuration the message is read with: the fetched one in a guild. */
  function ConfigFor(env: DispatchEnv, msg: Msg): Option<ConfigState>
    requires msg.guild.Some? ==> env.fetched.Ok?
  {
    if msg.guild.Some? then Some(env.fetched.value) else None
  }

  /** The automatic moderation test reads the member, which a guild message may lack. */
  predicate ReadsMissingMember(env: DispatchEnv, msg: Msg)
    requires msg.guild.Some? ==> env.fetched.Ok?
  {
    msg.guild.Some? && env.fetched.value.autoMod == Present(true) && msg.member.None?
  }

  /** Automatic moderation removes the message: it applies and the message has invites. */
  predicate Moderated(env: DispatchEnv, msg: Msg)
    requires msg.guild.Some? ==> env.fetched.Ok?
  {
    msg.guild.Some? && msg.member.Some? && AutoModApplies(env.fetched.value, msg.guild.value, msg.member.value)
    && Messages.Invites(env.inviteMatches).Some?
  }

  /** The message gets as far as the mention test. */
  predicate ReachesMentionTest(env: DispatchEnv, msg: Msg) {
    !msg.author.bot && |msg.content| > 0 && (msg.guild.Some? ==> env.fetched.Ok?)
    && !ReadsMissingMember(env, msg) && !Moderated(env, msg) && !msg.edited
  }

  /** The whole pipeline, with the bot id the mention pattern was first built with. */
  function Dispatch(env: DispatchEnv, msg: Msg, pattern: Option<Id>): (effects: seq<Effect>)
    ensures msg.author.bot || |msg.content| == 0 ==> effects == []
    ensures ReachesMentionTest(env, msg) && IsBotMention(msg.content, pattern.GetOr(env.botId)) ==>
      effects == [PrefixSent("My prefix is `" + EffectivePrefix(env.defaultPrefix, ConfigFor(env, msg)) + "`")]
  {
    if msg.author.bot || |msg.content| == 0 then []
    else if msg.guild.Some? && env.fetched.Err? then RouteError(env.fetched.error)
    else if ReadsMissingMember(env, msg) then RouteError(env.nullRead)
    else if Moderated(env, msg) then [InviteRemoved]
    else
      var prefix := EffectivePrefix(env.defaultPrefix, ConfigFor(env, msg));
      if !msg.edited && IsBotMention(msg.content, pattern.GetOr(env.botId)) then
        [PrefixSent("My prefix is `" + prefix + "`")]
      else Resolved(env, msg, prefix)
  }

  // ------------------------------------------------------------------ the handler

  /** The event handler, with the module-level mention pattern it builds on first use. */
  class MessageEvent {
    var mentionPattern: Option<Id>

    constructor ()
      ensures mentionPattern.None?
    {
      mentionPattern := None;
    }

    /** `message(msg)`. */
    method Handle(env: DispatchEnv, msg: Msg) returns (effects: seq<Effect>)
      modifies this
      ensures effects == Dispatch(env, msg, old(mentionPattern))
      ensures mentionPattern ==
        (if old(mentionPattern).None? && ReachesMentionTest(env, msg) then Some(env.botId) else old(mentionPattern))
    {
      if msg.author.bot || |msg.content| == 0 {
        return [];
      }
      var prefix := env.defaultPrefix;
      if msg.guild.Some? {
        if env.fetched.Err? {
          return RouteError(env.fetched.error);
        }
        var config := env.fetched.value;
        if config.prefix.Present? && config.prefix.value.Some? && config.prefix.value.value != "" {
          prefix := config.prefix.value.value;
        }
        if config.autoMod == Present(true) {
          if msg.member.None? {
            return RouteError(env.nullRead);
          }
          if AutoModApplies(config, msg.guild.value, msg.member.value) && Messages.Invites(env.inviteMatches).Some? {
            return [InviteRemoved];
          }
        }
      }
      if !msg.edited {
        if mentionPattern.None? {
          mentionPattern := Some(env.botId);
        }
        if IsBotMention(msg.content, mentionPattern.value) {
          return [PrefixSent("My prefix is `" + prefix + "`")];
        }
      }
      if !(prefix <= msg.content) {
        return [];
      }
      var command := Lookup(env.commands, msg.content, prefix);
      if command.None? || (!command.value.dmAllowed && msg.guild.None?) {
        return [];
      }
      effects := Check(env, msg, command.value);
    }
  }

  /** The two permission checks and the handler, as in the pipeline. */
  method Check(env: DispatchEnv, msg: Msg, c: Command) returns (effects: seq<Effect>)
    ensures effects == Authorised(env, msg, c)
  {
    var send := SendFn(msg.id);
    if c.clientPermissions.Some? && msg.guild.Some? {
      var clientPermissions := c.clientPermissions.value;
      var hasPermission := false;
      var guildPermissions := GuildPart(clientPermissions);
      if guildPermissions != {} {
        clientPermissions := clientPermissions - guildPermissions;
        hasPermission := MemberHas(msg.guild.value, msg.guild.value.me, guildPermissions);
      }
      assert clientPermissions == c.clientPermissions.value - guildPermissions;
      if clientPermissions != {} {
        hasPermission := Has(msg.channel.botPerms, clientPermissions);
      }
      assert hasPermission == BotHas(c.clientPermissions.value, msg.guild.value, msg.channel);
      if !hasPermission {
        return [Replied(send, TextContent("CLIENT_MISSING_PERMISSIONS"),
                        [PermsArg(clientPermissions), PermsArg(guildPermissions)])];
      }
    }
    var answer := HasPermissions(c, msg);
    if answer.Faulted? {
      return RouteError(env.nullRead);
    }
    match answer.answer
    case Deny =>
      effects := RouteError(Raised(NewCommandError("NO_PERMISSION", [SendArg(send)])));
    case Reason(text) =>
      effects := [Replied(send, OptionsContent(text), [])];
    case Undecided =>
      effects := [];
    case Allow =>
      effects := [Ran(c.name, ArgumentsOf(msg), send)];
      if env.run.RunThrew? {
        effects := effects + RouteError(env.run.thrown);
      }
  }

  // ------------------------------------------------------------------ properties

  /** Every stage lets the message through to the handler. */
  predicate PassesEveryStage(env: DispatchEnv, msg: Msg, pattern: Option<Id>) {
    !msg.author.bot && |msg.content| > 0 && (msg.guild.Some? ==> env.fetched.Ok?)
    && !ReadsMissingMember(env, msg) && !Moderated(env, msg)
    && !(!msg.edited && IsBotMention(msg.content, pattern.GetOr(env.botId)))
    && (var prefix := EffectivePrefix(env.defaultPrefix, ConfigFor(env, msg));
        prefix <= msg.content
        && (var c := Lookup(env.commands, msg.content, prefix);
            c.Some? && (c.value.dmAllowed || msg.guild.Some?) && !BotLacks(c.value, msg)
            && HasPermissions(c.value, msg) == Answered(Allow)))
  }

  /** The handler runs exactly when the message passes every stage: a non-empty message
      of a non-bot, a readable configuration, no moderation, not the mention of the bot,
      the prefix, a known command allowed here, the bot's permissions and an actor
      permission of exactly true. */
  lemma RunsExactlyWhenAllowed(env: DispatchEnv, msg: Msg, pattern: Option<Id>)
    ensures var effects := Dispatch(env, msg, pattern);
      (|effects| >= 1 && effects[0].Ran?) <==> PassesEveryStage(env, msg, pattern)
  {
  }

  /** The handler runs with the arguments of the whole message, the reply function bound
      to it, and the command the lower-cased token names. */
  lemma RunsResolvedCommand(env: DispatchEnv, msg: Msg, pattern: Option<Id>)
    requires var effects := Dispatch(env, msg, pattern); |effects| >= 1 && effects[0].Ran?
    ensures var effects := Dispatch(env, msg, pattern);
      var prefix := EffectivePrefix(env.defaultPrefix, ConfigFor(env, msg));
      prefix <= msg.content
      && effects[0] == Ran(Lookup(env.commands, msg.content, prefix).value.name, ArgumentsOf(msg), SendFn(msg.id))
      && (env.run.Finished? ==> |effects| == 1)
  {
    RunsExactlyWhenAllowed(env, msg, pattern);
  }

  /** What each actor answer leads to: false is the NO_PERMISSION error through the
      bound reply function, a string is sent as content, null ends silently. */
  lemma ActorAnswers(env: DispatchEnv, msg: Msg, c: Command)
    requires !BotLacks(c, msg)
    ensures HasPermissions(c, msg) == Answered(Deny) ==>
      Authorised(env, msg, c) == [ErrorViaSend(SendFn(msg.id), Rendered(Constants.NO_PERMISSION_DEFAULT))]
    ensures forall text :: HasPermissions(c, msg) == Answered(Reason(text)) ==>
      Authorised(env, msg, c) == [Replied(SendFn(msg.id), OptionsContent(text), [])]
    ensures HasPermissions(c, msg) == Answered(Undecided) ==> Authorised(env, msg, c) == []
  {
    var e := NewCommandError("NO_PERMISSION", [SendArg(SendFn(msg.id))]);
    assert [SendArg(SendFn(msg.id))][1..] == [];
    assert e.send == Some(SendFn(msg.id)) && e.message == Rendered(Constants.NO_PERMISSION_DEFAULT);
  }

  /** Automatic moderation never touches an administrator or the holder of a moderator
      or admin role, and removes a message with invites from anyone else. */
  lemma AutoModSparesStaff(env: DispatchEnv, msg: Msg, pattern: Option<Id>)
    requires !msg.author.bot && |msg.content| > 0 && msg.guild.Some? && msg.member.Some? && env.fetched.Ok?
    ensures var m := msg.member.value; var config := env.fetched.value;
      (MemberHas(msg.guild.value, m, {Administrator}) || Settings.HoldsListed(config.modRoleIDs, m)
        || Settings.HoldsListed(config.adminRoleIDs, m)) ==> Dispatch(env, msg, pattern) != [InviteRemoved]
    ensures (AutoModApplies(env.fetched.value, msg.guild.value, msg.member.value)
             && Messages.Invites(env.inviteMatches).Some?) ==> Dispatch(env, msg, pattern) == [InviteRemoved]
  {
    var m := msg.member.value;
    var config := env.fetched.value;
    if MemberHas(msg.guild.value, m, {Administrator}) || Settings.HoldsListed(config.modRoleIDs, m)
       || Settings.HoldsListed(config.adminRoleIDs, m) {
      assert !Moderated(env, msg);
      NothingElseIsInviteRemoved(env, msg, pattern);
    }
  }

  /** Past the moderation stage no effect list is the invite removal. */
  lemma NothingElseIsInviteRemoved(env: DispatchEnv, msg: Msg, pattern: Option<Id>)
    requires !msg.author.bot && |msg.content| > 0 && (msg.guild.Some? ==> env.fetched.Ok?)
    requires !ReadsMissingMember(env, msg) && !Moderated(env, msg)
    ensures Dispatch(env, msg, pattern) != [InviteRemoved]
  {
    var prefix := EffectivePrefix(env.defaultPrefix, ConfigFor(env, msg));
    if !(!msg.edited && IsBotMention(msg.content, pattern.GetOr(env.botId))) && prefix <= msg.content {
      var c := Lookup(env.commands, msg.content, prefix);
      if c.Some? && (c.value.dmAllowed || msg.guild.Some?) {
        NoStageRemovesInvites(env, msg, c.value);
      }
    }
  }

  lemma NoStageRemovesInvites(env: DispatchEnv, msg: Msg, c: Command)
    ensures Authorised(env, msg, c) != [InviteRemoved]
  {
    if !BotLacks(c, msg) {
      match HasPermissions(c, msg)
      case Faulted =>
      case Answered(a) =>
        if a == Allow {
          assert Authorised(env, msg, c)[0].Ran?;
        } else if a == Deny {
          assert Authorised(env, msg, c)[0].ErrorViaSend?;
        }
    }
  }

  /** With a non-empty rest the channel alone decides, whatever the bot may do
      guild-wide; without one the guild-wide check decides. */
  lemma ChannelOverwritesGuild(cp: Perms, g: Guild, ch: Channel)
    ensures cp - GuildPart(cp) != {} ==> (BotHas(cp, g, ch) <==> Has(ch.botPerms, cp - GuildPart(cp)))
    ensures cp - GuildPart(cp) == {} ==> (BotHas(cp, g, ch) <==> GuildPart(cp) != {} && MemberHas(g, g.me, GuildPart(cp)))
  {
  }

  /** A mask of ban rights and sending passes when the channel allows sending, even
      though the bot may not ban anyone guild-wide. */
  lemma GuildFailureOverwritten(g: Guild, ch: Channel)
    requires g.me.Id() != g.ownerID && g.me.perms == {SendMessages}
    requires ch.botPerms == {SendMessages}
    ensures !MemberHas(g, g.me, GuildPart({BanMembers, SendMessages}))
    ensures BotHas({BanMembers, SendMessages}, g, ch)
  {
    var cp: Perms := {BanMembers, SendMessages};
    assert BanMembers in GuildPart(cp);
    assert SendMessages !in GuildPart(cp);
    assert GuildPart(cp) == {BanMembers};
    assert cp - GuildPart(cp) == {SendMessages};
  }

  /** Without the administrator flag the mask splits exactly into its guild-wide part
      and the rest. */
  lemma GuildPartSplits(cp: Perms)
    requires Administrator !in cp
    ensures GuildPart(cp) <= cp
    ensures forall f :: f in cp && f in GUILD_PERMISSIONS ==> f in GuildPart(cp)
    ensures GuildPart(cp) + (cp - GuildPart(cp)) == cp
  {
  }

  /** An empty mask would be refused, but no declared mask is empty: a permissions
      object with no flags means none at all. */
  lemma EmptyMaskNeverChecked(input: Option<ClientPermsInput>, g: Guild, ch: Channel)
    ensures !BotHas({}, g, ch)
    ensures ClientPermissions(input) != Some({})
  {
    assert GuildPart({}) == {};
  }
}
