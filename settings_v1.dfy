/** The older revision of the `settings` command: the same seven items, a permission
    predicate without the developer bypass, only the `view` and `setup` modes, and a
    setup whose answers are judged inline, type by type, each refusal with its own
    text. The loop itself is the one in `SettingsSetup`. */
module SettingsV1 {
  import opened Wrappers
  import opened Text
  import opened Platform
  import opened Arguments
  import opened GuildConfigs
  import opened BaseCommand
  import opened Settings
  import Util

  /** `member.hasPermission(8)` (the administrator bit); no cached configuration gives
      null; a holder of an admin role; otherwise the refusal text. */
  function OriginalPermission(g: Guild, m: Member, config: Option<ConfigState>): (r: PermAnswer)
    ensures MemberHas(g, m, {Administrator}) ==> r == Allow
    ensures !MemberHas(g, m, {Administrator}) && config.None? ==> r == Undecided
    ensures !MemberHas(g, m, {Administrator}) && config.Some? ==>
      (r == Allow <==> HoldsListed(config.value.adminRoleIDs, m))
    ensures r != Allow && r != Undecided ==>
      r == Reason("You need to be a Server Admin to use this command!")
  {
    if MemberHas(g, m, {Administrator}) then Allow
    else if config.None? then Undecided
    else if HoldsListed(config.value.adminRoleIDs, m) then Allow
    else Reason("You need to be a Server Admin to use this command!")
  }

  /** The later revision only adds the developer bypass: for anyone who is not a
      developer the two predicates agree. */
  lemma OnlyDevelopersGained(g: Guild, m: Member, config: Option<ConfigState>, devs: seq<Id>)
    ensures m.Id() !in devs ==> SettingsPermission(g, m, config, devs) == OriginalPermission(g, m, config)
    ensures OriginalPermission(g, m, config) == Allow ==> SettingsPermission(g, m, config, devs) == Allow
  {
  }

  /** Where the older `run` goes: the view, the setup, or nowhere at all. */
  datatype OriginalMode = ViewMode | SetupOnly | Ignored

  function OriginalRunMode(a: CommandArguments): (r: OriginalMode)
    ensures r == ViewMode <==> |a.args| == 0 || a.args[0] == "" || a.args[0] == "view"
    ensures r == SetupOnly <==> |a.args| >= 1 && a.args[0] == "setup"
  {
    if |a.args| == 0 || a.args[0] == "" || a.args[0] == "view" then ViewMode
    else if a.args[0] == "setup" then SetupOnly
    else Ignored
  }

  /** An unknown mode, `edit` included, is ignored without an error. */
  lemma UnknownModeIgnored(a: CommandArguments)
    requires |a.args| >= 1 && a.args[0] !in ["", "view", "setup"]
    ensures OriginalRunMode(a) == Ignored
  {
  }

  /** The inline judgement of an answer: the content for a string within its maximum,
      `content === 'y'` for a boolean, and the role, roles or channel the message
      resolves to, each failure with its own retry text. */
  function JudgeInline(item: SetupItem, m: Msg): Decision
    requires NeedsGuild(item.itype) ==> m.guild.Some?
  {
    match item.itype
    case StringType(max) =>
      if max != -1 && |m.content| > max then Refuse("That string is too long, please try again.")
      else Store(StrValue(m.content))
    case BooleanType => Store(BoolValue(m.content == "y"))
    case RoleType =>
      (match Util.ResolveRole(m, None)
       case None => Refuse("That is not a valid role, please try again")
       case Some(role) => Store(RoleIdValue(role.id)))
    case RolesType(max) =>
      (match ResolveRoleList(m, SplitRoleList(m.content))
       case None => Refuse("1 or more of those roles aren't valid, please try again.")
       case Some(roles) =>
         if max != -1 && |roles| > max then Refuse("You can provide a maximum of " + IntToString(max) + " roles.")
         else Store(RolesValue(roles)))
    case ChannelType(kinds) =>
      match Util.ResolveChannel(m, None, Some(kinds))
      case None => Refuse("That is not a valid channel, please try again")
      case Some(ch) => Store(ChannelIdValue(ch.id))
  }

  /** The inline judgement never throws, and a stored value suits the key of a
      well-typed item. */
  lemma JudgeInlineStores(item: SetupItem, m: Msg)
    requires NeedsGuild(item.itype) ==> m.guild.Some?
    ensures JudgeInline(item, m) != Throw
    ensures WellTyped(item) && JudgeInline(item, m).Store? ==> Fits(item.key, JudgeInline(item, m).value)
  {
  }

  /** For a role list the invalid-role refusal comes first: a list with an unresolvable
      piece is refused as invalid however long it is. */
  lemma InvalidRoleBeforeCount(item: SetupItem, m: Msg, k: nat)
    requires item.itype.RolesType? && m.guild.Some?
    requires k < |SplitRoleList(m.content)| && ResolveListedRole(m, SplitRoleList(m.content)[k]).None?
    ensures JudgeInline(item, m) == Refuse("1 or more of those roles aren't valid, please try again.")
  {
  }

  /** A string answer is stored exactly when it is within the maximum length, and is
      then the content itself. */
  lemma InlineStringBound(item: SetupItem, m: Msg)
    requires item.itype.StringType?
    ensures JudgeInline(item, m).Store? <==> item.itype.max == -1 || |m.content| <= item.itype.max
    ensures JudgeInline(item, m).Store? ==> JudgeInline(item, m).value == StrValue(m.content)
  {
  }

  /** The two revisions decide a string answer alike, apart from the refusal text. */
  lemma RevisionsAgreeOnStrings(item: SetupItem, m: Msg, suffix: string, channels: map<Id, Channel>, needs: PostingNeeds)
    requires item.itype.StringType?
    ensures JudgeInline(item, m).Store? <==> Judge(item, m, suffix, channels, needs).Store?
    ensures JudgeInline(item, m).Store? ==> JudgeInline(item, m) == Judge(item, m, suffix, channels, needs)
  {
    JudgeStoresValid(item, m, suffix, channels, needs);
    ResolvedString(item, m, m.content);
    ValidateValueAccepts(StrValue(m.content), item, suffix, channels, needs);
  }
}
