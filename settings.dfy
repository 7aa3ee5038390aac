/** The `settings` command: the schema of the seven configuration items, who may use
    it, the mode dispatch, how an answer becomes a value (`resolveValue`), how a value
    is judged (`validateValue`), the question text, and the one-setting `edit`. The
    interactive `setup` loop is in `SettingsSetup`. */
module Settings {
  import opened Wrappers
  import opened Text
  import opened Platform
  import opened CommandErrors
  import opened Arguments
  import opened GuildConfigs
  import opened BaseCommand
  import Util

  /** The keys of the configuration edit data the items fill. */
  datatype ConfigKey = PrefixKey | ModRolesKey | AdminRolesKey | MemberJoinsKey
                     | MemberLeavesKey | LogsKey | AutoModKey

  function KeyName(k: ConfigKey): string {
    match k
    case PrefixKey => "prefix"
    case ModRolesKey => "modRoles"
    case AdminRolesKey => "adminRoles"
    case MemberJoinsKey => "memberJoinsChannel"
    case MemberLeavesKey => "memberLeavesChannel"
    case LogsKey => "logsChannel"
    case AutoModKey => "autoMod"
  }

  /** The type of an item: a boolean, one role, a string or a role list with a
      maximum (-1 for none), or a channel of one of the given kinds. */
  datatype ItemType = BooleanType | RoleType | StringType(max: int) | RolesType(max: int)
                    | ChannelType(kinds: seq<ChannelKind>)

  datatype SetupItem = SetupItem(description: string, key: ConfigKey, name: string,
                                 optional: bool, itype: ItemType)

  const SETUP_ITEMS: seq<SetupItem> := [
    SetupItem("The prefix for the bot.", PrefixKey, "Prefix", true, StringType(4)),
    SetupItem("The moderator roles for this server.", ModRolesKey, "Moderator Roles", true, RolesType(-1)),
    SetupItem("The admin roles for this server.", AdminRolesKey, "Admin Roles", true, RolesType(-1)),
    SetupItem("The channel where new member messages are sent.", MemberJoinsKey,
              "Join Messages Channel", true, ChannelType([TextKind])),
    SetupItem("The channel where member leave messages are sent.", MemberLeavesKey,
              "Leave Messages Channel", true, ChannelType([TextKind])),
    SetupItem("The channel where logs are sent.", LogsKey, "Logs Channel", true, ChannelType([TextKind])),
    SetupItem("Auto Moderation (Currently Not Available)", AutoModKey, "Auto Moderation", false, BooleanType)
  ]

  /** The only boolean item is the last one, and it is the only one that is not
      optional. */
  lemma OnlyTheBooleanItemIsRequired()
    ensures forall i :: 0 <= i < |SETUP_ITEMS| ==>
      (SETUP_ITEMS[i].itype.BooleanType? <==> i == 6) && (SETUP_ITEMS[i].optional <==> i != 6)
  {
  }

  // ------------------------------------------------------------------ permission

  /** The member holds one of the listed roles (`adminRoleIDs?.some(...)`). */
  predicate HoldsListed(ids: Slot<Option<seq<Id>>>, m: Member) {
    ids.Present? && ids.value.Some? && exists i :: 0 <= i < |ids.value.value| && ids.value.value[i] in m.roleIDs
  }

  /** The permission predicate, in order: the administrator permission; no cached
      configuration gives null; a developer or a holder of an admin role; otherwise
      the refusal text. */
  function SettingsPermission(g: Guild, m: Member, config: Option<ConfigState>, devs: seq<Id>): (r: PermAnswer)
    ensures MemberHas(g, m, {Administrator}) ==> r == Allow
    ensures !MemberHas(g, m, {Administrator}) && config.None? ==> r == Undecided
    ensures !MemberHas(g, m, {Administrator}) && config.Some? ==>
      (r == Allow <==> m.Id() in devs || HoldsListed(config.value.adminRoleIDs, m))
    ensures r != Allow && r != Undecided ==>
      r == Reason("You need to be a Server Admin to use this command!")
  {
    if MemberHas(g, m, {Administrator}) then Allow
    else if config.None? then Undecided
    else if m.Id() in devs || HoldsListed(config.value.adminRoleIDs, m) then Allow
    else Reason("You need to be a Server Admin to use this command!")
  }

  /** The predicate as the command declares it (`configOf` is the configuration cached on
      a guild, `devs` the developer ids of the client configuration). In a guild it
      answers `SettingsPermission` for the member, and throws when the message has no
      member. In a direct message it is handed the author, a user without
      `hasPermission`, and the call throws. */
  function SettingsCheck(configOf: Guild -> Option<ConfigState>, devs: seq<Id>): (check: PermissionCheck)
    ensures forall u: User, m: Option<Member>, ch: Channel :: check.inDm(u, m, ch) == ThrewTypeError
    ensures forall g: Guild, m: Member, ch: Channel ::
      check.inGuild(g, Some(m), ch) == Returned(SettingsPermission(g, m, configOf(g), devs))
    ensures forall g: Guild, ch: Channel :: check.inGuild(g, None, ch) == ThrewTypeError
  {
    PermissionCheck(
      (g: Guild, m: Option<Member>, ch: Channel) =>
        if m.Some? then Returned(SettingsPermission(g, m.value, configOf(g), devs)) else ThrewTypeError,
      (u: User, m: Option<Member>, ch: Channel) => ThrewTypeError)
  }

  // ------------------------------------------------------------------ run

  const MODES: seq<string> := ["setup", "view", "edit"]

  /** Where `run` goes: a view of the force-fetched configuration (with whether the
      bot may embed links in the channel), the setup, an edit of the remaining
      arguments, or the INVALID_MODE error. */
  datatype Mode = ViewConfig(embeds: bool) | SetupMode | EditMode(rest: CommandArguments)
                | InvalidMode(error: CommandError)

  function RunMode(a: CommandArguments, channel: Channel): (r: Mode)
    ensures (|a.args| == 0 || a.args[0] == "" || a.args[0] == "view") <==> r.ViewConfig?
    ensures r.ViewConfig? ==> r.embeds == Has(channel.botPerms, {EmbedLinks})
    ensures r == SetupMode <==> |a.args| >= 1 && a.args[0] == "setup"
    ensures r.EditMode? <==> |a.args| >= 1 && a.args[0] == "edit"
    ensures r.EditMode? ==> r.rest == Slice(a, Some(1), None)
    ensures r.InvalidMode? ==> r.error == NewCommandError("INVALID_MODE", [ListArg(MODES)])
  {
    if |a.args| == 0 || a.args[0] == "" || a.args[0] == "view" then ViewConfig(Has(channel.botPerms, {EmbedLinks}))
    else if a.args[0] == "setup" then SetupMode
    else if a.args[0] == "edit" then EditMode(Slice(a, Some(1), None))
    else InvalidMode(NewCommandError("INVALID_MODE", [ListArg(MODES)]))
  }

  /** Any other mode is refused with the error listing all three modes. */
  lemma UnknownModeRefused(a: CommandArguments, channel: Channel)
    requires |a.args| >= 1 && a.args[0] !in ["", "view", "setup", "edit"]
    ensures RunMode(a, channel) == InvalidMode(NewCommandError("INVALID_MODE", [ListArg(MODES)]))
  {
  }

  // ------------------------------------------------------------------ resolveValue

  /** What `resolveValue` gives: a string, a boolean, a role id, roles, a channel id. */
  datatype ConfigValue = StrValue(s: string) | BoolValue(b: bool) | RoleIdValue(id: Id)
                       | RolesValue(roles: seq<Role>) | ChannelIdValue(id: Id)

  function KindName(k: ChannelKind): string {
    match k
    case TextKind => "text"
    case VoiceKind => "voice"
    case CategoryKind => "category"
    case NewsKind => "news"
    case StoreKind => "store"
    case DmKind => "dm"
  }

  function TrimStart(s: string): (r: string)
    ensures |r| <= |s|
    decreases |s|
  {
    if |s| > 0 && s[0] == ' ' then TrimStart(s[1..]) else s
  }

  function TrimEnd(s: string): (r: string)
    ensures |r| <= |s|
    decreases |s|
  {
    if |s| > 0 && s[|s| - 1] == ' ' then TrimEnd(s[..|s| - 1]) else s
  }

  // The split of a role list on commas with any spaces around them: the pieces
  // between commas, without the spaces next to a comma.
  function SplitRoleList(s: string): (r: seq<string>)
    ensures |r| == |Split(s, ',')| >= 1
  {
    var parts := Split(s, ',');
    seq(|parts|, i requires 0 <= i < |parts| =>
      var p := if i > 0 then TrimStart(parts[i]) else parts[i];
      if i < |parts| - 1 then TrimEnd(p) else p)
  }

  /** The text of the first role mention in a piece (`match(ROLES_PATTERN)`). */
  function FirstRoleMention(piece: string): (r: Option<string>)
  {
    var ms := Matches(piece);
    match Find(ms, (m: Mention) => m.kind == RoleMention)
    case Some(k) => Some(MentionText(ms[k]))
    case None => None
  }

  /** How one piece of a role list is resolved: by its role mention, else by its
      lower-cased text. */
  function ResolveListedRole(msg: Msg, piece: string): Option<Role>
    requires msg.guild.Some?
  {
    Util.ResolveRole(msg, Some(FirstRoleMention(piece).GetOr(Lower(piece))))
  }

  /** The roles of a list, null when any one does not resolve. */
  function ResolveRoleList(msg: Msg, pieces: seq<string>): (r: Option<seq<Role>>)
    requires msg.guild.Some?
    ensures r.Some? <==> forall i :: 0 <= i < |pieces| ==> ResolveListedRole(msg, pieces[i]).Some?
    ensures r.Some? ==> |r.value| == |pieces|
    ensures r.Some? ==> forall i :: 0 <= i < |pieces| ==> r.value[i] == ResolveListedRole(msg, pieces[i]).value
  {
    if forall i :: 0 <= i < |pieces| ==> ResolveListedRole(msg, pieces[i]).Some? then
      Some(seq(|pieces|, i requires 0 <= i < |pieces| => ResolveListedRole(msg, pieces[i]).value))
    else None
  }

  /** The item types that look things up in the guild. */
  predicate NeedsGuild(t: ItemType) { t.RoleType? || t.RolesType? || t.ChannelType? }

  /** The text resolved: the string given, else the message content. */
  function AnswerText(msg: Msg, input: string): string {
    if input == "" then msg.content else input
  }

  const YES_WORDS: seq<string> := ["y", "yes", "enable", "enabled"]

  /** `resolveValue(item, message, string)`. */
  function ResolveValue(item: SetupItem, msg: Msg, input: string): Option<ConfigValue>
    requires NeedsGuild(item.itype) ==> msg.guild.Some?
  {
    var s := AnswerText(msg, input);
    match item.itype
    case StringType(max) => if max != -1 && |s| > max then None else Some(StrValue(s))
    case BooleanType => Some(BoolValue(s in YES_WORDS))
    case RoleType =>
      (match Util.ResolveRole(msg, Some(s))
       case Some(role) => Some(RoleIdValue(role.id))
       case None => None)
    case RolesType(max) =>
      (match ResolveRoleList(msg, SplitRoleList(s))
       case None => None
       case Some(roles) => if max != -1 && |roles| > max then None else Some(RolesValue(roles)))
    case ChannelType(kinds) =>
      match Util.ResolveChannel(msg, Some(Lower(s)), Some(kinds))
      case Some(ch) => Some(ChannelIdValue(ch.id))
      case None => None
  }

  /** A string is kept as given exactly when it is within the maximum length. */
  lemma ResolvedString(item: SetupItem, msg: Msg, input: string)
    requires item.itype.StringType?
    ensures var r := ResolveValue(item, msg, input); var s := AnswerText(msg, input);
      (r.Some? <==> item.itype.max == -1 || |s| <= item.itype.max)
      && (r.Some? ==> r.value == StrValue(s))
  {
  }

  /** A boolean answer is always a value, true exactly for the four words of assent. */
  lemma ResolvedBoolean(item: SetupItem, msg: Msg, input: string)
    requires item.itype.BooleanType?
    ensures var r := ResolveValue(item, msg, input);
      r.Some? && r.value.BoolValue? && (r.value.b <==> AnswerText(msg, input) in YES_WORDS)
  {
  }

  /** One role resolves to the id of the role the text names. */
  lemma ResolvedRole(item: SetupItem, msg: Msg, input: string)
    requires item.itype.RoleType? && msg.guild.Some?
    ensures var r := ResolveValue(item, msg, input); var role := Util.ResolveRole(msg, Some(AnswerText(msg, input)));
      (r.Some? <==> role.Some?) && (r.Some? ==> r.value == RoleIdValue(role.value.id))
  {
  }

  /** A role list resolves when every piece resolves and there are at most the maximum
      of them, to the roles of the pieces in order. */
  lemma ResolvedRoles(item: SetupItem, msg: Msg, input: string)
    requires item.itype.RolesType? && msg.guild.Some?
    ensures var r := ResolveValue(item, msg, input); var pieces := SplitRoleList(AnswerText(msg, input));
      (r.Some? <==> (forall i :: 0 <= i < |pieces| ==> ResolveListedRole(msg, pieces[i]).Some?)
                    && (item.itype.max == -1 || |pieces| <= item.itype.max))
      && (r.Some? ==> r.value.RolesValue? && |r.value.roles| == |pieces|
                      && forall i :: 0 <= i < |pieces| ==> r.value.roles[i] == ResolveListedRole(msg, pieces[i]).value)
  {
  }

  /** When the answer mentions a role, every piece of a role list resolves to that
      first mentioned role, whatever the piece says. */
  lemma MentionedRoleListCollapses(item: SetupItem, msg: Msg, input: string)
    requires item.itype.RolesType? && msg.guild.Some? && |msg.mentions.roles| > 0
    ensures var r := ResolveValue(item, msg, input);
      r.Some? ==> r.value.RolesValue? && forall i :: 0 <= i < |r.value.roles| ==> r.value.roles[i] == msg.mentions.roles[0]
  {
    ResolvedRoles(item, msg, input);
  }

  /** A channel value names a channel of an allowed kind, found by the lower-cased text. */
  lemma ResolvedChannelOfAllowedKind(item: SetupItem, msg: Msg, input: string)
    requires item.itype.ChannelType? && msg.guild.Some?
    ensures var r := ResolveValue(item, msg, input);
      var ch := Util.ResolveChannel(msg, Some(Lower(AnswerText(msg, input))), Some(item.itype.kinds));
      (r.Some? <==> ch.Some?) && (r.Some? ==> ch.value.kind in item.itype.kinds && r.value == ChannelIdValue(ch.value.id))
  {
    Util.ResolvedChannelHasAllowedType(msg, Some(Lower(AnswerText(msg, input))), Some(item.itype.kinds));
  }

  /** Only the exact lower-case words count as yes: `Y` passes the y/n filter, yet is
      stored as false. */
  lemma CapitalYIsNo(item: SetupItem, msg: Msg, user: User)
    requires item.itype.BooleanType? && msg.content == "Y" && msg.author.id == user.id
    ensures Lower(msg.content) == "y" && Util.Accepts(Util.OneOf(["y", "n"]), user, msg)
    ensures ResolveValue(item, msg, msg.content) == Some(BoolValue(false))
  {
    ResolvedBoolean(item, msg, msg.content);
    assert Lower(msg.content) == "y" by {
      assert LowerChar('Y') == 'y';
    }
  }

  // ------------------------------------------------------------------ validateValue

  /** `true`, the text to send instead, or the `throw null` of a null boolean. */
  datatype Verdict = Valid | Retry(text: string) | ThrowsNull

  /** What the bot needs to post in a chosen channel, with the text naming them. */
  datatype PostingNeeds = PostingNeeds(perms: Perms, names: string)

  /** `validateValue(value, item, suffix)`: the texts are refusals to send. */
  function ValidateValue(value: Option<ConfigValue>, item: SetupItem, suffix: string,
                         channels: map<Id, Channel>, needs: PostingNeeds): Verdict
  {
    if value.Some? then
      if item.itype.ChannelType? && value.value.ChannelIdValue? && LacksPosting(value.value.id, channels, needs)
      then Retry("I need the " + needs.names + " permissions for that channel")
      else Valid
    else
      match item.itype
      case BooleanType => ThrowsNull
      case RoleType => Retry("That is not a valid role" + suffix + ".")
      case StringType(_) => Retry("That string is too long" + suffix + ".")
      case ChannelType(_) => Retry("That is not a valid channel" + suffix + ".")
      case RolesType(max) =>
        Retry("You provided an invalid role"
              + (if max != -1 then ", or too many roles (max: " + IntToString(max) + ")" else "")
              + suffix + ".")
  }

  /** The channel is cached, is not a direct-message channel, and the bot may not post
      in it. */
  predicate LacksPosting(id: Id, channels: map<Id, Channel>, needs: PostingNeeds) {
    id in channels && channels[id].kind != DmKind && !Has(channels[id].botPerms, needs.perms)
  }

  /** A value is refused only for a channel item, when the bot cannot post in the cached
      channel, and then with the permissions it needs. */
  lemma ValidateValueAccepts(value: ConfigValue, item: SetupItem, suffix: string,
                             channels: map<Id, Channel>, needs: PostingNeeds)
    ensures var r := ValidateValue(Some(value), item, suffix, channels, needs);
      (r == Valid <==> !(item.itype.ChannelType? && value.ChannelIdValue? && LacksPosting(value.id, channels, needs)))
      && (r != Valid ==> r == Retry("I need the " + needs.names + " permissions for that channel"))
  {
  }

  /** A missing value is refused with the text of its type, the suffix before the full
      stop; only for a boolean does the validation throw. */
  lemma ValidateValueRefusesNull(item: SetupItem, suffix: string, channels: map<Id, Channel>, needs: PostingNeeds)
    ensures var r := ValidateValue(None, item, suffix, channels, needs);
      (r == ThrowsNull <==> item.itype.BooleanType?)
      && (item.itype.RoleType? ==> r == Retry("That is not a valid role" + suffix + "."))
      && (item.itype.StringType? ==> r == Retry("That string is too long" + suffix + "."))
      && (item.itype.ChannelType? ==> r == Retry("That is not a valid channel" + suffix + "."))
      && (item.itype.RolesType? ==>
            r == Retry("You provided an invalid role"
                       + (if item.itype.max != -1 then ", or too many roles (max: " + IntToString(item.itype.max) + ")" else "")
                       + suffix + "."))
  {
  }

  /** A value `resolveValue` gives for a boolean is never null, so the validation of an
      answer never throws. */
  lemma AnswersNeverThrow(item: SetupItem, msg: Msg, input: string, suffix: string,
                          channels: map<Id, Channel>, needs: PostingNeeds)
    requires NeedsGuild(item.itype) ==> msg.guild.Some?
    ensures ValidateValue(ResolveValue(item, msg, input), item, suffix, channels, needs) != ThrowsNull
  {
    if item.itype.BooleanType? {
      ResolvedBoolean(item, msg, input);
    }
  }

  /** What the setup does with an answer that does not skip its item: store a value,
      send a refusal and ask again, or throw. */
  datatype Decision = Store(value: ConfigValue) | Refuse(text: string) | Throw

  /** The judgement of an answer in `setup`: `resolveValue` of its content, then
      `validateValue` with the given suffix. */
  function Judge(item: SetupItem, msg: Msg, suffix: string, channels: map<Id, Channel>,
                 needs: PostingNeeds): Decision
    requires NeedsGuild(item.itype) ==> msg.guild.Some?
  {
    var value := ResolveValue(item, msg, msg.content);
    match ValidateValue(value, item, suffix, channels, needs)
    case Valid => if value.Some? then Store(value.value) else Throw
    case Retry(text) => Refuse(text)
    case ThrowsNull => Throw
  }

  /** An answer is stored exactly when it resolves and passes validation, as the
      value it resolves to; it is never thrown on, and a stored value suits the key of a
      well-typed item. */
  lemma JudgeStoresValid(item: SetupItem, msg: Msg, suffix: string, channels: map<Id, Channel>, needs: PostingNeeds)
    requires NeedsGuild(item.itype) ==> msg.guild.Some?
    ensures var value := ResolveValue(item, msg, msg.content);
      var d := Judge(item, msg, suffix, channels, needs);
      d != Throw
      && (d.Store? <==> ValidateValue(value, item, suffix, channels, needs) == Valid)
      && (d.Store? ==> value == Some(d.value))
      && (d.Refuse? ==> ValidateValue(value, item, suffix, channels, needs) == Retry(d.text))
      && (WellTyped(item) && d.Store? ==> Fits(item.key, d.value))
  {
    AnswersNeverThrow(item, msg, msg.content, suffix, channels, needs);
    ValidateValueRefusesNull(item, suffix, channels, needs);
    if WellTyped(item) {
      ResolvedValuesFit(item, msg, msg.content);
    }
  }

  // ------------------------------------------------------------------ the question

  /** `types.length === 1 ? types[0] : types.slice(0, -1).join(', ') + ', or ' +
      types[types.length]`; the last element read is past the end, `undefined`. */
  function KindsText(kinds: seq<ChannelKind>): string {
    var names := seq(|kinds|, i requires 0 <= i < |kinds| => KindName(kinds[i]));
    if |kinds| == 1 then names[0]
    else Join(JsSlice(names, Some(0), Some(-1)), ", ") + ", or " + "undefined"
  }

  /** The description of the expected answer. */
  function TypeText(t: ItemType): string {
    match t
    case BooleanType => "y/n"
    case RoleType => "a role (name/mention/id)"
    case RolesType(max) =>
      (if max != -1 then IntToString(max) else "multiple") + " roles (name/mention/id) seperated by a comma"
    case StringType(max) =>
      "a string of characters" + (if max != -1 then ", max length " + IntToString(max) else "")
    case ChannelType(kinds) => "a channel (name/mention/id) with the type " + KindsText(kinds)
  }

  /** The lines of the question for an item. */
  function Question(item: SetupItem): (lines: seq<string>)
    ensures |lines| == (if item.optional then 3 else 2)
    ensures lines[1] == item.description
  {
    var head := if item.itype.BooleanType? then "Would you like " + item.name + " enabled? (" + TypeText(item.itype) + ")"
                else "What would you like the " + item.name + " to be? (" + TypeText(item.itype) + ")";
    [head, item.description]
      + (if !item.optional then []
         else if item.key == PrefixKey then ["Type `n` if you don't want a custom prefix"]
         else ["Type `n` if you do not want to set this up."])
  }

  /** The channel items of the schema name their one kind; the many-kinds text, which
      reads past the end of the list, is never shown for them. */
  lemma SchemaChannelTextsAreWhole()
    ensures forall i :: 0 <= i < |SETUP_ITEMS| && SETUP_ITEMS[i].itype.ChannelType? ==>
      TypeText(SETUP_ITEMS[i].itype) == "a channel (name/mention/id) with the type text"
  {
  }

  /** The answers the wait accepts: y/n for a boolean, anything otherwise. */
  function AllowedAnswers(item: SetupItem): (r: Util.Allowed)
    ensures item.itype.BooleanType? ==> r == Util.OneOf(["y", "n"])
    ensures !item.itype.BooleanType? ==> r == Util.Anything
  {
    if item.itype.BooleanType? then Util.OneOf(["y", "n"]) else Util.Anything
  }

  // ------------------------------------------------------------------ storing a value

  /** An item's type suits its key: the value it resolves to is the kind the key stores. */
  predicate WellTyped(item: SetupItem) {
    match item.key
    case PrefixKey => item.itype.StringType?
    case ModRolesKey => item.itype.RolesType?
    case AdminRolesKey => item.itype.RolesType?
    case MemberJoinsKey => item.itype.ChannelType?
    case MemberLeavesKey => item.itype.ChannelType?
    case LogsKey => item.itype.ChannelType?
    case AutoModKey => item.itype.BooleanType?
  }

  /** A value suits a key: the kind of value the items with that key produce. */
  predicate Fits(key: ConfigKey, v: ConfigValue) {
    match key
    case PrefixKey => v.StrValue?
    case ModRolesKey => v.RolesValue?
    case AdminRolesKey => v.RolesValue?
    case MemberJoinsKey => v.ChannelIdValue?
    case MemberLeavesKey => v.ChannelIdValue?
    case LogsKey => v.ChannelIdValue?
    case AutoModKey => v.BoolValue?
  }

  function RoleObjects(roles: seq<Role>): (r: seq<RoleRef>)
    ensures |r| == |roles| && forall i :: 0 <= i < |roles| ==> r[i] == RoleObject(roles[i])
  {
    seq(|roles|, i requires 0 <= i < |roles| => RoleObject(roles[i]))
  }

  /** `values[key] = value`. */
  function Assign(values: EditData, key: ConfigKey, v: ConfigValue): EditData
    requires Fits(key, v)
  {
    match key
    case PrefixKey => values.(prefix := Present(Some(v.s)))
    case ModRolesKey => values.(modRoles := Present(Some(RoleObjects(v.roles))))
    case AdminRolesKey => values.(adminRoles := Present(Some(RoleObjects(v.roles))))
    case MemberJoinsKey => values.(memberJoinsChannel := Present(Some(ChannelIdRef(v.id))))
    case MemberLeavesKey => values.(memberLeavesChannel := Present(Some(ChannelIdRef(v.id))))
    case LogsKey => values.(logsChannel := Present(Some(ChannelIdRef(v.id))))
    case AutoModKey => values.(autoMod := Present(Some(v.b)))
  }

  /** A list of items each of which is well typed. */
  predicate Schema(items: seq<SetupItem>) {
    forall i :: 0 <= i < |items| ==> WellTyped(items[i])
  }

  /** Every item of the schema is well typed. */
  lemma SchemaWellTyped()
    ensures Schema(SETUP_ITEMS)
  {
  }

  /** Every value a well-typed item resolves to suits its key. */
  lemma ResolvedValuesFit(item: SetupItem, msg: Msg, input: string)
    requires WellTyped(item)
    requires NeedsGuild(item.itype) ==> msg.guild.Some?
    ensures var r := ResolveValue(item, msg, input); r.Some? ==> Fits(item.key, r.value)
  {
  }

  // ------------------------------------------------------------------ edit

  /** The setting `edit` looks for: the item whose lower-cased key is the first
      argument. */
  function FindSetting(a: CommandArguments): (r: Option<nat>)
    ensures r.Some? ==> r.value < |SETUP_ITEMS| && |a.args| >= 1 && Lower(KeyName(SETUP_ITEMS[r.value].key)) == a.args[0]
    ensures r.Some? ==> WellTyped(SETUP_ITEMS[r.value])
    ensures r.None? ==> |a.args| == 0 || forall i :: 0 <= i < |SETUP_ITEMS| ==> Lower(KeyName(SETUP_ITEMS[i].key)) != a.args[0]
  {
    SchemaWellTyped();
    if |a.args| == 0 then None
    else Find(SETUP_ITEMS, (it: SetupItem) => Lower(KeyName(it.key)) == a.args[0])
  }

  function KeyNames(): (r: seq<string>)
    ensures |r| == |SETUP_ITEMS| && forall i :: 0 <= i < |r| ==> r[i] == KeyName(SETUP_ITEMS[i].key)
  {
    seq(|SETUP_ITEMS|, i requires 0 <= i < |SETUP_ITEMS| => KeyName(SETUP_ITEMS[i].key))
  }

  /** What `edit` goes on to do: edit the configuration with exactly one key (without
      fillNull) and answer UPDATED_CONFIG with the item's name. */
  datatype SettingEdit = SettingEdit(data: EditData, name: string)

  /** The value given for a setting, judged: the CUSTOM_MESSAGE error with the text
      of a refusal, or the edit of that one key. */
  function Judged(item: SetupItem, value: Option<ConfigValue>, verdict: Verdict): (r: Result<SettingEdit, CommandError>)
    requires verdict == Valid ==> value.Some? && Fits(item.key, value.value)
  {
    match verdict
    case Retry(text) => Err(NewCommandError("CUSTOM_MESSAGE", [StrArg(text)]))
    case Valid => Ok(SettingEdit(Assign(NO_EDITS, item.key, value.value), item.name))
    case ThrowsNull => Err(NewCommandError("CUSTOM_MESSAGE", [StrArg("null")]))
  }

  /** The text after the setting's name. */
  function SettingText(a: CommandArguments): string {
    Join(JsSlice(a.regular, Some(1), None), " ")
  }

  /** `edit(message, args, send)`, with the arguments after the mode. */
  function EditSetting(msg: Msg, a: CommandArguments, send: SendFn,
                       channels: map<Id, Channel>, needs: PostingNeeds): (r: Result<SettingEdit, CommandError>)
    requires msg.guild.Some?
    ensures FindSetting(a).None? ==>
      r == Err(NewCommandError("INVALID_SETTING", [SendArg(send), ListArg(KeyNames())]))
    ensures FindSetting(a).Some? ==>
      var item := SETUP_ITEMS[FindSetting(a).value];
      var value := ResolveValue(item, msg, SettingText(a));
      var verdict := ValidateValue(value, item, "", channels, needs);
      verdict != ThrowsNull
      && (verdict.Retry? ==> r == Err(NewCommandError("CUSTOM_MESSAGE", [StrArg(verdict.text)])))
      && (verdict == Valid ==> value.Some? && Fits(item.key, value.value)
                               && r == Ok(SettingEdit(Assign(NO_EDITS, item.key, value.value), item.name)))
  {
    match FindSetting(a)
    case None => Err(NewCommandError("INVALID_SETTING", [SendArg(send), ListArg(KeyNames())]))
    case Some(k) =>
      var item := SETUP_ITEMS[k];
      var value := ResolveValue(item, msg, SettingText(a));
      ResolvedValuesFit(item, msg, SettingText(a));
      AnswersNeverThrow(item, msg, SettingText(a), "", channels, needs);
      Judged(item, value, ValidateValue(value, item, "", channels, needs))
  }

  /** The edit data of one setting holds that key and no other, so the row written
      without fillNull has that column alone. */
  lemma EditWritesOneKey(key: ConfigKey, v: ConfigValue, guild: Option<Guild>, defaultPrefix: string)
    requires Fits(key, v)
    requires EditRow(Assign(NO_EDITS, key, v), false, guild, defaultPrefix).Ok?
    ensures var row := EditRow(Assign(NO_EDITS, key, v), false, guild, defaultPrefix).value;
      (row.prefix.Present? <==> key == PrefixKey)
      && (row.modRoles.Present? <==> key == ModRolesKey)
      && (row.adminRoles.Present? <==> key == AdminRolesKey)
      && (row.memberJoinsChannel.Present? <==> key == MemberJoinsKey)
      && (row.memberLeavesChannel.Present? <==> key == MemberLeavesKey)
      && (row.logsChannel.Present? <==> key == LogsKey)
      && (row.autoMod.Present? <==> key == AutoModKey)
  {
    EditRowColumns(Assign(NO_EDITS, key, v), false, guild, defaultPrefix);
  }
}
