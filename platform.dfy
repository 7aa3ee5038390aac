/** The chat platform as the bot sees it: snowflake ids, permission flags, roles,
    channels, users, members, guilds and incoming messages. Caches that the platform
    library keeps as insertion-ordered collections are sequences here, so that
    `first()` and `find()` mean the earliest matching element. */
module Platform {
  import opened Wrappers
  import opened Text

  type Id = string

  /** The permission flags the bot names; every other bit is `OtherFlag`. */
  datatype Flag =
    | Administrator | BanMembers | KickMembers | SendMessages | EmbedLinks
    | ManageMessages | ViewChannel | ReadMessageHistory | AddReactions | AttachFiles
    | ManageChannels | ManageEmojis | ManageGuild | ManageNicknames | ManageRoles
    | ChangeNickname | ViewAuditLog | ViewGuildInsights
    | OtherFlag(bit: nat)

  /** A permission bitfield, as the set of its flags. */
  type Perms = set<Flag>

  /** `Permissions#has` with the administrator override the library applies by default:
      a mask holding ADMINISTRATOR has every permission. */
  predicate Has(mask: Perms, wanted: Perms) {
    Administrator in mask || wanted <= mask
  }

  lemma HasMonotone(mask: Perms, wanted: Perms, fewer: Perms)
    requires Has(mask, wanted) && fewer <= wanted
    ensures Has(mask, fewer)
  {
  }

  lemma HasUnion(mask: Perms, a: Perms, b: Perms)
    ensures Has(mask, a + b) <==> Has(mask, a) && Has(mask, b)
  {
  }

  /** Channel types, as the library's `type` strings: text, voice, category, news, store, dm. */
  datatype ChannelKind = TextKind | VoiceKind | CategoryKind | NewsKind | StoreKind | DmKind

  datatype Role = Role(id: Id, name: string, rawPosition: int)

  /** A channel; `botPerms` is what `permissionsFor(<the bot>)` computes for it. */
  datatype Channel = Channel(id: Id, name: string, kind: ChannelKind, botPerms: Perms)

  datatype User = User(id: Id, username: string, tag: string, bot: bool)

  /** A guild member: `perms` are the permissions of all its roles together and
      `highest` the raw position of its highest role. */
  datatype Member = Member(
    user: User, nickname: string, roleIDs: set<Id>, perms: Perms, highest: int,
    bannable: bool, kickable: bool)
  {
    function Id(): Id { user.id }
  }

  datatype Guild = Guild(
    id: Id, ownerID: Id, roles: seq<Role>, channels: seq<Channel>, me: Member)

  /** `member.hasPermission(perms)`: the guild owner has every permission. */
  predicate MemberHas(g: Guild, m: Member, wanted: Perms) {
    m.Id() == g.ownerID || Has(m.perms, wanted)
  }

  /** What a message mentions: users and (in a guild) members by id, and the roles and
      channels in the order the platform lists them. */
  datatype Mentions = Mentions(
    users: map<Id, User>, members: Option<map<Id, Member>>, roles: seq<Role>, channels: seq<Channel>)

  datatype Msg = Msg(
    id: Id, author: User, member: Option<Member>, guild: Option<Guild>, channel: Channel,
    content: string, mentions: Mentions, edited: bool)

  /** `collection.get(id)` on an id-keyed cache. */
  function RoleById(roles: seq<Role>, id: Id): (r: Option<Role>)
    ensures r.Some? ==> r.value in roles && r.value.id == id
    ensures r.None? ==> forall i :: 0 <= i < |roles| ==> roles[i].id != id
  {
    match Find(roles, (x: Role) => x.id == id)
    case Some(i) => Some(roles[i])
    case None => None
  }

  function ChannelById(channels: seq<Channel>, id: Id): (r: Option<Channel>)
    ensures r.Some? ==> r.value in channels && r.value.id == id
    ensures r.None? ==> forall i :: 0 <= i < |channels| ==> channels[i].id != id
  {
    match Find(channels, (x: Channel) => x.id == id)
    case Some(i) => Some(channels[i])
    case None => None
  }
}
