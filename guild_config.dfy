/** A guild's configuration: the raw database row, the object that caches it with its
    field-wise `patch`, the row `edit` writes, the role and channel getters, and the
    table the rows live in. */
module GuildConfigs {
  import opened Wrappers
  import opened Text
  import opened Platform
  import opened SentinelErrors
  import Json

  /** A property of a partial object: absent (or `undefined`) or present. */
  datatype Slot<T> = Absent | Present(value: T)

  /** A present property replaces the current value; an absent one keeps it. */
  function Over<T>(update: Slot<T>, current: Slot<T>): (r: Slot<T>)
    ensures update.Absent? ==> r == current
    ensures update.Present? ==> r == update
  {
    if update.Present? then update else current
  }

  /** A row of the `guilds` table, or a part of one; role lists are JSON text and
      `auto_mod` a number. */
  datatype RawConfig = RawConfig(
    id: Slot<Id>, prefix: Slot<Option<string>>,
    modRoles: Slot<Option<string>>, adminRoles: Slot<Option<string>>,
    memberJoinsChannel: Slot<Option<Id>>, memberLeavesChannel: Slot<Option<Id>>,
    logsChannel: Slot<Option<Id>>, autoMod: Slot<int>)

  const NO_COLUMNS: RawConfig :=
    RawConfig(Absent, Absent, Absent, Absent, Absent, Absent, Absent, Absent)

  /** The fields of a configuration object; a field never assigned is `Absent`. */
  datatype ConfigState = ConfigState(
    guildID: Slot<Id>, prefix: Slot<Option<string>>,
    modRoleIDs: Slot<Option<seq<Id>>>, adminRoleIDs: Slot<Option<seq<Id>>>,
    memberJoinsChannelID: Slot<Option<Id>>, memberLeavesChannelID: Slot<Option<Id>>,
    logsChannelID: Slot<Option<Id>>, autoMod: Slot<bool>)

  const UNSET: ConfigState :=
    ConfigState(Absent, Absent, Absent, Absent, Absent, Absent, Absent, Absent)

  /** `str ? JSON.parse(str) : null`; `None` when the text does not parse. */
  function ParseRoles(s: Option<string>): (r: Option<Option<seq<Id>>>)
    ensures (s.None? || s == Some("")) ==> r == Some(None)
    ensures s.Some? && s.value != "" ==>
      (r.Some? <==> Json.Decode(s.value).Some?)
      && (r.Some? ==> r.value == Json.Decode(s.value))
  {
    if s.None? || s.value == "" then Some(None)
    else match Json.Decode(s.value)
      case Some(ids) => Some(Some(ids))
      case None => None
  }

  /** A role-list column that parses. */
  predicate RolesParse(column: Slot<Option<string>>) {
    column.Present? ==> ParseRoles(column.value).Some?
  }

  /** The decoded role list a column puts in a field. */
  function RolesOver(column: Slot<Option<string>>, current: Slot<Option<seq<Id>>>): Slot<Option<seq<Id>>>
    requires RolesParse(column)
  {
    if column.Present? then Present(ParseRoles(column.value).value) else current
  }

  /** `Boolean(auto_mod)` for a truthy number, else false. */
  function AutoModFlag(n: int): bool { n != 0 }

  /** The state after `patch`, and whether it threw: the fields are assigned in order,
      and a role list that does not parse throws, leaving the fields before it set. */
  datatype PatchResult = PatchResult(state: ConfigState, threw: bool)

  function Patched(st: ConfigState, d: RawConfig): (r: PatchResult)
    ensures r.state.guildID == Over(d.id, st.guildID)
    ensures r.state.prefix == Over(d.prefix, st.prefix)
    ensures r.threw <==> !RolesParse(d.modRoles) || !RolesParse(d.adminRoles)
    ensures !r.threw ==>
      r.state == ConfigState(
        Over(d.id, st.guildID), Over(d.prefix, st.prefix),
        RolesOver(d.modRoles, st.modRoleIDs), RolesOver(d.adminRoles, st.adminRoleIDs),
        Over(d.memberJoinsChannel, st.memberJoinsChannelID),
        Over(d.memberLeavesChannel, st.memberLeavesChannelID),
        Over(d.logsChannel, st.logsChannelID),
        if d.autoMod.Present? then Present(AutoModFlag(d.autoMod.value)) else st.autoMod)
  {
    var s1 := st.(guildID := Over(d.id, st.guildID), prefix := Over(d.prefix, st.prefix));
    if !RolesParse(d.modRoles) then PatchResult(s1, true)
    else
      var s2 := s1.(modRoleIDs := RolesOver(d.modRoles, st.modRoleIDs));
      if !RolesParse(d.adminRoles) then PatchResult(s2, true)
      else
        PatchResult(s2.(adminRoleIDs := RolesOver(d.adminRoles, st.adminRoleIDs),
                  memberJoinsChannelID := Over(d.memberJoinsChannel, st.memberJoinsChannelID),
                  memberLeavesChannelID := Over(d.memberLeavesChannel, st.memberLeavesChannelID),
                  logsChannelID := Over(d.logsChannel, st.logsChannelID),
                  autoMod := if d.autoMod.Present? then Present(AutoModFlag(d.autoMod.value)) else st.autoMod),
              false)
  }

  /** Patching with no columns changes nothing. */
  lemma PatchNothing(st: ConfigState)
    ensures Patched(st, NO_COLUMNS) == PatchResult(st, false)
  {
  }

  /** A column absent from the row leaves its field as it was. */
  lemma PatchKeepsAbsentFields(st: ConfigState, d: RawConfig)
    requires !Patched(st, d).threw
    ensures var s := Patched(st, d).state;
      (d.id.Absent? ==> s.guildID == st.guildID)
      && (d.prefix.Absent? ==> s.prefix == st.prefix)
      && (d.modRoles.Absent? ==> s.modRoleIDs == st.modRoleIDs)
      && (d.adminRoles.Absent? ==> s.adminRoleIDs == st.adminRoleIDs)
      && (d.memberJoinsChannel.Absent? ==> s.memberJoinsChannelID == st.memberJoinsChannelID)
      && (d.memberLeavesChannel.Absent? ==> s.memberLeavesChannelID == st.memberLeavesChannelID)
      && (d.logsChannel.Absent? ==> s.logsChannelID == st.logsChannelID)
      && (d.autoMod.Absent? ==> s.autoMod == st.autoMod)
  {
  }

  /** The cached configuration of one guild. */
  class GuildConfig {
    var guildID: Slot<Id>
    var prefix: Slot<Option<string>>
    var modRoleIDs: Slot<Option<seq<Id>>>
    var adminRoleIDs: Slot<Option<seq<Id>>>
    var memberJoinsChannelID: Slot<Option<Id>>
    var memberLeavesChannelID: Slot<Option<Id>>
    var logsChannelID: Slot<Option<Id>>
    var autoMod: Slot<bool>

    function State(): ConfigState
      reads this
    {
      ConfigState(guildID, prefix, modRoleIDs, adminRoleIDs, memberJoinsChannelID,
                  memberLeavesChannelID, logsChannelID, autoMod)
    }

    /** `new GuildConfig(client, data)`: the fields `patch(data)` sets on a fresh
        object; whether that patch throws is `Patched(UNSET, data).threw`. */
    constructor (data: RawConfig)
      ensures State() == Patched(UNSET, data).state
    {
      guildID, prefix, modRoleIDs, adminRoleIDs := Absent, Absent, Absent, Absent;
      memberJoinsChannelID, memberLeavesChannelID, logsChannelID, autoMod := Absent, Absent, Absent, Absent;
      new;
      var _ := Patch(data);
    }

    /** `patch(data)`: each column present in the row overwrites its field, in order. */
    method Patch(d: RawConfig) returns (threw: bool)
      modifies this
      ensures Patched(old(State()), d) == PatchResult(State(), threw)
    {
      if d.id.Present? { guildID := d.id; }
      if d.prefix.Present? { prefix := d.prefix; }
      if d.modRoles.Present? {
        var parsed := ParseRoles(d.modRoles.value);
        if parsed.None? { return true; }
        modRoleIDs := Present(parsed.value);
      }
      if d.adminRoles.Present? {
        var parsed := ParseRoles(d.adminRoles.value);
        if parsed.None? { return true; }
        adminRoleIDs := Present(parsed.value);
      }
      if d.memberJoinsChannel.Present? { memberJoinsChannelID := d.memberJoinsChannel; }
      if d.memberLeavesChannel.Present? { memberLeavesChannelID := d.memberLeavesChannel; }
      if d.logsChannel.Present? { logsChannelID := d.logsChannel; }
      if d.autoMod.Present? { autoMod := Present(AutoModFlag(d.autoMod.value)); }
      return false;
    }

    /** `edit(data, fillNull)`: the row is built first, so an invalid value writes
        nothing; otherwise one UPDATE of that row and a patch of exactly that row. */
    method Edit(data: EditData, fillNull: bool, guilds: map<Id, Guild>, defaultPrefix: string,
                store: ConfigStore) returns (r: Result<(), EditError>)
      modifies this, store
      ensures var row := EditRow(data, fillNull, GuildOf(old(guildID), guilds), defaultPrefix);
        (row.Err? ==> r == Err(row.error) && State() == old(State())
                      && store.rows == old(store.rows) && store.log == old(store.log))
        && (row.Ok? ==>
              r == Ok(()) && State() == Patched(old(State()), row.value).state
              && store.log == old(store.log) + [UpdateRow(old(guildID), row.value)]
              && store.rows == Updated(old(store.rows), old(guildID), row.value))
    {
      var row := EditRow(data, fillNull, GuildOf(guildID, guilds), defaultPrefix);
      if row.Err? {
        return Err(row.error);
      }
      store.Update(guildID, row.value);
      EditRowParses(data, fillNull, GuildOf(guildID, guilds), defaultPrefix);
      var _ := Patch(row.value);
      return Ok(());
    }
  }

  /** `client.guilds.cache.get(guildID) || null`. */
  function GuildOf(guildID: Slot<Id>, guilds: map<Id, Guild>): Option<Guild> {
    if guildID.Present? && guildID.value in guilds then Some(guilds[guildID.value]) else None
  }

  /** The roles of a stored id list, each looked up in the guild or null. */
  function RolesOf(guild: Option<Guild>, ids: Slot<Option<seq<Id>>>): (r: Option<seq<Option<Role>>>)
    ensures r.None? <==> guild.None? || ids.Absent? || ids.value.None?
    ensures r.Some? ==> |r.value| == |ids.value.value|
    ensures r.Some? ==>
      forall i :: 0 <= i < |r.value| ==> r.value[i] == RoleById(guild.value.roles, ids.value.value[i])
  {
    if guild.None? || ids.Absent? || ids.value.None? then None
    else Some(seq(|ids.value.value|, i requires 0 <= i < |ids.value.value| =>
                    RoleById(guild.value.roles, ids.value.value[i])))
  }

  /** The channel of a stored id, or null when the guild or a truthy id is missing. */
  function ChannelOf(guild: Option<Guild>, id: Slot<Option<Id>>): (r: Option<Channel>)
    ensures (guild.None? || id.Absent? || id.value.None? || id.value.value == "") ==> r.None?
    ensures r.Some? ==> r.value in guild.value.channels && Some(r.value.id) == id.value
  {
    if guild.None? || id.Absent? || id.value.None? || id.value.value == "" then None
    else ChannelById(guild.value.channels, id.value.value)
  }

  /** The getters `modRoles`, `adminRoles`, `memberJoinsChannel`,
      `memberLeavesChannel` and `logsChannel`. */
  function ModRoles(c: ConfigState, guilds: map<Id, Guild>): Option<seq<Option<Role>>> {
    RolesOf(GuildOf(c.guildID, guilds), c.modRoleIDs)
  }

  function AdminRoles(c: ConfigState, guilds: map<Id, Guild>): Option<seq<Option<Role>>> {
    RolesOf(GuildOf(c.guildID, guilds), c.adminRoleIDs)
  }

  function MemberJoinsChannel(c: ConfigState, guilds: map<Id, Guild>): Option<Channel> {
    ChannelOf(GuildOf(c.guildID, guilds), c.memberJoinsChannelID)
  }

  function MemberLeavesChannel(c: ConfigState, guilds: map<Id, Guild>): Option<Channel> {
    ChannelOf(GuildOf(c.guildID, guilds), c.memberLeavesChannelID)
  }

  function LogsChannel(c: ConfigState, guilds: map<Id, Guild>): Option<Channel> {
    ChannelOf(GuildOf(c.guildID, guilds), c.logsChannelID)
  }

  /** The getters give null without a cached guild, and list one entry per stored id. */
  lemma GettersNeedGuild(c: ConfigState, guilds: map<Id, Guild>)
    ensures GuildOf(c.guildID, guilds).None? ==>
      ModRoles(c, guilds).None? && AdminRoles(c, guilds).None? && MemberJoinsChannel(c, guilds).None?
      && MemberLeavesChannel(c, guilds).None? && LogsChannel(c, guilds).None?
    ensures ModRoles(c, guilds).Some? ==>
      GuildOf(c.guildID, guilds).Some? && c.modRoleIDs.Present? && c.modRoleIDs.value.Some?
      && |ModRoles(c, guilds).value| == |c.modRoleIDs.value.value|
  {
  }

  /** A role as `edit` is given it: a role object or an id. */
  datatype RoleRef = RoleObject(role: Role) | RoleIdRef(id: Id)

  /** A channel as `edit` is given it: a channel object or an id. */
  datatype ChannelRef = ChannelObject(channel: Channel) | ChannelIdRef(id: Id)

  /** The argument of `edit`; a field not given is `Absent`, a null one `Present(None)`. */
  datatype EditData = EditData(
    prefix: Slot<Option<string>>,
    modRoles: Slot<Option<seq<RoleRef>>>, adminRoles: Slot<Option<seq<RoleRef>>>,
    memberJoinsChannel: Slot<Option<ChannelRef>>, memberLeavesChannel: Slot<Option<ChannelRef>>,
    logsChannel: Slot<Option<ChannelRef>>, autoMod: Slot<Option<bool>>)

  const NO_EDITS: EditData := EditData(Absent, Absent, Absent, Absent, Absent, Absent, Absent)

  /** Why `edit` throws: an unresolvable value, or the guild `this.guild!` reads is
      not cached. */
  datatype EditError = Invalid(error: SentinelError) | GuildNotCached

  /** `roles.resolve(role)`: a role object is itself, an id is looked up. */
  function ResolveRoleRef(g: Guild, r: RoleRef): Option<Role> {
    match r
    case RoleObject(role) => Some(role)
    case RoleIdRef(id) => RoleById(g.roles, id)
  }

  /** `channels.resolve(channel)`, likewise. */
  function ResolveChannelRef(g: Guild, c: ChannelRef): Option<Channel> {
    match c
    case ChannelObject(ch) => Some(ch)
    case ChannelIdRef(id) => ChannelById(g.channels, id)
  }

  /** The ids of a role list when every role resolves, in order. */
  function ResolveRoles(g: Guild, refs: seq<RoleRef>): (r: Option<seq<Id>>)
    ensures r.Some? <==> forall i :: 0 <= i < |refs| ==> ResolveRoleRef(g, refs[i]).Some?
    ensures r.Some? ==> |r.value| == |refs|
    ensures r.Some? ==> forall i :: 0 <= i < |refs| ==> r.value[i] == ResolveRoleRef(g, refs[i]).value.id
  {
    if forall i :: 0 <= i < |refs| ==> ResolveRoleRef(g, refs[i]).Some? then
      Some(seq(|refs|, i requires 0 <= i < |refs| => ResolveRoleRef(g, refs[i]).value.id))
    else None
  }

  /** Whether a column is written: the caller gave the key, or fillNull. */
  predicate Written<T>(s: Slot<T>, fillNull: bool) { s.Present? || fillNull }

  /** The prefix column: the default prefix and a falsy prefix become null. */
  function PrefixColumn(p: Slot<Option<string>>, fillNull: bool, defaultPrefix: string): (c: Slot<Option<string>>)
    ensures c.Present? <==> Written(p, fillNull)
    ensures c.Present? && p == Present(Some(defaultPrefix)) ==> c.value.None?
    ensures c.Present? && c.value.Some? ==>
      p == Present(c.value) && c.value.value != "" && c.value.value != defaultPrefix
  {
    if !Written(p, fillNull) then Absent
    else if p == Present(Some(defaultPrefix)) then Present(None)
    else if p.Present? && p.value.Some? && p.value.value != "" then p
    else Present(None)
  }

  /** A role-list column: null for a falsy list, else the JSON of the resolved ids. */
  function RolesColumn(param: string, refs: Slot<Option<seq<RoleRef>>>, fillNull: bool, guild: Option<Guild>)
    : (r: Result<Slot<Option<string>>, EditError>)
    ensures r.Ok? ==> (r.value.Present? <==> Written(refs, fillNull))
    ensures r.Ok? && r.value.Present? && r.value.value.Some? ==>
      refs.Present? && refs.value.Some?
      && (|refs.value.value| == 0 ==> r.value.value.value == Json.Encode([]))
      && (|refs.value.value| > 0 ==>
            guild.Some? && ResolveRoles(guild.value, refs.value.value).Some?
            && r.value.value.value == Json.Encode(ResolveRoles(guild.value, refs.value.value).value))
    ensures (refs.Absent? || refs.value.None?) ==> r.Ok? && (r.value.Present? ==> r.value.value.None?)
    ensures refs.Present? && refs.value.Some? && |refs.value.value| > 0 && guild.None? ==> r == Err(GuildNotCached)
    ensures refs.Present? && refs.value.Some? && guild.Some? && ResolveRoles(guild.value, refs.value.value).None? ==>
      r == Err(Invalid(NewInvalidType(TypeErrorBase, param, "Array of RoleResolvables")))
  {
    if !Written(refs, fillNull) then Ok(Absent)
    else if refs.Absent? || refs.value.None? then Ok(Present(None))
    else if |refs.value.value| == 0 then Ok(Present(Some(Json.Encode([]))))
    else if guild.None? then Err(GuildNotCached)
    else match ResolveRoles(guild.value, refs.value.value)
      case None => Err(Invalid(NewInvalidType(TypeErrorBase, param, "Array of RoleResolvables")))
      case Some(ids) => Ok(Present(Some(Json.Encode(ids))))
  }

  /** A channel column: null for a falsy channel, else the id of a resolved text
      channel. */
  function ChannelColumn(param: string, ref: Slot<Option<ChannelRef>>, fillNull: bool, guild: Option<Guild>)
    : (r: Result<Slot<Option<Id>>, EditError>)
    ensures r.Ok? ==> (r.value.Present? <==> Written(ref, fillNull))
    ensures r.Ok? && r.value.Present? && r.value.value.Some? ==>
      guild.Some? && ref.Present? && ref.value.Some?
      && var ch := ResolveChannelRef(guild.value, ref.value.value);
         ch.Some? && ch.value.kind == TextKind && r.value.value.value == ch.value.id
    ensures guild.Some? && ref.Present? && ref.value.Some? && ref.value.value != ChannelIdRef("") ==>
      var ch := ResolveChannelRef(guild.value, ref.value.value);
      (ch.None? || ch.value.kind != TextKind) <==>
        r == Err(Invalid(NewInvalidType(TypeErrorBase, param, "string or TextChannel")))
  {
    if !Written(ref, fillNull) then Ok(Absent)
    else if ref.Absent? || ref.value.None? || ref.value.value == ChannelIdRef("") then Ok(Present(None))
    else if guild.None? then Err(GuildNotCached)
    else
      var ch := ResolveChannelRef(guild.value, ref.value.value);
      if ch.None? || ch.value.kind != TextKind then
        Err(Invalid(NewInvalidType(TypeErrorBase, param, "string or TextChannel")))
      else Ok(Present(Some(ch.value.id)))
  }

  /** The `auto_mod` column: written for a boolean or fillNull, as `Number(autoMod ?? 0)`. */
  function AutoModColumn(a: Slot<Option<bool>>, fillNull: bool): (c: Slot<int>)
    ensures c.Present? <==> (a.Present? && a.value.Some?) || fillNull
    ensures c.Present? ==> c.value == (if a == Present(Some(true)) then 1 else 0)
  {
    if (a.Present? && a.value.Some?) || fillNull then Present(if a == Present(Some(true)) then 1 else 0)
    else Absent
  }

  /** The row `edit` writes, or the error it throws first (fields in source order). */
  function EditRow(data: EditData, fillNull: bool, guild: Option<Guild>, defaultPrefix: string)
    : Result<RawConfig, EditError>
  {
    var prefix := PrefixColumn(data.prefix, fillNull, defaultPrefix);
    var mods :- RolesColumn("modRoles", data.modRoles, fillNull, guild);
    var admins :- RolesColumn("adminRoles", data.adminRoles, fillNull, guild);
    var joins :- ChannelColumn("memberJoinsChannel", data.memberJoinsChannel, fillNull, guild);
    var leaves :- ChannelColumn("memberLeavesChannel", data.memberLeavesChannel, fillNull, guild);
    var logs :- ChannelColumn("logsChannel", data.logsChannel, fillNull, guild);
    Ok(RawConfig(Absent, prefix, mods, admins, joins, leaves, logs, AutoModColumn(data.autoMod, fillNull)))
  }

  /** A key is in the written row iff the caller supplied it or fillNull; for
      `autoMod`, supplied means a boolean. The row never sets the id. */
  lemma EditRowColumns(data: EditData, fillNull: bool, guild: Option<Guild>, defaultPrefix: string)
    requires EditRow(data, fillNull, guild, defaultPrefix).Ok?
    ensures var row := EditRow(data, fillNull, guild, defaultPrefix).value;
      row.id.Absent?
      && (row.prefix.Present? <==> Written(data.prefix, fillNull))
      && (row.modRoles.Present? <==> Written(data.modRoles, fillNull))
      && (row.adminRoles.Present? <==> Written(data.adminRoles, fillNull))
      && (row.memberJoinsChannel.Present? <==> Written(data.memberJoinsChannel, fillNull))
      && (row.memberLeavesChannel.Present? <==> Written(data.memberLeavesChannel, fillNull))
      && (row.logsChannel.Present? <==> Written(data.logsChannel, fillNull))
      && (row.autoMod.Present? <==> (data.autoMod.Present? && data.autoMod.value.Some?) || fillNull)
  {
  }

  /** With fillNull and nothing supplied, every column is written as null and
      `auto_mod` as 0. */
  lemma FillNullWritesEverything(guild: Option<Guild>, defaultPrefix: string)
    ensures EditRow(NO_EDITS, true, guild, defaultPrefix)
      == Ok(RawConfig(Absent, Present(None), Present(None), Present(None), Present(None),
                      Present(None), Present(None), Present(0)))
  {
  }

  /** An unresolvable moderator role throws INVALID_TYPE before anything is written. */
  lemma UnresolvedModRoleThrows(data: EditData, fillNull: bool, g: Guild, defaultPrefix: string)
    requires data.modRoles.Present? && data.modRoles.value.Some?
    requires ResolveRoles(g, data.modRoles.value.value).None?
    ensures EditRow(data, fillNull, Some(g), defaultPrefix)
      == Err(Invalid(NewInvalidType(TypeErrorBase, "modRoles", "Array of RoleResolvables")))
  {
  }

  /** Every role column the row holds parses, so patching with it never throws. */
  lemma EditRowParses(data: EditData, fillNull: bool, guild: Option<Guild>, defaultPrefix: string)
    requires EditRow(data, fillNull, guild, defaultPrefix).Ok?
    ensures var row := EditRow(data, fillNull, guild, defaultPrefix).value;
      RolesParse(row.modRoles) && RolesParse(row.adminRoles)
    ensures forall st :: !Patched(st, EditRow(data, fillNull, guild, defaultPrefix).value).threw
  {
    var row := EditRow(data, fillNull, guild, defaultPrefix).value;
    if row.modRoles.Present? && row.modRoles.value.Some? {
      var text := row.modRoles.value.value;
      if |data.modRoles.value.value| == 0 {
        Json.DecodeEncode([]);
      } else {
        Json.DecodeEncode(ResolveRoles(guild.value, data.modRoles.value.value).value);
      }
    }
    if row.adminRoles.Present? && row.adminRoles.value.Some? {
      if |data.adminRoles.value.value| == 0 {
        Json.DecodeEncode([]);
      } else {
        Json.DecodeEncode(ResolveRoles(guild.value, data.adminRoles.value.value).value);
      }
    }
  }

  /** The round trip of a role list: after `edit` the object holds exactly the ids of
      the given roles, in input order. */
  lemma EditedModRolesRoundTrip(st: ConfigState, data: EditData, fillNull: bool, g: Guild, defaultPrefix: string)
    requires data.modRoles.Present? && data.modRoles.value.Some?
    requires EditRow(data, fillNull, Some(g), defaultPrefix).Ok?
    ensures var refs := data.modRoles.value.value;
      var s := Patched(st, EditRow(data, fillNull, Some(g), defaultPrefix).value).state;
      ResolveRoles(g, refs).Some?
      && s.modRoleIDs == Present(Some(ResolveRoles(g, refs).value))
      && |ResolveRoles(g, refs).value| == |refs|
  {
    var refs := data.modRoles.value.value;
    EditRowParses(data, fillNull, Some(g), defaultPrefix);
    if |refs| == 0 {
      Json.DecodeEncode([]);
    } else {
      Json.DecodeEncode(ResolveRoles(g, refs).value);
    }
  }

  /** The default prefix is stored as null, so the object reads it back as null. */
  lemma DefaultPrefixStoredAsNull(st: ConfigState, data: EditData, fillNull: bool, guild: Option<Guild>, defaultPrefix: string)
    requires data.prefix == Present(Some(defaultPrefix))
    requires EditRow(data, fillNull, guild, defaultPrefix).Ok?
    ensures Patched(st, EditRow(data, fillNull, guild, defaultPrefix).value).state.prefix == Present(None)
  {
  }

  /** A statement issued against the `guilds` table. */
  datatype Statement = SelectById(id: Id) | InsertId(id: Id) | UpdateRow(target: Slot<Id>, row: RawConfig)

  /** The table after an UPDATE: the present columns of the row overwrite the stored
      row with that id, if there is one. */
  function Updated(rows: map<Id, RawConfig>, id: Slot<Id>, row: RawConfig): map<Id, RawConfig> {
    if id.Present? && id.value in rows then
      var old_ := rows[id.value];
      rows[id.value := RawConfig(old_.id, Over(row.prefix, old_.prefix), Over(row.modRoles, old_.modRoles),
                                 Over(row.adminRoles, old_.adminRoles),
                                 Over(row.memberJoinsChannel, old_.memberJoinsChannel),
                                 Over(row.memberLeavesChannel, old_.memberLeavesChannel),
                                 Over(row.logsChannel, old_.logsChannel), Over(row.autoMod, old_.autoMod))]
    else rows
  }

  /** The `guilds` table with the statements issued against it, in order. */
  class ConfigStore {
    var rows: map<Id, RawConfig>
    var log: seq<Statement>

    constructor (rows: map<Id, RawConfig>)
      ensures this.rows == rows && log == []
    {
      this.rows := rows;
      log := [];
    }

    /** `SELECT * FROM guilds WHERE id = :id LIMIT 1`. */
    method Select(id: Id) returns (row: Option<RawConfig>)
      modifies this
      ensures rows == old(rows) && log == old(log) + [SelectById(id)]
      ensures row == if id in rows then Some(rows[id]) else None
    {
      log := log + [SelectById(id)];
      row := if id in rows then Some(rows[id]) else None;
    }

    /** The INSERT of a row holding only the id. */
    method Insert(id: Id)
      modifies this
      ensures rows == old(rows)[id := NO_COLUMNS.(id := Present(id))]
      ensures log == old(log) + [InsertId(id)]
    {
      rows := rows[id := NO_COLUMNS.(id := Present(id))];
      log := log + [InsertId(id)];
    }

    /** `UPDATE guilds SET :data WHERE id = :id`. */
    method Update(id: Slot<Id>, row: RawConfig)
      modifies this
      ensures rows == Updated(old(rows), id, row)
      ensures log == old(log) + [UpdateRow(id, row)]
    {
      rows := Updated(rows, id, row);
      log := log + [UpdateRow(id, row)];
    }
  }
}
