/** The static helpers of the bot's utility class: dropping keys from an object, the
    filter of a one-answer wait, role and channel resolution, a guarded property-path
    walk, leading-mention extraction and the member manageability rule. */
module Util {
  import opened Wrappers
  import opened Text
  import opened Platform
  import opened CommandErrors

  // ---------------------------------------------------------------- omitObject

  /** The entries of `entries` whose key is not listed, in their original order. */
  function Without<V>(entries: seq<(string, V)>, keys: seq<string>): (r: seq<(string, V)>)
    ensures |r| <= |entries|
    decreases |entries|
  {
    if entries == [] then []
    else if entries[0].0 in keys then Without(entries[1..], keys)
    else [entries[0]] + Without(entries[1..], keys)
  }

  lemma {:induction false} WithoutMembers<V>(entries: seq<(string, V)>, keys: seq<string>)
    ensures forall e :: e in Without(entries, keys) <==> e in entries && e.0 !in keys
    decreases |entries|
  {
    if entries != [] {
      WithoutMembers(entries[1..], keys);
      assert entries == [entries[0]] + entries[1..];
    }
  }

  lemma {:induction false} WithoutAppend<V>(entries: seq<(string, V)>, e: (string, V), keys: seq<string>)
    ensures Without(entries + [e], keys)
         == Without(entries, keys) + (if e.0 in keys then [] else [e])
    decreases |entries|
  {
    if entries == [] {
      assert [e][1..] == [];
    } else {
      WithoutAppend(entries[1..], e, keys);
      assert (entries + [e])[1..] == entries[1..] + [e];
    }
  }

  /** `omitObject(object, keys)` over the object's entries in insertion order. */
  method OmitObject<V>(entries: seq<(string, V)>, keys: seq<string>) returns (r: seq<(string, V)>)
    ensures r == Without(entries, keys)
  {
    r := [];
    var i := 0;
    while i < |entries|
      invariant 0 <= i <= |entries|
      invariant r == Without(entries[..i], keys)
    {
      var (key, value) := entries[i];
      WithoutAppend(entries[..i], entries[i], keys);
      assert entries[..i + 1] == entries[..i] + [entries[i]];
      if key !in keys {
        r := r + [(key, value)];
      }
      i := i + 1;
    }
    assert entries[..i] == entries;
  }

  // ------------------------------------------------------------- awaitResponse

  /** The `allowedResponses` option: everything, a list of lower-case answers, or a test. */
  datatype Allowed = Anything | OneOf(answers: seq<string>) | Matching(test: Msg -> bool)

  const DEFAULT_RESPONSE_TIME: nat := 180000

  /** A message that arrives `at` milliseconds after the wait started. */
  datatype Arrival = Arrival(at: nat, msg: Msg)

  /** The filter handed to `awaitMessages`. */
  predicate Accepts(allowed: Allowed, user: User, m: Msg) {
    m.author.id == user.id &&
    match allowed
    case Anything => true
    case OneOf(answers) => Lower(m.content) in answers
    case Matching(test) => test(m)
  }

  /** `awaitResponse`: the first message, within the time limit, that passes the filter;
      no option means `*`, no time means three minutes. */
  function AwaitResponse(arrivals: seq<Arrival>, user: User, allowed: Option<Allowed>, time: Option<nat>)
    : (r: Option<Msg>)
    ensures var a := allowed.GetOr(Anything); var t := time.GetOr(DEFAULT_RESPONSE_TIME);
      (r.Some? ==> (exists k :: 0 <= k < |arrivals| && arrivals[k].msg == r.value
                     && arrivals[k].at < t && Accepts(a, user, r.value)
                     && (forall j :: 0 <= j < k ==> !(arrivals[j].at < t && Accepts(a, user, arrivals[j].msg)))))
      && (r.None? ==> forall j :: 0 <= j < |arrivals| ==> !(arrivals[j].at < t && Accepts(a, user, arrivals[j].msg)))
  {
    var a := allowed.GetOr(Anything);
    var t := time.GetOr(DEFAULT_RESPONSE_TIME);
    match Find(arrivals, (x: Arrival) => x.at < t && Accepts(a, user, x.msg))
    case Some(k) => Some(arrivals[k].msg)
    case None => None
  }

  // ---------------------------------------------------- role and channel lookup

  /** `resolveRole(msg, string)`: the first mentioned role, else the role with that id,
      else the first role whose lower-cased name is the string; the string defaults to
      the lower-cased content. */
  function ResolveRole(msg: Msg, s: Option<string>): (r: Option<Role>)
    requires msg.guild.Some?
    ensures var key := s.GetOr(Lower(msg.content)); var roles := msg.guild.value.roles;
      (|msg.mentions.roles| > 0 ==> r == Some(msg.mentions.roles[0]))
      && (|msg.mentions.roles| == 0 && RoleById(roles, key).Some? ==> r == RoleById(roles, key))
      && (|msg.mentions.roles| == 0 && RoleById(roles, key).None? ==>
            (r.Some? <==> exists i :: 0 <= i < |roles| && Lower(roles[i].name) == key)
            && (r.Some? ==> r.value in roles && Lower(r.value.name) == key))
  {
    var key := s.GetOr(Lower(msg.content));
    var roles := msg.guild.value.roles;
    if |msg.mentions.roles| > 0 then Some(msg.mentions.roles[0])
    else if RoleById(roles, key).Some? then RoleById(roles, key)
    else
      match Find(roles, (x: Role) => Lower(x.name) == key)
      case Some(i) => Some(roles[i])
      case None => None
  }

  predicate TypeAllowed(types: Option<seq<ChannelKind>>, kind: ChannelKind) {
    types.None? || kind in types.value
  }

  /** The channel a message forces: its first channel mention, else the channel whose
      id is the string. */
  function ForcedChannel(msg: Msg, key: string): Option<Channel>
    requires msg.guild.Some?
  {
    if |msg.mentions.channels| > 0 then Some(msg.mentions.channels[0])
    else ChannelById(msg.guild.value.channels, key)
  }

  /** `resolveChannel(msg, {string, types})`: a forced channel is returned only when its
      type is allowed, with no name search after it; otherwise the first channel of an
      allowed type whose lower-cased name is the string. */
  function ResolveChannel(msg: Msg, s: Option<string>, types: Option<seq<ChannelKind>>)
    : (r: Option<Channel>)
    requires msg.guild.Some?
    ensures var key := s.GetOr(Lower(msg.content)); var chans := msg.guild.value.channels;
      var forced := ForcedChannel(msg, key);
      (forced.Some? ==> r == (if TypeAllowed(types, forced.value.kind) then forced else None))
      && (forced.None? ==>
            (r.Some? <==> exists i :: 0 <= i < |chans| && TypeAllowed(types, chans[i].kind)
                                        && Lower(chans[i].name) == key)
            && (r.Some? ==> r.value in chans && TypeAllowed(types, r.value.kind)
                            && Lower(r.value.name) == key))
  {
    var key := s.GetOr(Lower(msg.content));
    var chans := msg.guild.value.channels;
    var forced := ForcedChannel(msg, key);
    if forced.Some? then (if TypeAllowed(types, forced.value.kind) then forced else None)
    else
      match Find(chans, (c: Channel) => TypeAllowed(types, c.kind) && Lower(c.name) == key)
      case Some(i) => Some(chans[i])
      case None => None
  }

  /** A resolved channel always has an allowed type. */
  lemma ResolvedChannelHasAllowedType(msg: Msg, s: Option<string>, types: Option<seq<ChannelKind>>)
    requires msg.guild.Some?
    ensures var r := ResolveChannel(msg, s, types); r.Some? ==> TypeAllowed(types, r.value.kind)
  {
  }

  // ------------------------------------------------------------ isManageableBy

  /** `isManageableBy(member, actor)`: the owner manages everyone, nobody else manages the
      owner, and a member manages those whose highest role is not above its own. */
  function IsManageableBy(g: Guild, member: Member, actor: Member): bool {
    if actor.Id() == g.ownerID then true
    else if member.Id() == g.ownerID then false
    else if actor.highest < member.highest then false
    else true
  }

  lemma OwnerManagesEveryone(g: Guild, member: Member, actor: Member)
    requires actor.Id() == g.ownerID
    ensures IsManageableBy(g, member, actor)
  {
  }

  lemma OwnerManagedOnlyByOwner(g: Guild, member: Member, actor: Member)
    requires member.Id() == g.ownerID && actor.Id() != g.ownerID
    ensures !IsManageableBy(g, member, actor)
  {
  }

  /** Between two members that are not the owner, at least one manages the other, and
      equal positions manage each other. */
  lemma ManageabilityTotal(g: Guild, a: Member, b: Member)
    requires a.Id() != g.ownerID && b.Id() != g.ownerID
    ensures IsManageableBy(g, a, b) || IsManageableBy(g, b, a)
    ensures a.highest == b.highest ==> IsManageableBy(g, a, b) && IsManageableBy(g, b, a)
    ensures IsManageableBy(g, a, b) <==> b.highest >= a.highest
  {
  }

  // ------------------------------------------------------------------- getProp

  /** A JavaScript value, as far as `typeof` and property reads tell values apart. */
  datatype JsValue =
    | Undefined | Null | Bool(b: bool) | Num(n: int) | Str(s: string) | Func
    | Obj(fields: seq<(string, JsValue)>)

  function TypeOf(v: JsValue): string {
    match v
    case Undefined => "undefined"
    case Null => "object"
    case Bool(_) => "boolean"
    case Num(_) => "number"
    case Str(_) => "string"
    case Func => "function"
    case Obj(_) => "object"
  }

  /** `object[key]` for an own property; a missing one reads as `undefined`. */
  function Lookup(fields: seq<(string, JsValue)>, key: string): JsValue {
    match Find(fields, (f: (string, JsValue)) => f.0 == key)
    case Some(i) => fields[i].1
    case None => Undefined
  }

  /** Reading a property of anything but an object yields `undefined` here. */
  function Get(v: JsValue, key: string): JsValue {
    if v.Obj? then Lookup(v.fields, key) else Undefined
  }

  /** The value reached by following `keys` from `v`. */
  function Reach(v: JsValue, keys: seq<string>): JsValue
    decreases |keys|
  {
    if keys == [] then v else Reach(Get(v, keys[0]), keys[1..])
  }

  /** How `getProp` fails: its own PROPERTY_DOESNT_EXIST error, or the engine's
      TypeError when a step reads a property of `null`. */
  datatype PropError = DoesntExist(path: seq<string>, prop: string) | ReadOfNull(prop: string)

  function OmitList(omit: Option<seq<string>>): seq<string> { omit.GetOr(["token"]) }

  function FirstKey(path: seq<string>): string { if |path| == 0 then "undefined" else path[0] }

  /** The loop of `getProp` from index `i` with `cur` the value reached so far. */
  function Walk(cur: JsValue, path: seq<string>, i: nat, omit: seq<string>): Result<JsValue, PropError>
    requires 1 <= i <= |path|
    requires i < |path| ==> TypeOf(cur) == "object"
    decreases |path| - i
  {
    if i == |path| then Ok(cur)
    else if path[i] in omit then Ok(cur)
    else if cur.Null? then Err(ReadOfNull(path[i]))
    else
      var next := Get(cur, path[i]);
      var isLast := i == |path| - 1;
      if (TypeOf(next) != "object" && !isLast) || (next.Undefined? && isLast) then
        Err(DoesntExist(path[..i], path[i]))
      else Walk(next, path, i + 1, omit)
  }

  /** What `getProp(object, path, omit)` returns or throws. */
  function GetPropSpec(obj: seq<(string, JsValue)>, path: seq<string>, omit: seq<string>)
    : Result<JsValue, PropError>
  {
    var start := Lookup(obj, FirstKey(path));
    if TypeOf(start) != "object" && |path| > 1 then Err(DoesntExist(["Given Object"], FirstKey(path)))
    else if |path| <= 1 then Ok(start)
    else Walk(start, path, 1, omit)
  }

  method GetProp(obj: seq<(string, JsValue)>, path: seq<string>, omit: Option<seq<string>>)
    returns (r: Result<JsValue, PropError>)
    ensures r == GetPropSpec(obj, path, OmitList(omit))
  {
    var omitList := OmitList(omit);
    var start := Lookup(obj, FirstKey(path));
    if TypeOf(start) != "object" && |path| > 1 {
      return Err(DoesntExist(["Given Object"], FirstKey(path)));
    }
    if |path| <= 1 {
      return Ok(start);
    }
    var current := start;
    var i := 1;
    while i < |path|
      invariant 1 <= i <= |path|
      invariant i < |path| ==> TypeOf(current) == "object"
      invariant Walk(current, path, i, omitList) == Walk(start, path, 1, omitList)
      decreases |path| - i
    {
      var prop := path[i];
      if prop in omitList {
        return Ok(current);
      }
      if current.Null? {
        return Err(ReadOfNull(prop));
      }
      var isLast := i == |path| - 1;
      var next := Get(current, prop);
      if (TypeOf(next) != "object" && !isLast) || (next.Undefined? && isLast) {
        return Err(DoesntExist(path[..i], prop));
      }
      current := next;
      i := i + 1;
    }
    return Ok(current);
  }

  /** The first index from `i` on whose key is in the omit list, else the path length. */
  function StopAt(path: seq<string>, omit: seq<string>, i: nat): (k: nat)
    requires i <= |path|
    ensures i <= k <= |path|
    ensures forall j :: i <= j < k ==> path[j] !in omit
    ensures k < |path| ==> path[k] in omit
    decreases |path| - i
  {
    if i == |path| || path[i] in omit then i else StopAt(path, omit, i + 1)
  }

  lemma ReachStep(v: JsValue, path: seq<string>, i: nat, k: nat)
    requires i < k <= |path|
    ensures Reach(v, path[i..k]) == Reach(Get(v, path[i]), path[i + 1..k])
  {
    assert path[i..k][0] == path[i];
    assert path[i..k][1..] == path[i + 1..k];
  }

  lemma {:induction false} WalkReturnsReached(cur: JsValue, path: seq<string>, i: nat, omit: seq<string>)
    requires 1 <= i <= |path|
    requires i < |path| ==> TypeOf(cur) == "object"
    ensures Walk(cur, path, i, omit).Ok? ==>
      Walk(cur, path, i, omit).value == Reach(cur, path[i..StopAt(path, omit, i)])
    decreases |path| - i
  {
    if i < |path| && path[i] !in omit && !cur.Null? {
      var next := Get(cur, path[i]);
      var isLast := i == |path| - 1;
      if !((TypeOf(next) != "object" && !isLast) || (next.Undefined? && isLast)) {
        WalkReturnsReached(next, path, i + 1, omit);
        ReachStep(cur, path, i, StopAt(path, omit, i));
      }
    }
  }

  lemma {:induction false} WalkErrorNamesStep(cur: JsValue, path: seq<string>, i: nat, omit: seq<string>)
    requires 1 <= i <= |path|
    requires i < |path| ==> TypeOf(cur) == "object"
    ensures var r := Walk(cur, path, i, omit);
      r.Err? && r.error.DoesntExist? ==>
        var n := |r.error.path|;
        i <= n < |path| && r.error.path == path[..n] && r.error.prop == path[n]
        && (forall j :: i <= j <= n ==> path[j] !in omit)
        && (n < |path| - 1 ==> TypeOf(Reach(cur, path[i..n + 1])) != "object")
        && (n == |path| - 1 ==> Reach(cur, path[i..]).Undefined?)
    decreases |path| - i
  {
    if i < |path| && path[i] !in omit && !cur.Null? {
      var next := Get(cur, path[i]);
      var isLast := i == |path| - 1;
      ReachStep(cur, path, i, i + 1);
      assert path[i + 1..i + 1] == [];
      if !((TypeOf(next) != "object" && !isLast) || (next.Undefined? && isLast)) {
        WalkErrorNamesStep(next, path, i + 1, omit);
        var r := Walk(next, path, i + 1, omit);
        if r.Err? && r.error.DoesntExist? {
          var n := |r.error.path|;
          ReachStep(cur, path, i, n + 1);
          if n == |path| - 1 {
            ReachStep(cur, path, i, |path|);
            assert path[i..] == path[i..|path|];
            assert path[i + 1..] == path[i + 1..|path|];
          }
        }
      } else if isLast {
        assert path[i..] == path[i..i + 1];
      }
    }
  }

  /** A successful `getProp` returns the value at the path, cut short just before the
      first omitted key after the first one. */
  lemma GetPropReturnsReached(obj: seq<(string, JsValue)>, path: seq<string>, omit: seq<string>)
    requires |path| >= 1
    ensures var r := GetPropSpec(obj, path, omit);
      r.Ok? ==> r.value == Reach(Lookup(obj, path[0]), path[1..StopAt(path, omit, 1)])
  {
    var start := Lookup(obj, path[0]);
    if |path| > 1 && TypeOf(start) == "object" {
      WalkReturnsReached(start, path, 1, omit);
    }
  }

  /** Every PROPERTY_DOESNT_EXIST names the step that failed: the first key when the
      path is long and its first value is not an object, or a later key whose value is
      not an object before the end, or is undefined at the end. */
  lemma GetPropErrorNamesStep(obj: seq<(string, JsValue)>, path: seq<string>, omit: seq<string>)
    ensures var r := GetPropSpec(obj, path, omit);
      var start := Lookup(obj, FirstKey(path));
      r.Err? && r.error.DoesntExist? ==>
        (r.error.path == ["Given Object"] && |path| > 1 && r.error.prop == path[0]
           && TypeOf(start) != "object")
        || (var n := |r.error.path|;
            1 <= n < |path| && r.error.path == path[..n] && r.error.prop == path[n]
            && (forall j :: 1 <= j <= n ==> path[j] !in omit)
            && (n < |path| - 1 ==> TypeOf(Reach(start, path[1..n + 1])) != "object")
            && (n == |path| - 1 ==> Reach(start, path[1..]).Undefined?))
  {
    var start := Lookup(obj, FirstKey(path));
    if |path| > 1 && TypeOf(start) == "object" {
      WalkErrorNamesStep(start, path, 1, omit);
    }
  }

  // ----------------------------------------------------------- extractMentions

  /** Discord API error codes the scan tells apart. */
  const UNKNOWN_MEMBER_CODE := 10007
  const UNKNOWN_USER_CODE := 10013

  /** A failed platform fetch: an API error with its code, or any other error. */
  datatype FetchError = ApiError(code: int) | OtherError(name: string, message: string)

  datatype Fetched<T> = Got(value: T) | Failed(error: FetchError)

  /** What `client.users.fetch(id)` and `guild.members.fetch(user)` answer. */
  datatype Directory = Directory(fetchUser: Id -> Fetched<User>, fetchMember: Id -> Fetched<Member>)

  /** The first-argument shapes: a string, split on spaces, or an array of tokens. */
  datatype MentionSource = FromText(text: string) | FromTokens(tokens: seq<string>)

  function Tokens(src: MentionSource): seq<string> {
    match src
    case FromText(t) => Split(t, ' ')
    case FromTokens(ts) => ts
  }

  /** The result: the remaining text, the users found and, in a guild, the members. */
  datatype MentionData = MentionData(content: string, users: map<Id, User>, members: Option<map<Id, Member>>)

  /** What the scan throws: the UNKNOWN_USER command error, or the fetch error itself. */
  datatype MentionFailure = UnknownUser(error: CommandError) | Rethrown(cause: FetchError)

  /** How a fetch error is handled: UNKNOWN_MEMBER moves on to the next token. */
  datatype OnError = Skip | Abort(failure: MentionFailure)

  function Classify(e: FetchError, userID: Id): OnError {
    if e == ApiError(UNKNOWN_USER_CODE) then Abort(UnknownUser(NewCommandError("UNKNOWN_USER", [StrArg(userID)])))
    else if e == ApiError(UNKNOWN_MEMBER_CODE) then Skip
    else Abort(Rethrown(e))
  }

  /** The id the snowflake pattern finds in a token (`match(...)?.[0]`), if any. */
  type Snowflakes = string -> Option<string>

  predicate IsMention(snowflake: Snowflakes, token: string) {
    snowflake(token).Some? && snowflake(token).value != ""
  }

  /** `limit ?? Infinity`: no limit is `None`. */
  predicate LimitLeft(limit: Option<int>) { limit.None? || limit.value > 0 }

  function Decrement(limit: Option<int>): Option<int> {
    if limit.Some? then Some(limit.value - 1) else None
  }

  datatype ScanEnd = ScanEnd(rest: seq<string>, users: map<Id, User>, members: map<Id, Member>)

  /** The scan of leading mentions, from the tokens still to read and the collections
      filled so far. */
  function Scan(tokens: seq<string>, limit: Option<int>, dm: bool, dir: Directory, snowflake: Snowflakes,
                users: map<Id, User>, members: map<Id, Member>): Result<ScanEnd, MentionFailure>
    decreases |tokens|
  {
    if !LimitLeft(limit) then Ok(ScanEnd(tokens, users, members))
    else if |tokens| == 0 then Ok(ScanEnd(tokens, users, members))
    else if tokens[0] == "" then Ok(ScanEnd(tokens[1..], users, members))
    else if !IsMention(snowflake, tokens[0]) then Ok(ScanEnd(tokens, users, members))
    else
      var id := snowflake(tokens[0]).value;
      var next := Decrement(limit);
      match dir.fetchUser(id)
      case Failed(e) =>
        (match Classify(e, id)
         case Skip => Scan(tokens[1..], next, dm, dir, snowflake, users, members)
         case Abort(f) => Err(f))
      case Got(u) =>
        var withUser := users[u.id := u];
        if dm then Scan(tokens[1..], next, dm, dir, snowflake, withUser, members)
        else
          match dir.fetchMember(u.id)
          case Failed(e) =>
            (match Classify(e, id)
             case Skip => Scan(tokens[1..], next, dm, dir, snowflake, withUser, members)
             case Abort(f) => Err(f))
          case Got(m) => Scan(tokens[1..], next, dm, dir, snowflake, withUser, members[u.id := m])
  }

  function Finish(end: ScanEnd, dm: bool): MentionData {
    MentionData(Join(end.rest, " "), end.users, if dm then None else Some(end.members))
  }

  function ExtractSpec(src: MentionSource, guild: Option<Guild>, limit: Option<int>, dir: Directory,
                       snowflake: Snowflakes): Result<MentionData, MentionFailure>
  {
    match Scan(Tokens(src), limit, guild.None?, dir, snowflake, map[], map[])
    case Ok(end) => Ok(Finish(end, guild.None?))
    case Err(f) => Err(f)
  }

  /** `extractMentions(string, {client, guild, limit})`. */
  method ExtractMentions(src: MentionSource, guild: Option<Guild>, limit: Option<int>, dir: Directory,
                         snowflake: Snowflakes) returns (r: Result<MentionData, MentionFailure>)
    ensures r == ExtractSpec(src, guild, limit, dir, snowflake)
    ensures r.Ok? ==> (r.value.members.None? <==> guild.None?)
  {
    var content := Tokens(src);
    var users: map<Id, User> := map[];
    var members: map<Id, Member> := map[];
    var isDM := guild.None?;
    var left := limit;
    ghost var goal := Scan(content, limit, isDM, dir, snowflake, users, members);
    while LimitLeft(left)
      invariant Scan(content, left, isDM, dir, snowflake, users, members) == goal
      decreases |content|
    {
      if |content| == 0 {
        break;
      }
      var mention := content[0];
      content := content[1..];
      if mention == "" {
        return Ok(Finish(ScanEnd(content, users, members), isDM));
      }
      if !IsMention(snowflake, mention) {
        content := [mention] + content;
        return Ok(Finish(ScanEnd(content, users, members), isDM));
      }
      var userID := snowflake(mention).value;
      var fetched := dir.fetchUser(userID);
      if fetched.Failed? {
        var action := Classify(fetched.error, userID);
        if action.Abort? {
          return Err(action.failure);
        }
      } else {
        var user := fetched.value;
        users := users[user.id := user];
        if !isDM {
          var fetchedMember := dir.fetchMember(user.id);
          if fetchedMember.Failed? {
            var action := Classify(fetchedMember.error, userID);
            if action.Abort? {
              return Err(action.failure);
            }
          } else {
            members := members[user.id := fetchedMember.value];
          }
        }
      }
      left := Decrement(left);
    }
    return Ok(Finish(ScanEnd(content, users, members), isDM));
  }

  /** The scan reads `k` leading tokens, no more than the limit allows: each is a
      mention except a final empty token, which is dropped; the text after them is
      the rest; the scan stopped because the limit ran out, the tokens ran out, an
      empty token was read or the next token is not a mention. Users and members are
      only added, and every user whose fetch succeeded on a read token is recorded,
      even when its member fetch was skipped. */
  lemma {:induction false} ScanShape(tokens: seq<string>, limit: Option<int>, dm: bool, dir: Directory,
                                     snowflake: Snowflakes, users: map<Id, User>, members: map<Id, Member>)
    returns (k: nat)
    requires Scan(tokens, limit, dm, dir, snowflake, users, members).Ok?
    ensures var end := Scan(tokens, limit, dm, dir, snowflake, users, members).value;
      k <= |tokens| && end.rest == tokens[k..]
      && (limit.Some? ==> k <= if limit.value < 0 then 0 else limit.value)
      && (forall j :: 0 <= j < k && tokens[j] == "" ==> j == k - 1)
      && (forall j :: 0 <= j < k && tokens[j] != "" ==> IsMention(snowflake, tokens[j]))
      && (k == |tokens| || (limit.Some? && k >= limit.value) || (k >= 1 && tokens[k - 1] == "")
          || !IsMention(snowflake, tokens[k]))
      && users.Keys <= end.users.Keys && members.Keys <= end.members.Keys
      && (forall j :: 0 <= j < k && tokens[j] != "" && dir.fetchUser(snowflake(tokens[j]).value).Got?
            ==> dir.fetchUser(snowflake(tokens[j]).value).value.id in end.users)
    decreases |tokens|
  {
    if !LimitLeft(limit) || |tokens| == 0 {
      k := 0;
    } else if tokens[0] == "" {
      k := 1;
    } else if !IsMention(snowflake, tokens[0]) {
      k := 0;
    } else {
      var id := snowflake(tokens[0]).value;
      var next := Decrement(limit);
      var rest := tokens[1..];
      var u2, m2 := users, members;
      match dir.fetchUser(id) {
        case Failed(e) =>
        case Got(u) =>
          u2 := users[u.id := u];
          if !dm {
            match dir.fetchMember(u.id) {
              case Failed(e) =>
              case Got(m) => m2 := members[u.id := m];
            }
          }
      }
      assert Scan(tokens, limit, dm, dir, snowflake, users, members)
          == Scan(rest, next, dm, dir, snowflake, u2, m2);
      var k1 := ScanShape(rest, next, dm, dir, snowflake, u2, m2);
      k := k1 + 1;
      var end := Scan(rest, next, dm, dir, snowflake, u2, m2).value;
      assert tokens[k..] == rest[k1..];
      assert k1 >= 1 ==> tokens[k - 1] == rest[k1 - 1];
      assert k1 < |rest| ==> tokens[k] == rest[k1];
      forall j | 0 <= j < k && tokens[j] != "" && dir.fetchUser(snowflake(tokens[j]).value).Got?
        ensures dir.fetchUser(snowflake(tokens[j]).value).value.id in end.users
      {
        if j > 0 {
          assert tokens[j] == rest[j - 1];
        }
      }
    }
  }

  /** A failed scan names its cause: UNKNOWN_USER becomes the command error carrying
      the id of the token `j` being read; any other error except UNKNOWN_MEMBER is
      passed through. */
  lemma {:induction false} ScanFailure(tokens: seq<string>, limit: Option<int>, dm: bool, dir: Directory,
                                       snowflake: Snowflakes, users: map<Id, User>, members: map<Id, Member>)
    returns (j: nat)
    requires Scan(tokens, limit, dm, dir, snowflake, users, members).Err?
    ensures j < |tokens| && IsMention(snowflake, tokens[j])
    ensures var f := Scan(tokens, limit, dm, dir, snowflake, users, members).error;
      (f.UnknownUser? ==> f.error == NewCommandError("UNKNOWN_USER", [StrArg(snowflake(tokens[j]).value)]))
      && (f.Rethrown? ==> f.cause != ApiError(UNKNOWN_USER_CODE) && f.cause != ApiError(UNKNOWN_MEMBER_CODE))
    decreases |tokens|
  {
    var id := snowflake(tokens[0]).value;
    var next := Decrement(limit);
    var rest := tokens[1..];
    var here := true;
    var u2, m2 := users, members;
    match dir.fetchUser(id) {
      case Failed(e) => here := Classify(e, id).Abort?;
      case Got(u) =>
        u2 := users[u.id := u];
        if !dm {
          match dir.fetchMember(u.id) {
            case Failed(e) => here := Classify(e, id).Abort?;
            case Got(m) => here := false; m2 := members[u.id := m];
          }
        } else {
          here := false;
        }
    }
    if here {
      j := 0;
    } else {
      assert Scan(tokens, limit, dm, dir, snowflake, users, members)
          == Scan(rest, next, dm, dir, snowflake, u2, m2);
      var j1 := ScanFailure(rest, next, dm, dir, snowflake, u2, m2);
      j := j1 + 1;
    }
  }
}
