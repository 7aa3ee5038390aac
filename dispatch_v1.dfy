/** The `message` event of the original revision: a pipeline without automatic
    moderation, mention reply, direct-message gate or bot permission split. It stops
    first in a channel where the bot cannot send, and it tests the actor's permission
    for truthiness only. Its error routing prefers the direct message. */
module DispatchV1 {
  import opened Wrappers
  import opened Text
  import opened Platform
  import opened CommandErrors
  import opened BaseCommand
  import opened Arguments
  import opened Dispatch
  import Constants

  /** The `catch` of this revision: a direct-message error goes to the author even when
      it carries a reply function; otherwise the reply function, else the channel. */
  function RouteErrorV1(t: Thrown): (r: seq<Effect>)
    ensures t.Raised? && t.error.dmError ==> r == [ErrorToAuthor(t.error.message)]
    ensures t.Raised? && !t.error.dmError ==> r == RouteError(t)
    ensures t.Unexpected? ==> r == RouteError(t)
  {
    match t
    case Raised(e) =>
      if e.dmError then [ErrorToAuthor(e.message)]
      else if e.send.Some? then [ErrorViaSend(e.send.value, e.message)]
      else [ErrorToChannel(e.message)]
    case Unexpected(_, _) => RouteError(t)
  }

  /** The two revisions route an error differently exactly when it is a direct-message
      command error with its own reply function. */
  lemma RoutingDiffersOnlyForBoundDmErrors(t: Thrown)
    ensures RouteErrorV1(t) != RouteError(t) <==> t.Raised? && t.error.dmError && t.error.send.Some?
  {
  }

  /** A permission answer is truthy: true, or a non-empty string. */
  predicate Truthy(a: PermAnswer) {
    a == Allow || (a.Reason? && a.text != "")
  }

  /** The permission stage and the handler: a falsy answer is the NO_PERMISSION error
      bound to the reply function. */
  function Permitted(env: DispatchEnv, msg: Msg, c: Command): seq<Effect> {
    var send := SendFn(msg.id);
    match HasPermissions(c, msg)
    case Faulted => RouteErrorV1(env.nullRead)
    case Answered(a) =>
      if Truthy(a) then
        [Ran(c.name, ArgumentsOf(msg), send)] + (if env.run.RunThrew? then RouteErrorV1(env.run.thrown) else [])
      else RouteErrorV1(Raised(NewCommandError("NO_PERMISSION", [SendArg(send)])))
  }

  /** The whole pipeline of the original revision. */
  function DispatchV1(env: DispatchEnv, msg: Msg): (effects: seq<Effect>)
    ensures msg.author.bot || |msg.content| == 0 ==> effects == []
    ensures msg.guild.Some? && !Has(msg.channel.botPerms, {SendMessages}) ==> effects == []
  {
    if msg.author.bot || |msg.content| == 0 then []
    else if msg.guild.Some? && !Has(msg.channel.botPerms, {SendMessages}) then []
    else if msg.guild.Some? && env.fetched.Err? then RouteErrorV1(env.fetched.error)
    else
      var prefix := EffectivePrefix(env.defaultPrefix, ConfigFor(env, msg));
      if !(prefix <= msg.content) then []
      else
        match Lookup(env.commands, msg.content, prefix)
        case None => []
        case Some(c) => Permitted(env, msg, c)
  }

  /** `message(msg)` of the original revision. */
  method HandleV1(env: DispatchEnv, msg: Msg) returns (effects: seq<Effect>)
    ensures effects == DispatchV1(env, msg)
  {
    if msg.author.bot || |msg.content| == 0 {
      return [];
    }
    var prefix := env.defaultPrefix;
    if msg.guild.Some? {
      if !Has(msg.channel.botPerms, {SendMessages}) {
        return [];
      }
      if env.fetched.Err? {
        return RouteErrorV1(env.fetched.error);
      }
      var config := env.fetched.value;
      if config.prefix.Present? && config.prefix.value.Some? && config.prefix.value.value != "" {
        prefix := config.prefix.value.value;
      }
    }
    if !(prefix <= msg.content) {
      return [];
    }
    var command := Lookup(env.commands, msg.content, prefix);
    if command.None? {
      return [];
    }
    var c := command.value;
    var send := SendFn(msg.id);
    var hasPermission := HasPermissions(c, msg);
    if hasPermission.Faulted? {
      return RouteErrorV1(env.nullRead);
    }
    if !Truthy(hasPermission.answer) {
      return RouteErrorV1(Raised(NewCommandError("NO_PERMISSION", [SendArg(send)])));
    }
    effects := [Ran(c.name, ArgumentsOf(msg), send)];
    if env.run.RunThrew? {
      effects := effects + RouteErrorV1(env.run.thrown);
    }
  }

  // ------------------------------------------------------------------ properties

  /** A false or null answer, or an empty text, is refused with NO_PERMISSION; a non-empty
      refusal text lets the command run. */
  lemma TruthinessDecides(env: DispatchEnv, msg: Msg, c: Command)
    requires HasPermissions(c, msg).Answered?
    ensures var a := HasPermissions(c, msg).answer;
      (!Truthy(a) ==> Permitted(env, msg, c) == [ErrorViaSend(SendFn(msg.id), Rendered(Constants.NO_PERMISSION_DEFAULT))])
      && (Truthy(a) ==> Permitted(env, msg, c)[0] == Ran(c.name, ArgumentsOf(msg), SendFn(msg.id)))
  {
    var e := NewCommandError("NO_PERMISSION", [SendArg(SendFn(msg.id))]);
    assert [SendArg(SendFn(msg.id))][1..] == [];
    assert e.send == Some(SendFn(msg.id)) && !e.dmError && e.message == Rendered(Constants.NO_PERMISSION_DEFAULT);
  }

  /** Where the current revision sends a refusal text, the original one runs the
      command; where the current one stays silent on null, the original one refuses. */
  lemma RevisionsDifferOnAnswers(env: DispatchEnv, msg: Msg, c: Command)
    requires !BotLacks(c, msg)
    ensures forall text :: text != "" && HasPermissions(c, msg) == Answered(Reason(text)) ==>
      Authorised(env, msg, c) == [Replied(SendFn(msg.id), OptionsContent(text), [])]
      && Permitted(env, msg, c)[0].Ran?
    ensures HasPermissions(c, msg) == Answered(Undecided) ==>
      Authorised(env, msg, c) == [] && Permitted(env, msg, c)[0].ErrorViaSend?
  {
    ActorAnswers(env, msg, c);
    if HasPermissions(c, msg).Answered? {
      TruthinessDecides(env, msg, c);
    }
  }

  /** A guild-only command runs in a direct message in this revision, where the current
      one ignores it. */
  lemma NoDirectMessageGate(env: DispatchEnv, msg: Msg)
    requires !msg.author.bot && |msg.content| > 0 && msg.guild.None? && !msg.edited
    requires !IsBotMention(msg.content, env.botId)
    requires env.defaultPrefix <= msg.content
    requires var c := Lookup(env.commands, msg.content, env.defaultPrefix);
      c.Some? && !c.value.dmAllowed && HasPermissions(c.value, msg) == Answered(Allow)
    ensures Dispatch.Dispatch(env, msg, None) == []
    ensures DispatchV1(env, msg)[0].Ran?
  {
  }
}
