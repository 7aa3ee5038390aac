/** A command's metadata with its defaults, the permission masks it asks of the bot
    and of the user, and the reply function bound to one incoming message. */
module BaseCommand {
  import opened Wrappers
  import opened Text
  import opened Platform
  import opened CommandErrors
  import opened Messages
  import Constants

  /** What a permission predicate answers: true, false, a refusal text, or null. */
  datatype PermAnswer = Allow | Deny | Reason(text: string) | Undecided

  /** What calling a permission predicate does: it returns an answer, or it throws the
      TypeError of reading a member's property off a value that is not a member (the
      missing member of a guild message, or the user a direct message passes). */
  datatype PredicateCall = Returned(answer: PermAnswer) | ThrewTypeError

  /** A permission predicate, with the arguments it is called with in a guild
      `(member, channel)` and in a direct message `(author, member, channel)`. In a guild
      the member's own guild (`member.guild`) is passed alongside, since a `Member`
      here does not point back to it. */
  datatype PermissionCheck = PermissionCheck(
    inGuild: (Guild, Option<Member>, Channel) -> PredicateCall,
    inDm: (User, Option<Member>, Channel) -> PredicateCall)

  /** The user permission a command declares: a predicate, or a mask of flags. */
  datatype PermissionInput = CheckFn(check: PermissionCheck) | MaskInput(mask: Perms)

  /** The bot permissions a command declares: a permissions object, or anything the
      library resolves to a mask. */
  datatype ClientPermsInput = PermissionsObject(mask: Perms) | ResolvableMask(mask: Perms)

  datatype CommandData = CommandData(
    name: string, description: string, aliases: Option<seq<string>>, usage: Option<string>,
    dmAllowed: Option<bool>, permissions: Option<PermissionInput>,
    clientPermissions: Option<ClientPermsInput>)

  datatype Command = Command(
    name: string, description: string, aliases: seq<string>, usage: string, dmAllowed: bool,
    permissions: Option<PermissionInput>, clientPermissions: Option<Perms>,
    category: Option<string>, path: string)

  /** The bot permission mask: a permissions object is kept unless it is empty, which
      means none; any other input is resolved and SEND_MESSAGES is added unless the
      mask already has it. */
  function ClientPermissions(input: Option<ClientPermsInput>): (r: Option<Perms>)
    ensures input.Some? && input.value.PermissionsObject? ==>
      r == (if input.value.mask == {} then None else Some(input.value.mask))
    ensures (input.None? || input.value.ResolvableMask?) ==>
      var given := if input.Some? then input.value.mask else {};
      r.Some? && Has(r.value, {SendMessages}) && given <= r.value <= given + {SendMessages}
  {
    match input
    case Some(PermissionsObject(m)) => if m == {} then None else Some(m)
    case Some(ResolvableMask(m)) => WithSendMessages(m)
    case None => WithSendMessages({})
  }

  function WithSendMessages(m: Perms): Option<Perms> {
    if Has(m, {SendMessages}) then Some(m) else Some(m + {SendMessages})
  }

  /** A mask of the administrator flag alone already implies SEND_MESSAGES, which is
      then not added. */
  lemma AdministratorImpliesSendMessages()
    ensures ClientPermissions(Some(ResolvableMask({Administrator}))) == Some({Administrator})
  {
  }

  /** A user permission is kept when it is truthy: a predicate, or a non-empty mask. */
  function UserPermissions(input: Option<PermissionInput>): Option<PermissionInput> {
    match input
    case Some(MaskInput(m)) => if m == {} then None else input
    case _ => input
  }

  /** The constructor: the defaults `aliases = []`, `usage = ''`, `dmAllowed = false`. */
  function MakeCommand(data: CommandData, path: string): (c: Command)
    ensures c.name == data.name && c.description == data.description && c.path == path
    ensures c.aliases == data.aliases.GetOr([]) && c.usage == data.usage.GetOr("")
    ensures c.dmAllowed == data.dmAllowed.GetOr(false)
    ensures c.permissions.None? <==>
      data.permissions.None? || (data.permissions.value.MaskInput? && data.permissions.value.mask == {})
    ensures c.permissions.Some? ==> c.permissions == data.permissions
    ensures c.clientPermissions == ClientPermissions(data.clientPermissions)
    ensures c.category.None?
  {
    Command(data.name, data.description, data.aliases.GetOr([]), data.usage.GetOr(""),
            data.dmAllowed.GetOr(false), UserPermissions(data.permissions),
            ClientPermissions(data.clientPermissions), None, path)
  }

  /** What `hasPermissions` gives: an answer, or a TypeError: a mask checked on the
      missing member of a direct message, or a predicate that throws. */
  datatype PermOutcome = Answered(answer: PermAnswer) | Faulted

  /** The outcome of calling a predicate: its answer, or the TypeError it throws. */
  function CallOutcome(call: PredicateCall): PermOutcome {
    match call
    case Returned(a) => Answered(a)
    case ThrewTypeError => Faulted
  }

  /** `Command.hasPermissions(command, message)`. */
  function HasPermissions(c: Command, msg: Msg): (r: PermOutcome)
    ensures c.permissions.None? ==> r == Answered(Allow)
    ensures c.permissions.Some? && c.permissions.value.CheckFn? ==>
      var check := c.permissions.value.check;
      var call := if msg.guild.Some? then check.inGuild(msg.guild.value, msg.member, msg.channel)
                  else check.inDm(msg.author, msg.member, msg.channel);
      (r == Faulted <==> call == ThrewTypeError) && (call.Returned? ==> r == Answered(call.answer))
    ensures c.permissions.Some? && c.permissions.value.MaskInput? ==>
      (msg.member.None? ==> r == Faulted)
      && (msg.member.Some? && msg.guild.Some? ==>
            r == Answered(if MemberHas(msg.guild.value, msg.member.value, c.permissions.value.mask)
                          then Allow else Deny))
  {
    match c.permissions
    case None => Answered(Allow)
    case Some(CheckFn(check)) =>
      if msg.guild.Some? then CallOutcome(check.inGuild(msg.guild.value, msg.member, msg.channel))
      else CallOutcome(check.inDm(msg.author, msg.member, msg.channel))
    case Some(MaskInput(mask)) =>
      if msg.member.None? then Faulted
      else if msg.guild.None? then Answered(if Has(msg.member.value.perms, mask) then Allow else Deny)
      else Answered(if MemberHas(msg.guild.value, msg.member.value, mask) then Allow else Deny)
  }

  /** What a reply carries: a string, lines, a message-options object with content, or
      the output of a response template of the source revision not part of this model. */
  datatype Content =
    | TextContent(text: string)
    | Lines(lines: seq<string>)
    | OptionsContent(content: string)
    | Response(key: string, args: seq<Extra>)

  /** The three response templates whose text is known. */
  function RenderResponse(key: string, args: seq<Extra>): Content {
    if key == "NO_IMPLEMENTATION" && |args| >= 1 && args[0].ListArg? then
      Lines(Constants.NoImplementation(args[0].items))
    else if key == "HELLO_WORLD" then TextContent(Constants.HELLO_WORLD_TEXT)
    else if key == "ADDED_CONFIG" then TextContent(Constants.ADDED_CONFIG_TEXT)
    else Response(key, args)
  }

  /** The first step of `send`: a string naming a response template is replaced by the
      template's output and the options are dropped; anything else is passed on. */
  function PrepareReply(content: Content, options: seq<Extra>, responseKeys: set<string>)
    : (r: (Content, seq<Extra>))
    ensures content.TextContent? && content.text in responseKeys ==>
      r == (RenderResponse(content.text, options), [])
    ensures !(content.TextContent? && content.text in responseKeys) ==> r == (content, options)
  {
    if content.TextContent? && content.text in responseKeys then (RenderResponse(content.text, options), [])
    else (content, options)
  }

  /** A reply as delivered: a new message, or an edit of an earlier reply. */
  datatype Delivery = Posted(id: Id, content: Content, options: seq<Extra>)
                    | Edited(id: Id, content: Content, options: seq<Extra>)

  /** The replies delivered, in order. */
  class Outbox {
    var deliveries: seq<Delivery>

    constructor ()
      ensures deliveries == []
    {
      deliveries := [];
    }

    method Deliver(d: Delivery)
      modifies this
      ensures deliveries == old(deliveries) + [d]
    {
      deliveries := deliveries + [d];
    }
  }

  /** `send` as bound by `getSend(message, command)`: it edits the previous reply when
      the message has a last-reply record and posts a new message (`newId`) otherwise,
      then records the reply. */
  method Send(m: TrackedMessage, command: string, content: Content, options: seq<Extra>,
              responseKeys: set<string>, newId: Id, out: Outbox) returns (response: Id)
    requires m.Valid()
    modifies m, out
    ensures m.Valid()
    ensures var prepared := PrepareReply(content, options, responseKeys);
      match old(m.lastCommand)
      case Some(last) =>
        response == last.response
        && out.deliveries == old(out.deliveries) + [Edited(response, prepared.0, prepared.1)]
      case None =>
        response == newId
        && out.deliveries == old(out.deliveries) + [Posted(newId, prepared.0, prepared.1)]
    ensures m.lastCommand == Some(Record(old(m.lastCommand), command, response))
    ensures m.calls == old(m.calls) + [(command, response)]
  {
    var body, opts := content, options;
    if content.TextContent? && content.text in responseKeys {
      body := RenderResponse(content.text, options);
      opts := [];
    }
    if m.lastCommand.Some? {
      response := m.lastCommand.value.response;
      out.Deliver(Edited(response, body, opts));
    } else {
      response := newId;
      out.Deliver(Posted(newId, body, opts));
    }
    m.SetLastCommand(command, response);
  }
}
