/** The error a command throws to answer its user: a template key, the message the
    template renders, an optional bound reply function and the direct-message flag. */
module CommandErrors {
  import opened Wrappers
  import opened Text
  import opened Platform
  import Constants

  /** A handle on the reply function bound to one incoming message. */
  datatype SendFn = SendFn(source: Id)

  /** The arguments a caller passes after the template key. */
  datatype Extra =
    | SendArg(fn: SendFn)
    | StrArg(s: string)
    | ListArg(items: seq<string>)
    | ByBotArg(byBot: bool)
    | PermsArg(perms: Perms)

  /** A message text: rendered, or a template of the source revision whose text is
      not part of this model, applied to its arguments. */
  datatype ErrorText = Rendered(text: string) | Template(key: string, args: seq<Extra>)

  datatype CommandError = CommandError(
    name: string, message: ErrorText, dmError: bool, send: Option<SendFn>)

  /** The error templates: the three whose text is known are rendered, every other key
      keeps its arguments. */
  function RenderError(key: string, args: seq<Extra>): (t: ErrorText)
    ensures key == "NO_PERMISSION" && args == [] ==> t == Rendered(Constants.NO_PERMISSION_DEFAULT)
    ensures key == "NO_PERMISSION" && |args| >= 1 && args[0].StrArg? ==> t == Rendered(args[0].s)
    ensures key == "SAY_NO_ARGS" ==> t == Rendered(Constants.SAY_NO_ARGS_TEXT)
    ensures key !in {"NO_PERMISSION", "SAY_NO_ARGS", "INVALID_MODE"} ==> t == Template(key, args)
  {
    if key == "NO_PERMISSION" && args == [] then Rendered(Constants.NoPermission(None))
    else if key == "NO_PERMISSION" && args[0].StrArg? then Rendered(Constants.NoPermission(Some(args[0].s)))
    else if key == "SAY_NO_ARGS" then Rendered(Constants.SAY_NO_ARGS_TEXT)
    else if key == "INVALID_MODE" && |args| >= 1 && args[0].ListArg? then
      var provided := if |args| >= 2 && args[1].StrArg? then Some(args[1].s) else None;
      Rendered(Constants.InvalidMode(args[0].items, provided))
    else Template(key, args)
  }

  /** The constructor: a leading reply function becomes `send` and is not passed to the
      template; the error starts as a channel error. */
  function NewCommandError(name: string, extras: seq<Extra>): (e: CommandError)
    ensures e.name == name && !e.dmError
    ensures |extras| >= 1 && extras[0].SendArg? ==>
      e.send == Some(extras[0].fn) && e.message == RenderError(name, extras[1..])
    ensures (|extras| == 0 || !extras[0].SendArg?) ==>
      e.send.None? && e.message == RenderError(name, extras)
  {
    if |extras| >= 1 && extras[0].SendArg? then
      CommandError(name, RenderError(name, extras[1..]), false, Some(extras[0].fn))
    else
      CommandError(name, RenderError(name, extras), false, None)
  }

  /** `dm()`: the same error, now answered by direct message. */
  function Dm(e: CommandError): (r: CommandError)
    ensures r.dmError && r.name == e.name && r.message == e.message && r.send == e.send
  {
    e.(dmError := true)
  }

  /** Binding a reply function changes nothing but `send`. */
  lemma SendArgOnlyBinds(name: string, f: SendFn, extras: seq<Extra>)
    requires |extras| == 0 || !extras[0].SendArg?
    ensures NewCommandError(name, [SendArg(f)] + extras)
         == NewCommandError(name, extras).(send := Some(f))
  {
    assert ([SendArg(f)] + extras)[1..] == extras;
  }

  /** The error object itself: the constructor fills its fields and `dm()` flips the
      flag in place and returns the same object. */
  class CommandErrorObject {
    var name: string
    var message: ErrorText
    var dmError: bool
    var send: Option<SendFn>

    function Value(): CommandError
      reads this
    {
      CommandError(name, message, dmError, send)
    }

    constructor (name: string, extras: seq<Extra>)
      ensures Value() == NewCommandError(name, extras)
    {
      var e := NewCommandError(name, extras);
      this.name := e.name;
      this.message := e.message;
      this.send := e.send;
      this.dmError := false;
    }

    method MarkDm() returns (self: CommandErrorObject)
      modifies this
      ensures self == this
      ensures Value() == Dm(old(Value()))
    {
      dmError := true;
      self := this;
    }
  }
}
