/** The response and error templates and the paste-service URL of the bot's constants
    file: each template is a function from its arguments to the text it sends. */
module Constants {
  import opened Wrappers
  import opened Text

  const NO_PERMISSION_DEFAULT := "You don't have permissions to use this command!"
  const SAY_NO_ARGS_TEXT := "Please provide something to say!"
  const HELLO_WORLD_TEXT := "Hello world!"
  const ADDED_CONFIG_TEXT := "Setup the configuration for your server!"
  const NO_IMPLEMENTATION_HEAD := "This command has no implementation method, args:"
  const HASTEBIN_BASE := "https://paste.nomsy.net"

  /** A string argument is truthy when it is present and not empty. */
  predicate Truthy(s: Option<string>) { s.Some? && s.value != "" }

  /** NO_PERMISSION: the given message, or the default when none (`??`) is given. */
  function NoPermission(message: Option<string>): (r: string)
    ensures message.Some? ==> r == message.value
    ensures message.None? ==> r == NO_PERMISSION_DEFAULT
  {
    message.GetOr(NO_PERMISSION_DEFAULT)
  }

  function InvalidModeHead(provided: Option<string>): string {
    if Truthy(provided) then "Mode `" + provided.value + "` is not a valid mode for this command"
    else "Please provide a mode for this command"
  }

  /** INVALID_MODE: which mode was wrong, then the back-ticked modes to try. */
  function InvalidMode(modes: seq<string>, provided: Option<string>): string {
    InvalidModeHead(provided) + ", try one of " + Join(BackTicked(modes), ", ") + "."
  }

  /** The message opens with the provided mode, or with the request for one when the
      mode is missing or empty, and it closes with a full stop. */
  lemma InvalidModeShape(modes: seq<string>, provided: Option<string>)
    ensures var r := InvalidMode(modes, provided);
      var head := if Truthy(provided) then "Mode `" + provided.value + "`"
                  else "Please provide a mode for this command";
      |head| < |r| && r[..|head|] == head && r[|r| - 1] == '.'
  {
  }

  /** Every mode appears back-ticked in the INVALID_MODE text. */
  lemma InvalidModeListsEveryMode(modes: seq<string>, provided: Option<string>, k: nat)
    requires k < |modes|
    ensures Contains(InvalidMode(modes, provided), "`" + modes[k] + "`")
  {
    var list := Join(BackTicked(modes), ", ");
    JoinContains(BackTicked(modes), ", ", k);
    var i :| OccursAt(list, BackTicked(modes)[k], i);
    var head := InvalidModeHead(provided) + ", try one of ";
    var r := InvalidMode(modes, provided);
    assert r == head + list + ".";
    assert r[|head| + i..|head| + i + |BackTicked(modes)[k]|] == list[i..i + |BackTicked(modes)[k]|];
    assert OccursAt(r, "`" + modes[k] + "`", |head| + i);
  }

  /** NO_IMPLEMENTATION: a fixed first line, then the back-ticked args joined by ", ". */
  function NoImplementation(args: seq<string>): (lines: seq<string>)
    ensures |lines| == 2 && lines[0] == NO_IMPLEMENTATION_HEAD
  {
    [NO_IMPLEMENTATION_HEAD, Join(BackTicked(args), ", ")]
  }

  lemma NoImplementationListsEveryArg(args: seq<string>, k: nat)
    requires k < |args|
    ensures Contains(NoImplementation(args)[1], "`" + args[k] + "`")
  {
    JoinContains(BackTicked(args), ", ", k);
  }

  /** URLs.HASTEBIN: the base URL, with `/id` appended only for a non-empty id. */
  function Hastebin(id: string): (url: string)
    ensures id == "" ==> url == HASTEBIN_BASE
    ensures id != "" ==> url == HASTEBIN_BASE + "/" + id
  {
    HASTEBIN_BASE + (if id != "" then "/" + id else "")
  }

  /** The id a paste URL names: what follows the base and the slash. */
  function PasteId(url: string): string {
    if |url| > |HASTEBIN_BASE| + 1 then url[|HASTEBIN_BASE| + 1..] else ""
  }

  lemma PasteIdRoundTrip(id: string)
    ensures PasteId(Hastebin(id)) == id
  {
    if id != "" {
      assert Hastebin(id)[|HASTEBIN_BASE| + 1..] == id;
    }
  }
}
