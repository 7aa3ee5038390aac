/** The client's command registry: a map keyed by command name, in insertion order,
    its lookup by name or alias, the keyed insert of command loading, and the runtime
    configuration without its secrets. */
module Registry {
  import opened Wrappers
  import opened Text
  import opened BaseCommand
  import Util

  /** The position of the command registered under `name`. */
  function NameIndex(cmds: seq<Command>, name: string): (r: Option<nat>)
    ensures r.Some? ==> r.value < |cmds| && cmds[r.value].name == name
    ensures r.None? ==> forall j :: 0 <= j < |cmds| ==> cmds[j].name != name
  {
    Find(cmds, (c: Command) => c.name == name)
  }

  /** No two registered commands share a name: the registry is a map. */
  ghost predicate UniqueNames(cmds: seq<Command>) {
    forall i, j :: 0 <= i < j < |cmds| ==> cmds[i].name != cmds[j].name
  }

  /** `aliases.find(a => input === a)` is truthy: the input is a non-empty alias. */
  predicate AliasMatches(c: Command, input: string) {
    input != "" && input in c.aliases
  }

  /** What `resolveCommand(input, true)` returns; `resolveCommand(input)` is its
      `command` part. */
  datatype Resolution = Resolution(alias: Option<string>, command: Option<Command>)

  /** The specification of the lookup. */
  function Resolve(cmds: seq<Command>, input: string): Resolution {
    match NameIndex(cmds, input)
    case Some(k) => Resolution(None, Some(cmds[k]))
    case None =>
      match Find(cmds, (c: Command) => AliasMatches(c, input))
      case Some(k) => Resolution(Some(input), Some(cmds[k]))
      case None => Resolution(None, None)
  }

  /** An exact name wins over every alias, and no alias is reported for it. */
  lemma ExactNameWins(cmds: seq<Command>, input: string, k: nat)
    requires k < |cmds| && cmds[k].name == input && UniqueNames(cmds)
    ensures Resolve(cmds, input) == Resolution(None, Some(cmds[k]))
  {
    var i := NameIndex(cmds, input);
    assert i.Some?;
  }

  /** Without a name match, the first command in registry order having the input as
      an alias is found, together with the alias. */
  lemma FirstAliasWins(cmds: seq<Command>, input: string, k: nat)
    requires k < |cmds| && AliasMatches(cmds[k], input)
    requires forall j :: 0 <= j < k ==> !AliasMatches(cmds[j], input)
    requires forall j :: 0 <= j < |cmds| ==> cmds[j].name != input
    ensures Resolve(cmds, input) == Resolution(Some(input), Some(cmds[k]))
  {
    var f := Find(cmds, (c: Command) => AliasMatches(c, input));
    assert f.Some?;
  }

  /** Nothing is found iff no name and no non-empty alias equals the input; an alias is
      reported only when no name matched. */
  lemma ResolveNothing(cmds: seq<Command>, input: string)
    ensures Resolve(cmds, input).command.None? <==>
      forall j :: 0 <= j < |cmds| ==> cmds[j].name != input && !AliasMatches(cmds[j], input)
    ensures Resolve(cmds, input).command.None? ==> Resolve(cmds, input).alias.None?
    ensures Resolve(cmds, input).alias.Some? ==>
      Resolve(cmds, input).alias == Some(input)
      && (forall j :: 0 <= j < |cmds| ==> cmds[j].name != input)
      && AliasMatches(Resolve(cmds, input).command.value, input)
  {
    var n := NameIndex(cmds, input);
    var f := Find(cmds, (c: Command) => AliasMatches(c, input));
    if n.None? && f.Some? {
      assert AliasMatches(cmds[f.value], input);
    }
  }

  /** The comparison is case-sensitive: a registered name resolves, while the same
      name in lower case, where it differs and no name or alias is written that way,
      resolves to nothing. */
  lemma CaseSensitive(cmds: seq<Command>, k: nat)
    requires k < |cmds| && UniqueNames(cmds) && Lower(cmds[k].name) != cmds[k].name
    requires forall j :: 0 <= j < |cmds| ==>
      cmds[j].name != Lower(cmds[k].name) && !AliasMatches(cmds[j], Lower(cmds[k].name))
    ensures Resolve(cmds, cmds[k].name) == Resolution(None, Some(cmds[k]))
    ensures Resolve(cmds, Lower(cmds[k].name)).command.None?
  {
    ExactNameWins(cmds, cmds[k].name, k);
    ResolveNothing(cmds, Lower(cmds[k].name));
  }

  /** `map.set(name, command)`: a new name is appended, a known one is replaced in
      its position. */
  function Insert(cmds: seq<Command>, c: Command): (r: seq<Command>)
    ensures NameIndex(cmds, c.name).None? ==> r == cmds + [c]
    ensures NameIndex(cmds, c.name).Some? ==> r == cmds[NameIndex(cmds, c.name).value := c]
  {
    match NameIndex(cmds, c.name)
    case Some(k) => cmds[k := c]
    case None => cmds + [c]
  }

  /** After an insert, the name finds the inserted command, every other name finds the
      same as before, and the registry stays a map. */
  lemma InsertReplaces(cmds: seq<Command>, c: Command, other: string)
    requires UniqueNames(cmds) && other != c.name
    ensures var r := Insert(cmds, c);
      UniqueNames(r)
      && NameIndex(r, c.name).Some? && r[NameIndex(r, c.name).value] == c
      && (NameIndex(r, other).Some? <==> NameIndex(cmds, other).Some?)
      && (NameIndex(r, other).Some? ==> r[NameIndex(r, other).value] == cmds[NameIndex(cmds, other).value])
  {
    var r := Insert(cmds, c);
    var k := NameIndex(r, c.name);
    assert k.Some? by {
      match NameIndex(cmds, c.name)
      case Some(i) => assert r[i].name == c.name;
      case None => assert r[|cmds|].name == c.name;
    }
    var ko := NameIndex(cmds, other);
    var ro := NameIndex(r, other);
    if ko.Some? {
      assert r[ko.value] == cmds[ko.value];
      assert ro.Some?;
    } else {
      assert forall j :: 0 <= j < |r| ==> r[j].name != other by {
        forall j | 0 <= j < |r|
          ensures r[j].name != other
        {
          if j < |cmds| && r[j] == cmds[j] { assert cmds[j].name != other; }
        }
      }
    }
  }

  /** The folder holding a command file: the next-to-last path segment, if any. */
  function Folder(file: string): Option<string> {
    var dir := Split(file, '/');
    if |dir| >= 2 then Some(dir[|dir| - 2]) else None
  }

  /** The category a loaded command gets: its folder, unless that is `commands`. */
  function Categorised(c: Command, file: string): (r: Command)
    ensures Folder(file) != Some("commands") ==> r == c.(category := Folder(file))
    ensures Folder(file) == Some("commands") ==> r == c
  {
    var folder := Folder(file);
    if folder != Some("commands") then c.(category := folder) else c
  }

  /** The registry after loading a sequence of constructed commands with their files. */
  function LoadAll(cmds: seq<Command>, loaded: seq<(Command, string)>): seq<Command>
    decreases |loaded|
  {
    if loaded == [] then cmds
    else LoadAll(Insert(cmds, Categorised(loaded[0].0, loaded[0].1)), loaded[1..])
  }

  lemma {:induction false} LoadAllAppend(cmds: seq<Command>, loaded: seq<(Command, string)>, e: (Command, string))
    ensures LoadAll(cmds, loaded + [e]) == Insert(LoadAll(cmds, loaded), Categorised(e.0, e.1))
    decreases |loaded|
  {
    if loaded == [] {
      assert ([] + [e])[1..] == [];
    } else {
      assert (loaded + [e])[1..] == loaded[1..] + [e];
      LoadAllAppend(Insert(cmds, Categorised(loaded[0].0, loaded[0].1)), loaded[1..], e);
    }
  }

  /** A later command with a name already loaded replaces the earlier one. */
  lemma LaterNameReplaces(cmds: seq<Command>, loaded: seq<(Command, string)>, e: (Command, string))
    requires UniqueNames(LoadAll(cmds, loaded))
    ensures var r := LoadAll(cmds, loaded + [e]);
      UniqueNames(r) && NameIndex(r, e.0.name).Some?
      && r[NameIndex(r, e.0.name).value] == Categorised(e.0, e.1)
  {
    LoadAllAppend(cmds, loaded, e);
    var c := Categorised(e.0, e.1);
    var before := LoadAll(cmds, loaded);
    if c.name == "" {
      InsertReplaces(before, c, "x");
    } else {
      InsertReplaces(before, c, "");
    }
  }

  class SentinelClient {
    /** The registered commands, in the map's iteration order. */
    var commands: seq<Command>

    ghost predicate Valid()
      reads this
    {
      UniqueNames(commands)
    }

    constructor ()
      ensures Valid() && commands == []
    {
      commands := [];
    }

    /** `resolveCommand(input, withAlias)`: the name lookup, then the first command in
        registry order with a truthy alias match. */
    method ResolveCommand(input: string) returns (r: Resolution)
      ensures r == Resolve(commands, input)
    {
      var named := NameIndex(commands, input);
      if named.Some? {
        return Resolution(None, Some(commands[named.value]));
      }
      var i := 0;
      while i < |commands|
        invariant 0 <= i <= |commands|
        invariant forall j :: 0 <= j < i ==> !AliasMatches(commands[j], input)
      {
        var command := commands[i];
        if input in command.aliases && input != "" {
          FirstAliasWins(commands, input, i);
          return Resolution(Some(input), Some(command));
        }
        i := i + 1;
      }
      ResolveNothing(commands, input);
      return Resolution(None, None);
    }

    /** `loadCommands` without the filesystem: the registry is cleared, then each
        constructed command is categorised by its folder and set under its name. */
    method LoadCommands(loaded: seq<(Command, string)>)
      modifies this
      ensures Valid()
      ensures commands == LoadAll([], loaded)
    {
      commands := [];
      var i := 0;
      while i < |loaded|
        invariant 0 <= i <= |loaded|
        invariant commands == LoadAll([], loaded[..i])
        invariant UniqueNames(commands)
      {
        var (constructed, file) := loaded[i];
        LaterNameReplaces([], loaded[..i], loaded[i]);
        LoadAllAppend([], loaded[..i], loaded[i]);
        assert loaded[..i + 1] == loaded[..i] + [loaded[i]];
        commands := Insert(commands, Categorised(constructed, file));
        i := i + 1;
      }
      assert loaded[..i] == loaded;
    }
  }

  /** The keys the runtime configuration does not keep. */
  const OMITTED_CONFIG: seq<string> := ["database", "token", "channels"]

  /** The runtime configuration: the given one without the database settings, the
      token and the channel ids, every other entry unchanged and in order. */
  method RuntimeConfig<V>(config: seq<(string, V)>) returns (r: seq<(string, V)>)
    ensures r == Util.Without(config, OMITTED_CONFIG)
    ensures forall e :: e in r <==> e in config && e.0 !in OMITTED_CONFIG
  {
    r := Util.OmitObject(config, OMITTED_CONFIG);
    Util.WithoutMembers(config, OMITTED_CONFIG);
  }
}
