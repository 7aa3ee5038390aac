/** The `help` command: the registry grouped by category, the commands the user may run
    listed in pages of six, and the single page sent when there is only one. */
module Help {
  import opened Wrappers
  import opened Platform
  import opened BaseCommand
  import opened GuildConfigs
  import Dispatch

  const PAGE_SIZE: nat := 6

  function CategoryOf(c: Command): string { c.category.GetOr("general") }

  // ------------------------------------------------------------------ grouping

  /** The commands of one category, in registry order. */
  function InCategory(cmds: seq<Command>, key: string): (r: seq<Command>)
    decreases |cmds|
  {
    if cmds == [] then []
    else InCategory(cmds[..|cmds| - 1], key) + (if CategoryOf(cmds[|cmds| - 1]) == key then [cmds[|cmds| - 1]] else [])
  }

  /** The position of the first command of a category, `|cmds|` when there is none. */
  function FirstOf(cmds: seq<Command>, key: string): (f: nat)
    ensures f <= |cmds|
    decreases |cmds|
  {
    if cmds == [] then 0
    else
      var f := FirstOf(cmds[..|cmds| - 1], key);
      if f < |cmds| - 1 then f
      else if CategoryOf(cmds[|cmds| - 1]) == key then |cmds| - 1
      else |cmds|
  }

  lemma {:induction false} FirstOfMeaning(cmds: seq<Command>, key: string)
    ensures FirstOf(cmds, key) < |cmds| ==> CategoryOf(cmds[FirstOf(cmds, key)]) == key
    ensures forall p :: 0 <= p < FirstOf(cmds, key) ==> CategoryOf(cmds[p]) != key
    decreases |cmds|
  {
    if cmds != [] {
      var init := cmds[..|cmds| - 1];
      FirstOfMeaning(init, key);
      assert forall p :: 0 <= p < |init| ==> init[p] == cmds[p];
    }
  }

  /** The index of a key among the keys so far: `categories.get(key)`. */
  function IndexOf(keys: seq<string>, key: string): (r: Option<nat>)
    ensures r.Some? ==> r.value < |keys| && keys[r.value] == key
    ensures r.None? ==> key !in keys
    decreases |keys|
  {
    if keys == [] then None
    else if keys[|keys| - 1] == key then Some(|keys| - 1)
    else match IndexOf(keys[..|keys| - 1], key)
      case Some(k) => Some(k)
      case None => None
  }

  /** The keys and groups of `sortCommands` after a prefix of the registry. */
  ghost predicate GroupedSoFar(pre: seq<Command>, keys: seq<string>, groups: seq<seq<Command>>) {
    |keys| == |groups|
    && (forall j, k :: 0 <= j < k < |keys| ==> keys[j] != keys[k])
    && (forall k :: 0 <= k < |keys| ==> groups[k] == InCategory(pre, keys[k]))
    && (forall p :: 0 <= p < |pre| ==> CategoryOf(pre[p]) in keys)
    && (forall k :: 0 <= k < |keys| ==> FirstOf(pre, keys[k]) < |pre|)
    && (forall j, k :: 0 <= j < k < |keys| ==> FirstOf(pre, keys[j]) < FirstOf(pre, keys[k]))
  }

  /** `sortCommands()`: one group per category, each holding that category's commands in
      registry order, the categories in the order they first appear. */
  method SortCommands(cmds: seq<Command>) returns (keys: seq<string>, groups: seq<seq<Command>>)
    ensures |keys| == |groups|
    ensures forall j, k :: 0 <= j < k < |keys| ==> keys[j] != keys[k]
    ensures forall k :: 0 <= k < |keys| ==> groups[k] == InCategory(cmds, keys[k])
    ensures forall p :: 0 <= p < |cmds| ==> CategoryOf(cmds[p]) in keys
    ensures forall j, k :: 0 <= j < k < |keys| ==> FirstOf(cmds, keys[j]) < FirstOf(cmds, keys[k])
  {
    keys, groups := [], [];
    var i := 0;
    while i < |cmds|
      invariant 0 <= i <= |cmds|
      invariant GroupedSoFar(cmds[..i], keys, groups)
    {
      keys, groups := AddCommand(cmds[..i], keys, groups, cmds[i]);
      assert cmds[..i + 1] == cmds[..i] + [cmds[i]];
      i := i + 1;
    }
    assert cmds[..i] == cmds;
  }

  /** One pass of the loop: push onto the command's group, or open a new one. */
  method AddCommand(pre: seq<Command>, keys0: seq<string>, groups0: seq<seq<Command>>, c: Command)
      returns (keys: seq<string>, groups: seq<seq<Command>>)
    requires GroupedSoFar(pre, keys0, groups0)
    ensures GroupedSoFar(pre + [c], keys, groups)
  {
    var key := CategoryOf(c);
    match IndexOf(keys0, key)
    case Some(k) =>
      keys, groups := keys0, groups0[k := groups0[k] + [c]];
      PushKeepsGrouping(pre, keys0, groups0, c, k);
    case None =>
      keys, groups := keys0 + [key], groups0 + [[c]];
      NewGroupKeepsGrouping(pre, keys0, groups0, c);
  }

  /** One more command changes only its own category's group and no first position. */
  lemma Extended(pre: seq<Command>, c: Command, key: string)
    ensures InCategory(pre + [c], key) == InCategory(pre, key) + (if CategoryOf(c) == key then [c] else [])
    ensures FirstOf(pre, key) < |pre| ==> FirstOf(pre + [c], key) == FirstOf(pre, key)
  {
    assert (pre + [c])[..|pre|] == pre;
  }

  lemma PushKeepsGrouping(pre: seq<Command>, keys: seq<string>, groups: seq<seq<Command>>, c: Command, k: nat)
    requires GroupedSoFar(pre, keys, groups)
    requires k < |keys| && keys[k] == CategoryOf(c)
    ensures GroupedSoFar(pre + [c], keys, groups[k := groups[k] + [c]])
  {
    var s := pre + [c];
    forall j | 0 <= j < |keys|
      ensures groups[k := groups[k] + [c]][j] == InCategory(s, keys[j])
      ensures FirstOf(s, keys[j]) == FirstOf(pre, keys[j])
    {
      Extended(pre, c, keys[j]);
    }
    forall p | 0 <= p < |s|
      ensures CategoryOf(s[p]) in keys
    {
      if p < |pre| { assert s[p] == pre[p]; }
    }
  }

  lemma NewGroupKeepsGrouping(pre: seq<Command>, keys: seq<string>, groups: seq<seq<Command>>, c: Command)
    requires GroupedSoFar(pre, keys, groups)
    requires CategoryOf(c) !in keys
    ensures GroupedSoFar(pre + [c], keys + [CategoryOf(c)], groups + [[c]])
  {
    var s := pre + [c];
    var key := CategoryOf(c);
    forall p | 0 <= p < |pre|
      ensures CategoryOf(pre[p]) != key
    {
    }
    FirstOfMeaning(pre, key);
    InCategoryNone(pre, key);
    Extended(pre, c, key);
    assert FirstOf(s, key) == |pre|;
    forall j | 0 <= j < |keys|
      ensures groups[j] == InCategory(s, keys[j])
      ensures FirstOf(s, keys[j]) == FirstOf(pre, keys[j])
    {
      Extended(pre, c, keys[j]);
    }
    forall p | 0 <= p < |s|
      ensures CategoryOf(s[p]) in keys + [key]
    {
      if p < |pre| { assert s[p] == pre[p]; }
    }
  }

  lemma {:induction false} InCategoryNone(cmds: seq<Command>, key: string)
    requires forall p :: 0 <= p < |cmds| ==> CategoryOf(cmds[p]) != key
    ensures InCategory(cmds, key) == []
    decreases |cmds|
  {
    if cmds != [] {
      var init := cmds[..|cmds| - 1];
      assert forall p :: 0 <= p < |init| ==> init[p] == cmds[p];
      InCategoryNone(init, key);
    }
  }

  // ------------------------------------------------------------------ pages

  /** The groups one after the other. */
  function Concat(groups: seq<seq<Command>>): seq<Command>
    decreases |groups|
  {
    if groups == [] then [] else Concat(groups[..|groups| - 1]) + groups[|groups| - 1]
  }

  /** The commands the user may run: `hasPermissions` is exactly true. */
  function Listed(cmds: seq<Command>, msg: Msg): seq<Command>
    decreases |cmds|
  {
    if cmds == [] then []
    else Listed(cmds[..|cmds| - 1], msg)
         + (if HasPermissions(cmds[|cmds| - 1], msg) == Answered(Allow) then [cmds[|cmds| - 1]] else [])
  }

  /** Checking some command throws: a permission mask checked without a member, or a
      predicate that throws. */
  predicate Throws(cmds: seq<Command>, msg: Msg) {
    exists k :: 0 <= k < |cmds| && HasPermissions(cmds[k], msg).Faulted?
  }

  /** A help line: the prefix, the name, the usage when there is one, the description. */
  function Entry(prefix: string, c: Command): string {
    prefix + c.name + " " + (if c.usage != "" then c.usage + " " else "") + "- " + c.description
  }

  function Formatted(prefix: string, cmds: seq<Command>): (r: seq<string>)
    ensures |r| == |cmds| && forall k :: 0 <= k < |cmds| ==> r[k] == Entry(prefix, cmds[k])
  {
    seq(|cmds|, k requires 0 <= k < |cmds| => Entry(prefix, cmds[k]))
  }

  function Flatten(pages: seq<seq<string>>): seq<string>
    decreases |pages|
  {
    if pages == [] then [] else Flatten(pages[..|pages| - 1]) + pages[|pages| - 1]
  }

  /** At least one page; every page but the last holds six entries, the last one at most
      six and, when it is not the only one, at least one. */
  predicate PageShape(pages: seq<seq<string>>) {
    |pages| >= 1 && |pages[|pages| - 1]| <= PAGE_SIZE
    && (forall p :: 0 <= p < |pages| - 1 ==> |pages[p]| == PAGE_SIZE)
    && (|pages| > 1 ==> |pages[|pages| - 1]| >= 1)
  }

  /** `paginateCommands(message)`: the listed commands of the groups, in order, as lines
      in pages of six; null when a permission check throws. */
  method PaginateCommands(groups: seq<seq<Command>>, msg: Msg, prefix: string) returns (pages: Option<seq<seq<string>>>)
    ensures pages.None? <==> Throws(Concat(groups), msg)
    ensures pages.Some? ==>
      PageShape(pages.value) && Flatten(pages.value) == Formatted(prefix, Listed(Concat(groups), msg))
  {
    var ps: seq<seq<string>> := [[]];
    var g := 0;
    while g < |groups|
      invariant 0 <= g <= |groups|
      invariant !Throws(Concat(groups[..g]), msg)
      invariant PageShape(ps) && Flatten(ps) == Formatted(prefix, Listed(Concat(groups[..g]), msg))
    {
      var commands := groups[g];
      var done := Concat(groups[..g]);
      var i := 0;
      assert done + commands[..0] == done;
      while i < |commands|
        invariant 0 <= i <= |commands|
        invariant !Throws(done + commands[..i], msg)
        invariant PageShape(ps) && Flatten(ps) == Formatted(prefix, Listed(done + commands[..i], msg))
      {
        var command := commands[i];
        var seen := done + commands[..i];
        assert done + commands[..i + 1] == seen + [command];
        var has := HasPermissions(command, msg);
        if has.Faulted? {
          ThrowsIn(groups, g, i, msg);
          return None;
        }
        if has == Answered(Allow) {
          ps := Push(ps, Entry(prefix, command));
          assert Formatted(prefix, Listed(seen + [command], msg)) == Formatted(prefix, Listed(seen, msg)) + [Entry(prefix, command)];
        } else {
          assert Listed(seen + [command], msg) == Listed(seen, msg);
        }
        NoThrowAppended(seen, command, msg);
        i := i + 1;
      }
      assert groups[..g + 1][..g] == groups[..g];
      assert commands[..i] == commands;
      g := g + 1;
    }
    assert groups[..g] == groups;
    return Some(ps);
  }

  /** Adding one line: a new page when the last one is full, then the line at its end. */
  method Push(ps: seq<seq<string>>, line: string) returns (r: seq<seq<string>>)
    requires PageShape(ps)
    ensures PageShape(r) && Flatten(r) == Flatten(ps) + [line]
  {
    r := ps;
    if |r[|r| - 1]| == PAGE_SIZE {
      r := r + [[]];
      assert r[..|r| - 1] == ps;
    }
    var last := |r| - 1;
    assert r[..last] == r[last := r[last] + [line]][..last];
    r := r[last := r[last] + [line]];
  }

  lemma NoThrowAppended(seen: seq<Command>, c: Command, msg: Msg)
    requires !Throws(seen, msg) && !HasPermissions(c, msg).Faulted?
    ensures !Throws(seen + [c], msg)
  {
    forall k | 0 <= k < |seen + [c]|
      ensures !HasPermissions((seen + [c])[k], msg).Faulted?
    {
      if k < |seen| {
        assert (seen + [c])[k] == seen[k];
      }
    }
  }

  lemma {:induction false} ConcatAppend(a: seq<seq<Command>>, b: seq<seq<Command>>)
    ensures Concat(a + b) == Concat(a) + Concat(b)
    decreases |b|
  {
    if b == [] {
      assert a + b == a;
    } else {
      var b0 := b[..|b| - 1];
      assert (a + b)[..|a + b| - 1] == a + b0;
      ConcatAppend(a, b0);
    }
  }

  /** A command of group `g` is in the concatenation, so its throwing check makes the whole
      listing throw. */
  lemma ThrowsIn(groups: seq<seq<Command>>, g: nat, i: nat, msg: Msg)
    requires g < |groups| && i < |groups[g]|
    ensures var c := groups[g][i]; HasPermissions(c, msg).Faulted? ==> Throws(Concat(groups), msg)
  {
    assert groups == groups[..g + 1] + groups[g + 1..];
    ConcatAppend(groups[..g + 1], groups[g + 1..]);
    assert groups[..g + 1][..g] == groups[..g];
    var k := |Concat(groups[..g])| + i;
    assert Concat(groups)[k] == groups[g][i];
  }

  // ------------------------------------------------------------------ the reply

  /** `run`: the page sent when there is exactly one, otherwise nothing. */
  function HelpPage(pages: seq<seq<string>>): Option<seq<string>> {
    if |pages| == 1 then Some(pages[0]) else None
  }

  lemma {:induction false} FlattenKeepsFirst(pages: seq<seq<string>>)
    requires |pages| >= 1
    ensures |Flatten(pages)| >= |pages[0]|
    decreases |pages|
  {
    if |pages| > 1 {
      FlattenKeepsFirst(pages[..|pages| - 1]);
    } else {
      assert pages[..0] == [];
    }
  }

  /** A help page is sent exactly when at most six commands are listed, and it then holds
      all of them. */
  lemma OnePageExactlyWhenFew(pages: seq<seq<string>>, lines: seq<string>)
    requires PageShape(pages) && Flatten(pages) == lines
    ensures HelpPage(pages).Some? <==> |lines| <= PAGE_SIZE
    ensures HelpPage(pages).Some? ==> HelpPage(pages).value == lines
  {
    if |pages| == 1 {
      assert pages[..0] == [];
    } else {
      var init := pages[..|pages| - 1];
      FlattenKeepsFirst(init);
      assert init[0] == pages[0];
    }
  }

  /** The help command: the prefix of the cached configuration or the default one, the
      grouping, the pages and the single-page reply. The outer option is null when a
      permission check throws, which happens exactly when checking some registered
      command throws. */
  method RunHelp(cmds: seq<Command>, msg: Msg, config: Option<ConfigState>, defaultPrefix: string)
      returns (r: Option<Option<seq<string>>>)
    ensures r.None? <==> Throws(cmds, msg)
    ensures r.Some? && r.value.Some? ==> |r.value.value| <= PAGE_SIZE
    ensures r.Some? && r.value.Some? ==>
      forall k :: 0 <= k < |r.value.value| ==>
        EntryOfAllowed(cmds, msg, Dispatch.EffectivePrefix(defaultPrefix, config), r.value.value[k])
  {
    var prefix := Dispatch.EffectivePrefix(defaultPrefix, config);
    var keys, groups := SortCommands(cmds);
    var pages := PaginateCommands(groups, msg, prefix);
    ThrowsRegrouped(cmds, keys, groups, msg);
    if pages.None? {
      return None;
    }
    var page := HelpPage(pages.value);
    var lines := Formatted(prefix, Listed(Concat(groups), msg));
    OnePageExactlyWhenFew(pages.value, lines);
    if page.Some? {
      EntriesFromGroups(cmds, keys, groups, msg, prefix, lines);
      assert page.value == lines;
    }
    return Some(page);
  }

  lemma {:induction false} InCategoryFrom(cmds: seq<Command>, key: string, c: Command)
    requires c in InCategory(cmds, key)
    ensures c in cmds
    decreases |cmds|
  {
    if cmds != [] {
      var init := cmds[..|cmds| - 1];
      if c in InCategory(init, key) {
        InCategoryFrom(init, key, c);
      }
    }
  }

  lemma {:induction false} ConcatFrom(groups: seq<seq<Command>>, c: Command) returns (g: nat)
    requires c in Concat(groups)
    ensures g < |groups| && c in groups[g]
    decreases |groups|
  {
    var init := groups[..|groups| - 1];
    if c in Concat(init) {
      g := ConcatFrom(init, c);
    } else {
      g := |groups| - 1;
    }
  }

  lemma {:induction false} ListedFrom(cmds: seq<Command>, msg: Msg, c: Command)
    requires c in Listed(cmds, msg)
    ensures c in cmds && HasPermissions(c, msg) == Answered(Allow)
    decreases |cmds|
  {
    var init := cmds[..|cmds| - 1];
    if c in Listed(init, msg) {
      ListedFrom(init, msg, c);
    }
  }

  /** A help line lists a registered command the user may run. */
  ghost predicate EntryOfAllowed(cmds: seq<Command>, msg: Msg, prefix: string, line: string) {
    exists c :: c in cmds && HasPermissions(c, msg) == Answered(Allow) && line == Entry(prefix, c)
  }

  /** Every formatted line names a registered command the user may run. */
  lemma EntriesFromGroups(cmds: seq<Command>, keys: seq<string>, groups: seq<seq<Command>>, msg: Msg,
                          prefix: string, lines: seq<string>)
    requires |keys| == |groups| && forall j :: 0 <= j < |keys| ==> groups[j] == InCategory(cmds, keys[j])
    requires lines == Formatted(prefix, Listed(Concat(groups), msg))
    ensures forall k :: 0 <= k < |lines| ==> EntryOfAllowed(cmds, msg, prefix, lines[k])
  {
    var listed := Listed(Concat(groups), msg);
    forall k | 0 <= k < |lines|
      ensures EntryOfAllowed(cmds, msg, prefix, lines[k])
    {
      ListedFromGroups(cmds, keys, groups, msg, k);
      assert lines[k] == Entry(prefix, listed[k]);
    }
  }

  /** Every listed command is a registered command the user may run. */
  lemma ListedFromGroups(cmds: seq<Command>, keys: seq<string>, groups: seq<seq<Command>>, msg: Msg, k: nat)
    requires |keys| == |groups| && forall j :: 0 <= j < |keys| ==> groups[j] == InCategory(cmds, keys[j])
    requires k < |Listed(Concat(groups), msg)|
    ensures var c := Listed(Concat(groups), msg)[k]; c in cmds && HasPermissions(c, msg) == Answered(Allow)
  {
    var c := Listed(Concat(groups), msg)[k];
    ListedFrom(Concat(groups), msg, c);
    var g := ConcatFrom(groups, c);
    InCategoryFrom(cmds, keys[g], c);
  }

  lemma {:induction false} InCategoryHas(cmds: seq<Command>, p: nat)
    requires p < |cmds|
    ensures cmds[p] in InCategory(cmds, CategoryOf(cmds[p]))
    decreases |cmds|
  {
    var init := cmds[..|cmds| - 1];
    if p < |init| {
      InCategoryHas(init, p);
      assert init[p] == cmds[p];
    }
  }

  lemma {:induction false} ConcatHas(groups: seq<seq<Command>>, g: nat, c: Command)
    requires g < |groups| && c in groups[g]
    ensures c in Concat(groups)
    decreases |groups|
  {
    if g < |groups| - 1 {
      var init := groups[..|groups| - 1];
      assert init[g] == groups[g];
      ConcatHas(init, g, c);
    }
  }

  /** Checking the groups throws exactly when checking the registry throws: the groups
      hold every registered command and nothing else. */
  lemma ThrowsRegrouped(cmds: seq<Command>, keys: seq<string>, groups: seq<seq<Command>>, msg: Msg)
    requires |keys| == |groups| && forall j :: 0 <= j < |keys| ==> groups[j] == InCategory(cmds, keys[j])
    requires forall p :: 0 <= p < |cmds| ==> CategoryOf(cmds[p]) in keys
    ensures Throws(Concat(groups), msg) <==> Throws(cmds, msg)
  {
    var all := Concat(groups);
    if Throws(all, msg) {
      var k :| 0 <= k < |all| && HasPermissions(all[k], msg).Faulted?;
      var g := ConcatFrom(groups, all[k]);
      InCategoryFrom(cmds, keys[g], all[k]);
      var p :| 0 <= p < |cmds| && cmds[p] == all[k];
    }
    if Throws(cmds, msg) {
      var p :| 0 <= p < |cmds| && HasPermissions(cmds[p], msg).Faulted?;
      var j :| 0 <= j < |keys| && keys[j] == CategoryOf(cmds[p]);
      InCategoryHas(cmds, p);
      ConcatHas(groups, j, cmds[p]);
      var k :| 0 <= k < |all| && all[k] == cmds[p];
    }
  }
}
