/** Command arguments: the positional arguments, taken from the lower-cased content
    with user, role and channel mentions rewritten to readable names, alongside the
    `regular` tokens of the original content. */
module Arguments {
  import opened Wrappers
  import opened Text
  import opened Platform

  /** The mention forms `<@!id>`, `<@id>`, `<@&id>` and `<#id>`. */
  datatype MentionKind = NickMention | UserMention | RoleMention | ChannelMention

  function Sigil(k: MentionKind): string {
    match k
    case NickMention => "@!"
    case UserMention => "@"
    case RoleMention => "@&"
    case ChannelMention => "#"
  }

  datatype Mention = Mention(kind: MentionKind, id: string)

  /** The length of the run of digits that starts at `q`. */
  function DigitRun(s: string, q: nat): (n: nat)
    ensures q + n <= |s| || (q >= |s| && n == 0)
    ensures forall j :: q <= j < q + n ==> IsDigit(s[j])
    ensures q + n < |s| ==> !IsDigit(s[q + n])
    decreases |s| - q
  {
    if q < |s| && IsDigit(s[q]) then 1 + DigitRun(s, q + 1) else 0
  }

  /** The kind of mention the sigil after an opening `<` at `p` starts. */
  function KindAt(s: string, p: nat): MentionKind
    requires p + 1 < |s|
  {
    if s[p + 1] == '#' then ChannelMention
    else if p + 2 < |s| && s[p + 2] == '!' then NickMention
    else if p + 2 < |s| && s[p + 2] == '&' then RoleMention
    else UserMention
  }

  /** The mention pattern `<(@!?|@&|#)([0-9]{17,19})>` tried at position `p`: the
      mention and the position just after it. */
  function MatchAt(s: string, p: nat): (r: Option<(Mention, nat)>)
    ensures r.Some? ==> p < r.value.1 <= |s|
  {
    if p + 1 < |s| && s[p] == '<' && (s[p + 1] == '@' || s[p + 1] == '#') then
      var kind := KindAt(s, p);
      var q := p + 1 + |Sigil(kind)|;
      var n := DigitRun(s, q);
      if 17 <= n <= 19 && q + n < |s| && s[q + n] == '>' then Some((Mention(kind, s[q..q + n]), q + n + 1))
      else None
    else None
  }

  /** All non-overlapping mentions from position `p`, left to right (`matchAll`). */
  function MatchesFrom(s: string, p: nat): seq<Mention>
    decreases |s| - p
  {
    if p >= |s| then []
    else match MatchAt(s, p)
      case Some((m, next)) => [m] + MatchesFrom(s, next)
      case None => MatchesFrom(s, p + 1)
  }

  function Matches(s: string): seq<Mention> { MatchesFrom(s, 0) }

  /** How one mention is written into the positional argument. */
  function Render(m: Mention, mentions: Mentions): string {
    if (m.kind == NickMention || m.kind == UserMention) && m.id in mentions.users then
      if m.kind == NickMention && mentions.members.Some? && m.id in mentions.members.value then
        var member := mentions.members.value[m.id];
        "@" + (if member.nickname != "" then member.nickname else member.user.username)
      else "@" + mentions.users[m.id].username
    else if m.kind == RoleMention && RoleById(mentions.roles, m.id).Some? then
      "@" + RoleById(mentions.roles, m.id).value.name
    else if m.kind == ChannelMention && ChannelById(mentions.channels, m.id).Some? then
      "#" + ChannelById(mentions.channels, m.id).value.name
    else "<" + Sigil(m.kind) + m.id + ">"
  }

  function RenderAll(ms: seq<Mention>, mentions: Mentions): string
    decreases |ms|
  {
    if ms == [] then "" else RenderAll(ms[..|ms| - 1], mentions) + Render(ms[|ms| - 1], mentions)
  }

  /** One token of the lower-cased content: a token with mentions becomes their
      renderings alone, any other token is kept. */
  function CleanToken(token: string, mentions: Mentions): string {
    if Matches(token) == [] then token else RenderAll(Matches(token), mentions)
  }

  function CleanTokens(tokens: seq<string>, mentions: Mentions): (r: seq<string>)
    ensures |r| == |tokens|
    ensures forall i :: 0 <= i < |tokens| ==> r[i] == CleanToken(tokens[i], mentions)
  {
    seq(|tokens|, i requires 0 <= i < |tokens| => CleanToken(tokens[i], mentions))
  }

  lemma CleanTokensAppend(tokens: seq<string>, i: nat, mentions: Mentions)
    requires i < |tokens|
    ensures CleanTokens(tokens[..i + 1], mentions)
         == CleanTokens(tokens[..i], mentions) + [CleanToken(tokens[i], mentions)]
  {
    assert tokens[..i + 1][..i] == tokens[..i];
  }

  lemma RenderAllAppend(ms: seq<Mention>, j: nat, mentions: Mentions)
    requires j < |ms|
    ensures RenderAll(ms[..j + 1], mentions) == RenderAll(ms[..j], mentions) + Render(ms[j], mentions)
  {
    assert ms[..j + 1][..j] == ms[..j];
  }

  /** `cleanContent(message)`: the reduce over the space-split lower-cased content, with
      the inner loop that concatenates a token's mention renderings. */
  method CleanContent(msg: Msg) returns (r: seq<string>)
    ensures r == CleanTokens(Split(Lower(msg.content), ' '), msg.mentions)
  {
    var tokens := Split(Lower(msg.content), ' ');
    r := [];
    var i := 0;
    while i < |tokens|
      invariant 0 <= i <= |tokens|
      invariant r == CleanTokens(tokens[..i], msg.mentions)
    {
      var argument := tokens[i];
      CleanTokensAppend(tokens, i, msg.mentions);
      var matches := Matches(argument);
      if |matches| > 0 {
        var newArg := "";
        var j := 0;
        while j < |matches|
          invariant 0 <= j <= |matches|
          invariant newArg == RenderAll(matches[..j], msg.mentions)
        {
          RenderAllAppend(matches, j, msg.mentions);
          newArg := newArg + Render(matches[j], msg.mentions);
          j := j + 1;
        }
        assert matches[..j] == matches;
        r := r + [newArg];
      } else {
        r := r + [argument];
      }
      i := i + 1;
    }
    assert tokens[..i] == tokens;
  }

  /** The arguments object: positional arguments and the raw tokens. */
  datatype CommandArguments = CommandArguments(args: seq<string>, regular: seq<string>)

  /** What `new CommandArguments(message)` holds: both lists drop the command token. */
  function ArgumentsOf(msg: Msg): CommandArguments {
    CommandArguments(CleanTokens(Split(Lower(msg.content), ' '), msg.mentions)[1..],
                     Split(msg.content, ' ')[1..])
  }

  method NewCommandArguments(msg: Msg) returns (a: CommandArguments)
    ensures a == ArgumentsOf(msg)
    ensures |a.args| == |a.regular|
  {
    var cleaned := CleanContent(msg);
    a := CommandArguments(cleaned[1..], Split(msg.content, ' ')[1..]);
    SplitLower(msg.content);
  }

  /** `slice(start, end)`: the same range of both lists. */
  function Slice(a: CommandArguments, start: Option<int>, end: Option<int>): CommandArguments {
    CommandArguments(JsSlice(a.args, start, end), JsSlice(a.regular, start, end))
  }

  /** The positional arguments and `regular` are aligned: equally long, and each
      positional argument is the lower-cased raw token unless that holds a mention. */
  lemma ArgumentsAligned(msg: Msg)
    ensures var a := ArgumentsOf(msg);
      |a.args| == |a.regular|
      && forall i :: 0 <= i < |a.args| ==>
           (Matches(Lower(a.regular[i])) == [] ==> a.args[i] == Lower(a.regular[i]))
  {
    SplitLower(msg.content);
    var a := ArgumentsOf(msg);
    var raw := Split(msg.content, ' ');
    forall i | 0 <= i < |a.args|
      ensures Matches(Lower(a.regular[i])) == [] ==> a.args[i] == Lower(a.regular[i])
    {
      assert a.regular[i] == raw[i + 1];
      assert Split(Lower(msg.content), ' ')[i + 1] == Lower(raw[i + 1]);
    }
  }

  /** Slicing keeps the two lists aligned index by index. */
  lemma SliceKeepsAlignment(a: CommandArguments, start: Option<int>, end: Option<int>)
    requires |a.args| == |a.regular|
    ensures var b := Slice(a, start, end); var from := SliceIndex(|a.args|, start, 0);
      |b.args| == |b.regular|
      && forall i :: 0 <= i < |b.args| ==> b.args[i] == a.args[from + i] && b.regular[i] == a.regular[from + i]
  {
  }

  // ------------------------------------------------------------- the matcher

  lemma {:induction false} NoMatchWithoutOpening(s: string, p: nat)
    requires forall j :: p <= j < |s| ==> s[j] != '<'
    ensures MatchesFrom(s, p) == []
    decreases |s| - p
  {
    if p < |s| {
      NoMatchWithoutOpening(s, p + 1);
    }
  }

  /** A token without `<` passes through unchanged. */
  lemma PlainTokenUnchanged(token: string, mentions: Mentions)
    requires '<' !in token
    ensures CleanToken(token, mentions) == token
  {
    NoMatchWithoutOpening(token, 0);
  }

  /** The text of a mention of a valid id. */
  function MentionText(m: Mention): string {
    "<" + Sigil(m.kind) + m.id + ">"
  }

  predicate ValidId(id: string) {
    17 <= |id| <= 19 && forall j :: 0 <= j < |id| ==> IsDigit(id[j])
  }

  lemma {:induction false} DigitRunOfId(s: string, q: nat, n: nat)
    requires q + n < |s|
    requires forall j :: q <= j < q + n ==> IsDigit(s[j])
    requires !IsDigit(s[q + n])
    ensures DigitRun(s, q) == n
    decreases n
  {
    if n > 0 {
      DigitRunOfId(s, q + 1, n - 1);
    }
  }

  lemma {:induction false} SkipPlain(s: string, p: nat, k: nat)
    requires p <= k <= |s|
    requires forall j :: p <= j < k ==> s[j] != '<'
    ensures MatchesFrom(s, p) == MatchesFrom(s, k)
    decreases k - p
  {
    if p < k {
      SkipPlain(s, p + 1, k);
    }
  }

  /** `t` is laid out as the text of a mention of kind `k` and id `id`: the opening,
      the sigil, the id and the closing. */
  predicate LaidOut(t: string, k: MentionKind, id: string) {
    var sig := Sigil(k);
    |t| == 2 + |sig| + |id| && t[0] == '<' && t[1] == sig[0]
    && (|sig| == 2 ==> t[2] == sig[1])
    && (forall j :: 0 <= j < |id| ==> t[1 + |sig| + j] == id[j])
    && t[|t| - 1] == '>'
  }

  lemma MentionTextLaidOut(m: Mention)
    ensures LaidOut(MentionText(m), m.kind, m.id)
  {
  }

  lemma InSlice(s: string, p: nat, t: string, i: nat)
    requires p + |t| <= |s| && s[p..p + |t|] == t && i < |t|
    ensures s[p + i] == t[i]
  {
    assert s[p..p + |t|][i] == s[p + i];
  }

  /** A sigil followed by a digit is read as its own kind. */
  lemma KindAtSigil(s: string, p: nat, k: MentionKind)
    requires p + 2 < |s| && s[p + 1] == Sigil(k)[0]
    requires |Sigil(k)| == 2 ==> s[p + 2] == Sigil(k)[1]
    requires |Sigil(k)| == 1 ==> IsDigit(s[p + 2])
    ensures KindAt(s, p) == k
  {
  }

  /** The pattern reads a mention at `p` from an opening, the sigil of its kind, a
      run of 17 to 19 digits and a closing. */
  lemma MatchAtParts(s: string, p: nat, m: Mention)
    requires 17 <= |m.id| <= 19 && p + 2 < |s| && s[p] == '<' && s[p + 1] == Sigil(m.kind)[0]
    requires KindAt(s, p) == m.kind
    requires var q := p + 1 + |Sigil(m.kind)|;
      DigitRun(s, q) == |m.id| && q + |m.id| < |s| && s[q + |m.id|] == '>' && s[q..q + |m.id|] == m.id
    ensures MatchAt(s, p) == Some((m, p + 2 + |Sigil(m.kind)| + |m.id|))
  {
  }

  /** The pattern, tried where a laid-out mention starts, reads exactly that mention. */
  lemma MatchAtLaidOut(s: string, p: nat, t: string, m: Mention)
    requires ValidId(m.id) && LaidOut(t, m.kind, m.id)
    requires p + |t| <= |s| && s[p..p + |t|] == t
    ensures MatchAt(s, p) == Some((m, p + |t|))
  {
    var sig := Sigil(m.kind);
    var q := p + 1 + |sig|;
    var n := |m.id|;
    InSlice(s, p, t, 0);
    InSlice(s, p, t, 1);
    InSlice(s, p, t, 2);
    InSlice(s, p, t, |t| - 1);
    forall j | 0 <= j < n ensures s[q + j] == m.id[j] {
      InSlice(s, p, t, 1 + |sig| + j);
    }
    assert |sig| == 1 ==> s[p + 2] == m.id[0];
    KindAtSigil(s, p, m.kind);
    forall j | q <= j < q + n ensures IsDigit(s[j]) {
      assert s[q + (j - q)] == m.id[j - q];
    }
    DigitRunOfId(s, q, n);
    assert s[q..q + n] == m.id;
    MatchAtParts(s, p, m);
  }

  /** The pattern, tried where a mention's text starts, reads exactly that mention. */
  lemma MatchAtMention(s: string, p: nat, m: Mention)
    requires ValidId(m.id)
    requires p + |MentionText(m)| <= |s| && s[p..p + |MentionText(m)|] == MentionText(m)
    ensures MatchAt(s, p) == Some((m, p + |MentionText(m)|))
  {
    MentionTextLaidOut(m);
    MatchAtLaidOut(s, p, MentionText(m), m);
  }

  /** A mention found inside text that has no other `<` is the token's only match. */
  lemma MentionInsidePlainText(x: string, m: Mention, y: string)
    requires ValidId(m.id)
    requires '<' !in x && '<' !in y
    ensures Matches(x + MentionText(m) + y) == [m]
  {
    var t := MentionText(m);
    var s := x + t + y;
    var p := |x|;
    assert s[p..p + |t|] == t;
    MatchAtMention(s, p, m);
    forall j | 0 <= j < p ensures s[j] != '<' {
      assert s[j] == x[j];
    }
    SkipPlain(s, 0, p);
    forall j | p + |t| <= j < |s| ensures s[j] != '<' {
      assert s[j] == y[j - p - |t|];
    }
    NoMatchWithoutOpening(s, p + |t|);
  }

  /** Text around a single mention in a token is dropped: the token becomes the
      rendering of the mention alone. */
  lemma TextAroundMentionDropped(x: string, m: Mention, y: string, mentions: Mentions)
    requires ValidId(m.id)
    requires '<' !in x && '<' !in y
    ensures CleanToken(x + MentionText(m) + y, mentions) == Render(m, mentions)
  {
    MentionInsidePlainText(x, m, y);
    assert [m][..0] == [];
    assert RenderAll([m], mentions) == RenderAll([], mentions) + Render(m, mentions);
  }

  /** An unresolved mention is written back exactly as it appears. */
  lemma UnresolvedMentionVerbatim(m: Mention, mentions: Mentions)
    requires ValidId(m.id)
    requires m.id !in mentions.users
    requires RoleById(mentions.roles, m.id).None? && ChannelById(mentions.channels, m.id).None?
    ensures CleanToken(MentionText(m), mentions) == MentionText(m)
  {
    TextAroundMentionDropped("", m, "", mentions);
    assert "" + MentionText(m) + "" == MentionText(m);
  }

  /** A laid-out mention with too few or too many digits is not read at its start,
      and has no other opening. */
  lemma NoMatchLaidOut(t: string, k: MentionKind, id: string)
    requires (|id| < 17 || |id| > 19) && forall j :: 0 <= j < |id| ==> IsDigit(id[j])
    requires LaidOut(t, k, id)
    ensures MatchAt(t, 0).None?
    ensures forall j :: 1 <= j < |t| ==> t[j] != '<'
  {
    var sig := Sigil(k);
    var q := 1 + |sig|;
    assert |sig| == 1 && |id| > 0 ==> t[2] == id[0];
    forall j | q <= j < q + |id| ensures IsDigit(t[j]) {
      assert t[q + (j - q)] == id[j - q];
    }
    DigitRunOfId(t, q, |id|);
    forall j | 1 <= j < |t| ensures t[j] != '<' {
      if q <= j < q + |id| {
        assert t[q + (j - q)] == id[j - q];
      }
    }
  }

  /** Too few or too many digits is no mention: the token passes through unchanged. */
  lemma WrongLengthIdIsNoMention(m: Mention, mentions: Mentions)
    requires (|m.id| < 17 || |m.id| > 19) && forall j :: 0 <= j < |m.id| ==> IsDigit(m.id[j])
    ensures CleanToken(MentionText(m), mentions) == MentionText(m)
  {
    var s := MentionText(m);
    MentionTextLaidOut(m);
    NoMatchLaidOut(s, m.kind, m.id);
    NoMatchWithoutOpening(s, 1);
  }
}
