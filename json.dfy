/** The JSON text of a list of strings, as the configuration store keeps role lists:
    `["a","b"]`, with `"` and `\` escaped by a backslash and no white space, and the
    parser that reads it back. */
module Json {
  import opened Wrappers

  /** The body of a JSON string literal. */
  function Escape(x: string): string {
    if x == [] then []
    else (if x[0] == '"' || x[0] == '\\' then ['\\', x[0]] else [x[0]]) + Escape(x[1..])
  }

  function Quote(x: string): string { "\"" + Escape(x) + "\"" }

  /** The items of a non-empty list, comma-separated. */
  function EncodeItems(xs: seq<string>): string
    requires |xs| >= 1
    decreases |xs|
  {
    if |xs| == 1 then Quote(xs[0]) else Quote(xs[0]) + "," + EncodeItems(xs[1..])
  }

  /** `JSON.stringify` of a list of strings. */
  function Encode(xs: seq<string>): (r: string)
    ensures |r| >= 2 && r[0] == '[' && r[|r| - 1] == ']'
  {
    "[" + (if xs == [] then "" else EncodeItems(xs)) + "]"
  }

  /** Reads the body of a string literal up to its closing quote, giving the string and
      what follows the quote. */
  function ParseString(s: string): (r: Option<(string, string)>)
    ensures r.Some? ==> |r.value.1| < |s|
    decreases |s|
  {
    if s == [] then None
    else if s[0] == '"' then Some(([], s[1..]))
    else if s[0] == '\\' then
      if |s| >= 2 && (s[1] == '"' || s[1] == '\\') then
        match ParseString(s[2..])
        case Some((x, rest)) => Some(([s[1]] + x, rest))
        case None => None
      else None
    else
      match ParseString(s[1..])
      case Some((x, rest)) => Some(([s[0]] + x, rest))
      case None => None
  }

  /** Reads comma-separated string literals up to the closing bracket, which must end
      the text. */
  function DecodeItems(t: string): Option<seq<string>>
    decreases |t|
  {
    if |t| == 0 || t[0] != '"' then None
    else
      match ParseString(t[1..])
      case None => None
      case Some((x, rest)) =>
        if rest == "]" then Some([x])
        else if |rest| >= 1 && rest[0] == ',' then
          match DecodeItems(rest[1..])
          case Some(more) => Some([x] + more)
          case None => None
        else None
  }

  /** `JSON.parse` of a list of strings in the form above; anything else fails. */
  function Decode(s: string): Option<seq<string>> {
    if |s| >= 2 && s[0] == '[' then
      if s[1..] == "]" then Some([]) else DecodeItems(s[1..])
    else None
  }

  lemma {:induction false} ParseEscaped(x: string, rest: string)
    ensures ParseString(Escape(x) + "\"" + rest) == Some((x, rest))
    decreases |x|
  {
    var s := Escape(x) + "\"" + rest;
    if x == [] {
      assert s == "\"" + rest;
      assert s[1..] == rest;
    } else {
      var tail := Escape(x[1..]) + "\"" + rest;
      ParseEscaped(x[1..], rest);
      if x[0] == '"' || x[0] == '\\' {
        assert s == ['\\', x[0]] + tail;
        assert s[2..] == tail;
      } else {
        assert s == [x[0]] + tail;
        assert s[1..] == tail;
      }
      assert [x[0]] + x[1..] == x;
    }
  }

  lemma {:induction false} DecodeEncodedItems(xs: seq<string>)
    requires |xs| >= 1
    ensures DecodeItems(EncodeItems(xs) + "]") == Some(xs)
    decreases |xs|
  {
    var t := EncodeItems(xs) + "]";
    if |xs| == 1 {
      assert t == "\"" + (Escape(xs[0]) + "\"" + "]");
      ParseEscaped(xs[0], "]");
      assert t[1..] == Escape(xs[0]) + "\"" + "]";
      assert t[0] == '"' && [xs[0]] == xs;
    } else {
      var more := EncodeItems(xs[1..]) + "]";
      assert t == "\"" + (Escape(xs[0]) + "\"" + ("," + more));
      ParseEscaped(xs[0], "," + more);
      assert t[1..] == Escape(xs[0]) + "\"" + ("," + more);
      assert ("," + more)[1..] == more;
      DecodeEncodedItems(xs[1..]);
      assert [xs[0]] + xs[1..] == xs;
    }
  }

  /** The round trip: what is written is read back as the same list, in order. */
  lemma DecodeEncode(xs: seq<string>)
    ensures Decode(Encode(xs)) == Some(xs)
  {
    var s := Encode(xs);
    if xs == [] {
      assert s == "[]";
    } else {
      assert s == "[" + (EncodeItems(xs) + "]");
      assert s[1..] == EncodeItems(xs) + "]";
      DecodeEncodedItems(xs);
    }
  }

  /** Different lists have different texts. */
  lemma EncodeInjective(xs: seq<string>, ys: seq<string>)
    requires Encode(xs) == Encode(ys)
    ensures xs == ys
  {
    DecodeEncode(xs);
    DecodeEncode(ys);
  }

  /** The text of a list is never empty, so it is never read as a missing list. */
  lemma EncodeNonEmpty(xs: seq<string>)
    ensures Encode(xs) != ""
  {
  }
}
