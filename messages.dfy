/** The bot's extension of the platform message: the record of the last reply a
    command gave to it, and the invite codes in its text. */
module Messages {
  import opened Wrappers
  import opened Text
  import opened Platform

  /** The last reply: which command answered, the reply message and how many times
      it was edited since. */
  datatype LastCommand = LastCommand(command: string, response: Id, edits: nat)

  /** One `setLastCommand(command, response)` applied to the previous record. */
  function Record(prev: Option<LastCommand>, command: string, response: Id): (r: LastCommand)
    ensures r.command == command && r.response == response
    ensures prev.None? ==> r.edits == 0
    ensures prev.Some? ==> r.edits == prev.value.edits + 1
  {
    match prev
    case None => LastCommand(command, response, 0)
    case Some(p) => p.(command := command, response := response, edits := p.edits + 1)
  }

  /** The record after a sequence of calls, in order. */
  function AfterCalls(calls: seq<(string, Id)>): Option<LastCommand>
    decreases |calls|
  {
    if calls == [] then None
    else Some(Record(AfterCalls(calls[..|calls| - 1]), calls[|calls| - 1].0, calls[|calls| - 1].1))
  }

  /** After n >= 1 calls there is a record: the last call's command and response,
      edited n - 1 times. */
  lemma {:induction false} RecordCountsEdits(calls: seq<(string, Id)>)
    requires |calls| >= 1
    ensures AfterCalls(calls).Some?
    ensures AfterCalls(calls).value.edits == |calls| - 1
    ensures AfterCalls(calls).value.command == calls[|calls| - 1].0
    ensures AfterCalls(calls).value.response == calls[|calls| - 1].1
    decreases |calls|
  {
    if |calls| > 1 {
      RecordCountsEdits(calls[..|calls| - 1]);
    }
  }

  /** An incoming message with its last-reply record; `calls` is the history of
      `setLastCommand` calls the record summarises. */
  class TrackedMessage {
    const id: Id
    const content: string
    var lastCommand: Option<LastCommand>
    ghost var calls: seq<(string, Id)>

    ghost predicate Valid()
      reads this
    {
      lastCommand == AfterCalls(calls)
    }

    constructor (id: Id, content: string)
      ensures Valid() && this.id == id && this.content == content
      ensures lastCommand.None? && calls == []
    {
      this.id := id;
      this.content := content;
      lastCommand := None;
      calls := [];
    }

    /** `setLastCommand(command, response)`: the first call creates the record with no
        edits, each later one replaces command and response and counts one edit. */
    method SetLastCommand(command: string, response: Id)
      requires Valid()
      modifies this
      ensures Valid()
      ensures calls == old(calls) + [(command, response)]
      ensures lastCommand == Some(Record(old(lastCommand), command, response))
    {
      calls := calls + [(command, response)];
      assert calls[..|calls| - 1] == old(calls);
      match lastCommand {
        case None =>
          lastCommand := Some(LastCommand(command, response, 0));
        case Some(p) =>
          lastCommand := Some(LastCommand(command, response, p.edits + 1));
      }
    }
  }

  /** The last `/`-separated segment of a URL (`split('/').pop()`). */
  function LastSegment(url: string): string {
    var parts := Split(url, '/');
    parts[|parts| - 1]
  }

  lemma {:induction false} JoinEndsWithLast(parts: seq<string>, sep: string)
    requires |parts| >= 1
    ensures var j := Join(parts, sep); var last := parts[|parts| - 1];
      |last| <= |j| && j[|j| - |last|..] == last
      && (|parts| == 1 ==> j == last)
      && (|parts| > 1 ==> |last| + |sep| <= |j| && j[|j| - |last| - |sep|..|j| - |last|] == sep)
    decreases |parts|
  {
    if |parts| > 1 {
      JoinEndsWithLast(parts[1..], sep);
      var rest := Join(parts[1..], sep);
      var last := parts[|parts| - 1];
      assert Join(parts, sep) == (parts[0] + sep) + rest;
      assert parts[1..][|parts| - 2] == last;
      var j := Join(parts, sep);
      if |parts| == 2 {
        assert rest == last;
        assert j[|j| - |last| - |sep|..|j| - |last|] == sep;
      } else {
        assert j[|j| - |last| - |sep|..|j| - |last|] == rest[|rest| - |last| - |sep|..|rest| - |last|];
      }
    }
  }

  /** The segment has no slash and ends the URL; it is the whole URL when there is no
      slash, and otherwise follows the URL's last slash. */
  lemma LastSegmentIsSlashFreeSuffix(url: string)
    ensures var seg := LastSegment(url);
      '/' !in seg && |seg| <= |url| && url[|url| - |seg|..] == seg
    ensures '/' !in url ==> LastSegment(url) == url
    ensures '/' in url ==> |LastSegment(url)| < |url| && url[|url| - |LastSegment(url)| - 1] == '/'
  {
    var parts := Split(url, '/');
    SplitPiecesHaveNoSeparator(url, '/');
    JoinSplit(url, '/');
    JoinEndsWithLast(parts, "/");
    var seg := parts[|parts| - 1];
    if '/' !in url {
      SplitWithoutSeparator(url, '/');
    } else {
      assert |parts| > 1;
      assert url[|url| - |seg| - 1..|url| - |seg|] == "/";
    }
  }

  /** The `invites` getter, given the texts the invite pattern matches in the content:
      `null` without a match, else the last segment of each match, in order. */
  function Invites(matches: seq<string>): (r: Option<seq<string>>)
    ensures matches == [] <==> r.None?
    ensures r.Some? ==> |r.value| == |matches|
    ensures r.Some? ==> forall i :: 0 <= i < |matches| ==> r.value[i] == LastSegment(matches[i])
  {
    if matches == [] then None
    else Some(seq(|matches|, i requires 0 <= i < |matches| => LastSegment(matches[i])))
  }
}
