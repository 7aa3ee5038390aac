/** The interactive `setup` of the `settings` command: one question per item, each
    answered within the response time by the author; an optional item is skipped with
    `n`, a refused answer is answered with the refusal and the item asked again, a
    valid one recorded. On completion the configuration is edited with fillNull and the
    conversation deleted in bulk; on a timeout what was recorded is deleted and the
    command cancelled without an edit.

    The channel is a parameter: `answers[q]` is what arrives during the `q`-th wait,
    `sentId(n)` the id of the `n`-th message the command sends. Both revisions of the
    command run this loop; they differ only in how an answer is judged. */
module SettingsSetup {
  import opened Wrappers
  import opened Text
  import opened Platform
  import opened GuildConfigs
  import opened Settings
  import SettingsV1
  import Util

  /** What the command does to the outside, in order. */
  datatype SetupEffect =
    | Asked(lines: seq<string>, id: Id)
    | RetrySent(text: string, id: Id)
    | BulkDeleted(ids: seq<Id>)
    | Cancelled(text: string)
    | ConfigEdited(values: EditData, fillNull: bool)
    | Replied(key: string)

  const TIMEOUT_TEXT := "3 Minute response timeout, cancelling command"
  const RETRY_SUFFIX := "please try again"
  const BULK_LIMIT: nat := 100

  /** Which revision of the command runs: the current one judges with `resolveValue` and
      `validateValue`, the original one inline. */
  datatype Revision = Current | Original

  datatype SetupEnv = SetupEnv(revision: Revision, author: User, answers: seq<seq<Util.Arrival>>,
                               sentId: nat -> Id, channels: map<Id, Channel>, needs: PostingNeeds)

  /** Every answer arrives in the guild's channel. */
  predicate InGuild(env: SetupEnv) {
    forall q, k :: 0 <= q < |env.answers| && 0 <= k < |env.answers[q]| ==> env.answers[q][k].msg.guild.Some?
  }

  /** The answer to the `q`-th wait: the first message of the author the item accepts
      within the response time; none once the channel falls silent. */
  function AnswerTo(env: SetupEnv, q: nat, item: SetupItem): (r: Option<Msg>)
    requires InGuild(env)
    ensures r.Some? ==> q < |env.answers| && r.value.guild.Some?
    ensures r.Some? ==> r.value.author.id == env.author.id && Util.Accepts(AllowedAnswers(item), env.author, r.value)
  {
    if q < |env.answers| then Util.AwaitResponse(env.answers[q], env.author, Some(AllowedAnswers(item)), None)
    else None
  }

  /** The loop's variables: the item index, the waits and the sends so far, the values,
      the ids to delete and the effects. */
  datatype SetupState = SetupState(i: nat, q: nat, sends: nat, values: EditData,
                                   messages: seq<Id>, effects: seq<SetupEffect>)

  const START := SetupState(0, 0, 0, NO_EDITS, [], [])

  datatype SetupEnd = Completed | TimedOut | Threw

  datatype StepResult = Next(st: SetupState) | Stopped(end: SetupEnd, effects: seq<SetupEffect>)

  /** Whether an answer skips its item. */
  predicate Skips(item: SetupItem, m: Msg) { item.optional && Lower(m.content) == "n" }

  /** One pass of the loop body for item `st.i`: the question, then the wait. */
  function Step(env: SetupEnv, items: seq<SetupItem>, st: SetupState): (r: StepResult)
    requires InGuild(env) && Schema(items) && st.i < |items|
    ensures r.Next? ==> st.q < |env.answers| && r.st.q == st.q + 1
  {
    var item := items[st.i];
    match AnswerTo(env, st.q, item)
    case None =>
      Stopped(TimedOut, st.effects + [Asked(Question(item), env.sentId(st.sends)),
                                      BulkDeleted(st.messages), Cancelled(TIMEOUT_TEXT)])
    case Some(m) =>
      DecisionFits(env, item, m);
      AfterAnswer(env, items, st, m, Decide(env, item, m))
  }

  /** The judgement of an answer by the revision that runs: `validateValue` of its
      `resolveValue` with the retry suffix, or the original inline checks. */
  function Decide(env: SetupEnv, item: SetupItem, m: Msg): Decision
    requires m.guild.Some?
  {
    match env.revision
    case Current => Judge(item, m, RETRY_SUFFIX, env.channels, env.needs)
    case Original => SettingsV1.JudgeInline(item, m)
  }

  /** Neither revision throws on an answer, and what either stores suits the item's key. */
  lemma DecisionFits(env: SetupEnv, item: SetupItem, m: Msg)
    requires m.guild.Some?
    ensures Decide(env, item, m) != Throw
    ensures WellTyped(item) && Decide(env, item, m).Store? ==> Fits(item.key, Decide(env, item, m).value)
  {
    match env.revision
    case Current => JudgeStoresValid(item, m, RETRY_SUFFIX, env.channels, env.needs);
    case Original => SettingsV1.JudgeInlineStores(item, m);
  }

  /** The rest of the loop body once answer `m` arrived and was judged `d`: both ids are
      recorded, then the item is skipped, asked again after the refusal, or its value
      recorded. */
  function AfterAnswer(env: SetupEnv, items: seq<SetupItem>, st: SetupState, m: Msg, d: Decision): (r: StepResult)
    requires st.i < |items|
    requires d.Store? ==> Fits(items[st.i].key, d.value)
    ensures r.Next? ==> r.st.q == st.q + 1
  {
    var item := items[st.i];
    var qid := env.sentId(st.sends);
    var asked := st.effects + [Asked(Question(item), qid)];
    var recorded := st.messages + [qid, m.id];
    if Skips(item, m) then Next(SetupState(st.i + 1, st.q + 1, st.sends + 1, st.values, recorded, asked))
    else
      match d
      case Refuse(text) =>
        var rid := env.sentId(st.sends + 1);
        Next(SetupState(st.i, st.q + 1, st.sends + 2, st.values, recorded + [rid], asked + [RetrySent(text, rid)]))
      case Throw => Stopped(Threw, asked)
      case Store(v) =>
        Next(SetupState(st.i + 1, st.q + 1, st.sends + 1, Assign(st.values, item.key, v), recorded, asked))
  }

  /** The chunks of 100 taken from the front while more than 100 remain. */
  function Chunks(m: seq<Id>): seq<seq<Id>>
    decreases |m|
  {
    if |m| > BULK_LIMIT then [m[..BULK_LIMIT]] + Chunks(m[BULK_LIMIT..]) else []
  }

  /** The bulk deletions at the end: everything at once up to 100 ids, else the chunks. */
  function Batches(m: seq<Id>): seq<seq<Id>> {
    if |m| > BULK_LIMIT then Chunks(m) else [m]
  }

  function Deletions(batches: seq<seq<Id>>): (r: seq<SetupEffect>)
    ensures |r| == |batches| && forall k :: 0 <= k < |r| ==> r[k] == BulkDeleted(batches[k])
  {
    seq(|batches|, k requires 0 <= k < |batches| => BulkDeleted(batches[k]))
  }

  /** After the last item: the edit with fillNull, the deletions, ADDED_CONFIG. */
  function Finish(st: SetupState): seq<SetupEffect> {
    st.effects + [ConfigEdited(st.values, true)] + Deletions(Batches(st.messages)) + [Replied("ADDED_CONFIG")]
  }

  /** The rest of the loop from a state. */
  function Run(env: SetupEnv, items: seq<SetupItem>, st: SetupState): (SetupEnd, seq<SetupEffect>)
    requires InGuild(env) && Schema(items) && st.i <= |items|
    decreases |env.answers| - st.q
  {
    if st.i == |items| then (Completed, Finish(st))
    else
      match Step(env, items, st)
      case Stopped(end, effects) => (end, effects)
      case Next(next) =>
        if next.i <= |items| then Run(env, items, next) else (Threw, [])
  }

  /** The whole setup. */
  function SetupSpec(env: SetupEnv): (SetupEnd, seq<SetupEffect>)
    requires InGuild(env)
  {
    SchemaWellTyped();
    Run(env, SETUP_ITEMS, START)
  }

  // ------------------------------------------------------------------ the methods

  /** The final deletions: a single one of everything up to 100 ids, otherwise a
      deletion of the first 100 while more than 100 remain. */
  method DeleteBatches(messages: seq<Id>) returns (deleted: seq<seq<Id>>)
    ensures deleted == Batches(messages)
  {
    if |messages| <= BULK_LIMIT {
      return [messages];
    }
    var rest := messages;
    deleted := [];
    while |rest| > BULK_LIMIT
      invariant deleted + Chunks(rest) == Chunks(messages)
      decreases |rest|
    {
      deleted := deleted + [rest[..BULK_LIMIT]];
      rest := rest[BULK_LIMIT..];
    }
  }

  /** One pass of the loop body of `setup`: ask item `st.i` and wait for the answer;
      on a timeout delete what was recorded and cancel. */
  method AskItem(env: SetupEnv, items: seq<SetupItem>, st: SetupState) returns (r: StepResult)
    requires InGuild(env) && Schema(items) && st.i < |items|
    ensures r == Step(env, items, st)
  {
    var item := items[st.i];
    var question := Asked(Question(item), env.sentId(st.sends));
    var response := AnswerTo(env, st.q, item);
    if response.None? {
      var effects := st.effects + [question];
      assert effects + [BulkDeleted(st.messages), Cancelled(TIMEOUT_TEXT)]
        == st.effects + [question, BulkDeleted(st.messages), Cancelled(TIMEOUT_TEXT)];
      return Stopped(TimedOut, effects + [BulkDeleted(st.messages), Cancelled(TIMEOUT_TEXT)]);
    }
    var m := response.value;
    DecisionFits(env, item, m);
    r := HandleAnswer(env, items, st, m, Decide(env, item, m));
  }

  /** The rest of the loop body: record both ids, then skip, send the refusal and stay
      on the item, or record the value and move on. */
  method HandleAnswer(env: SetupEnv, items: seq<SetupItem>, st: SetupState, m: Msg, d: Decision)
      returns (r: StepResult)
    requires st.i < |items|
    requires d.Store? ==> Fits(items[st.i].key, d.value)
    requires d != Throw
    ensures r == AfterAnswer(env, items, st, m, d)
  {
    var item := items[st.i];
    var sends := st.sends;
    var qid := env.sentId(sends);
    sends := sends + 1;
    var effects := st.effects + [Asked(Question(item), qid)];
    var messages := st.messages + [qid, m.id];
    if Skips(item, m) {
      return Next(SetupState(st.i + 1, st.q + 1, sends, st.values, messages, effects));
    }
    if d.Refuse? {
      var rid := env.sentId(sends);
      sends := sends + 1;
      messages := messages + [rid];
      effects := effects + [RetrySent(d.text, rid)];
      return Next(SetupState(st.i, st.q + 1, sends, st.values, messages, effects));
    }
    var values := Assign(st.values, item.key, d.value);
    return Next(SetupState(st.i + 1, st.q + 1, sends, values, messages, effects));
  }

  /** `setup(message, send)`: the loop over the items, then the edit, the deletions and
      the reply. */
  method RunSetup(env: SetupEnv) returns (end: SetupEnd, effects: seq<SetupEffect>)
    requires InGuild(env)
    ensures (end, effects) == SetupSpec(env)
  {
    var items := SETUP_ITEMS;
    SchemaWellTyped();
    var st := START;
    while st.i < |items|
      invariant st.i <= |items|
      invariant Run(env, items, st) == SetupSpec(env)
      decreases |env.answers| - st.q
    {
      var r := AskItem(env, items, st);
      if r.Stopped? {
        return r.end, r.effects;
      }
      if r.st.i > |items| {
        return Threw, [];
      }
      st := r.st;
    }
    var deleted := DeleteBatches(st.messages);
    effects := st.effects + [ConfigEdited(st.values, true)] + Deletions(deleted) + [Replied("ADDED_CONFIG")];
    end := Completed;
  }

  // ------------------------------------------------------------------ properties

  /** A step moves to the next item exactly when the answer skips it or is stored; a
      refused answer keeps the item and the values and sends the refusal. A skip
      records no value, a stored answer its value. */
  lemma StepAdvances(env: SetupEnv, items: seq<SetupItem>, st: SetupState)
    requires InGuild(env) && Schema(items) && st.i < |items|
    requires Step(env, items, st).Next?
    ensures var item := items[st.i]; var m := AnswerTo(env, st.q, item).value;
      var next := Step(env, items, st).st;
      var d := Decide(env, item, m);
      (next.i == st.i + 1 <==> Skips(item, m) || d.Store?)
      && (next.i != st.i + 1 ==> next.i == st.i && next.values == st.values && d.Refuse?
                                 && next.effects[|next.effects| - 1] == RetrySent(d.text, env.sentId(st.sends + 1)))
      && (Skips(item, m) ==> next.values == st.values)
      && (!Skips(item, m) && d.Store? ==> next.values == Assign(st.values, item.key, d.value))
      && next.messages[..|st.messages| + 2] == st.messages + [env.sentId(st.sends), m.id]
  {
  }

  /** A timeout deletes exactly the messages recorded before it, not the question just
      asked, and ends with the cancellation. */
  lemma TimeoutDeletesRecorded(env: SetupEnv, items: seq<SetupItem>, st: SetupState)
    requires InGuild(env) && Schema(items) && st.i < |items|
    requires AnswerTo(env, st.q, items[st.i]).None?
    ensures Step(env, items, st) == Stopped(TimedOut, st.effects + [Asked(Question(items[st.i]), env.sentId(st.sends)),
                                                   BulkDeleted(st.messages), Cancelled(TIMEOUT_TEXT)])
  {
  }

  /** The edits among the effects, in order. */
  function EditsIn(e: seq<SetupEffect>): seq<(EditData, bool)>
    decreases |e|
  {
    if e == [] then []
    else (if e[0].ConfigEdited? then [(e[0].values, e[0].fillNull)] else []) + EditsIn(e[1..])
  }

  lemma {:induction false} EditsInConcat(a: seq<SetupEffect>, b: seq<SetupEffect>)
    ensures EditsIn(a + b) == EditsIn(a) + EditsIn(b)
    decreases |a|
  {
    if a == [] {
      assert a + b == b;
    } else {
      assert (a + b)[1..] == a[1..] + b;
      EditsInConcat(a[1..], b);
    }
  }

  lemma {:induction false} DeletionsEditNothing(batches: seq<seq<Id>>)
    ensures EditsIn(Deletions(batches)) == []
    decreases |batches|
  {
    if batches != [] {
      assert Deletions(batches)[1..] == Deletions(batches[1..]);
      DeletionsEditNothing(batches[1..]);
    }
  }

  lemma {:induction false} NoEditsIn(e: seq<SetupEffect>)
    requires forall k :: 0 <= k < |e| ==> !e[k].ConfigEdited?
    ensures EditsIn(e) == []
    decreases |e|
  {
    if e != [] {
      NoEditsIn(e[1..]);
    }
  }

  /** A step never edits. */
  lemma StepEditsNothing(env: SetupEnv, items: seq<SetupItem>, st: SetupState)
    requires InGuild(env) && Schema(items) && st.i < |items|
    ensures Step(env, items, st).Next? ==> EditsIn(Step(env, items, st).st.effects) == EditsIn(st.effects)
    ensures Step(env, items, st).Stopped? ==> EditsIn(Step(env, items, st).effects) == EditsIn(st.effects)
  {
    var item := items[st.i];
    var asked := st.effects + [Asked(Question(item), env.sentId(st.sends))];
    EditsInConcat(st.effects, [Asked(Question(item), env.sentId(st.sends))]);
    match AnswerTo(env, st.q, item)
    case None =>
      var tail := [Asked(Question(item), env.sentId(st.sends)), BulkDeleted(st.messages), Cancelled(TIMEOUT_TEXT)];
      EditsInConcat(st.effects, tail);
      NoEditsIn(tail);
    case Some(m) =>
      var d := Decide(env, item, m);
      if !Skips(item, m) && d.Refuse? {
        EditsInConcat(asked, [RetrySent(d.text, env.sentId(st.sends + 1))]);
      }
  }

  /** The configuration is edited once, with fillNull, when the setup completes, and
      never when it is cancelled. */
  lemma {:induction false} RunEditsOnCompletion(env: SetupEnv, items: seq<SetupItem>, st: SetupState)
    requires InGuild(env) && Schema(items) && st.i <= |items|
    ensures var (end, effects) := Run(env, items, st);
      (end == Completed ==> exists v :: EditsIn(effects) == EditsIn(st.effects) + [(v, true)])
      && (end == TimedOut ==> EditsIn(effects) == EditsIn(st.effects))
    decreases |env.answers| - st.q
  {
    if st.i == |items| {
      var tail := Deletions(Batches(st.messages)) + [Replied("ADDED_CONFIG")];
      assert Finish(st) == st.effects + ([ConfigEdited(st.values, true)] + tail);
      EditsInConcat(st.effects, [ConfigEdited(st.values, true)] + tail);
      EditsInConcat([ConfigEdited(st.values, true)], tail);
      EditsInConcat(Deletions(Batches(st.messages)), [Replied("ADDED_CONFIG")]);
      DeletionsEditNothing(Batches(st.messages));
      assert EditsIn(Finish(st)) == EditsIn(st.effects) + [(st.values, true)];
    } else {
      StepEditsNothing(env, items, st);
      match Step(env, items, st)
      case Stopped(end, effects) =>
      case Next(next) =>
        if next.i <= |items| {
          RunEditsOnCompletion(env, items, next);
        }
    }
  }

  /** The whole setup edits the configuration exactly once when it completes, and a
      timeout leaves it unedited. */
  lemma SetupEditsOnce(env: SetupEnv)
    requires InGuild(env)
    ensures SetupSpec(env).0 == Completed ==> exists v :: EditsIn(SetupSpec(env).1) == [(v, true)]
    ensures SetupSpec(env).0 == TimedOut ==> EditsIn(SetupSpec(env).1) == []
  {
    SchemaWellTyped();
    RunEditsOnCompletion(env, SETUP_ITEMS, START);
  }

  /** No answer makes the setup throw, in either revision: `resolveValue` never gives
      null for a boolean. */
  lemma {:induction false} RunNeverThrows(env: SetupEnv, items: seq<SetupItem>, st: SetupState)
    requires InGuild(env) && Schema(items) && st.i <= |items|
    ensures Run(env, items, st).0 != Threw
    decreases |env.answers| - st.q
  {
    if st.i < |items| {
      var item := items[st.i];
      match AnswerTo(env, st.q, item)
      case None =>
      case Some(m) =>
        DecisionFits(env, item, m);
        match Step(env, items, st)
        case Stopped(end, effects) =>
        case Next(next) =>
          assert next.i <= st.i + 1;
          RunNeverThrows(env, items, next);
    }
  }

  /** The setup never throws. */
  lemma SetupNeverThrows(env: SetupEnv)
    requires InGuild(env)
    ensures SetupSpec(env).0 != Threw
  {
    SchemaWellTyped();
    RunNeverThrows(env, SETUP_ITEMS, START);
  }

  /** The whole chunks are concatenated and leave between 1 and 100 ids behind. */
  function Flatten(bs: seq<seq<Id>>): seq<Id>
    decreases |bs|
  {
    if bs == [] then [] else bs[0] + Flatten(bs[1..])
  }

  lemma {:induction false} ChunksCover(m: seq<Id>)
    ensures forall k :: 0 <= k < |Chunks(m)| ==> |Chunks(m)[k]| == BULK_LIMIT
    ensures |m| > BULK_LIMIT ==> exists rest :: Flatten(Chunks(m)) + rest == m && 1 <= |rest| <= BULK_LIMIT
    ensures |m| <= BULK_LIMIT ==> Chunks(m) == []
    decreases |m|
  {
    if |m| > BULK_LIMIT {
      var tail := m[BULK_LIMIT..];
      ChunksCover(tail);
      assert Chunks(m)[1..] == Chunks(tail);
      if |tail| > BULK_LIMIT {
        var rest :| Flatten(Chunks(tail)) + rest == tail && 1 <= |rest| <= BULK_LIMIT;
        assert Flatten(Chunks(m)) + rest == m[..BULK_LIMIT] + (Flatten(Chunks(tail)) + rest);
        assert m[..BULK_LIMIT] + tail == m;
      } else {
        assert Flatten(Chunks(m)) == m[..BULK_LIMIT];
        assert Flatten(Chunks(m)) + tail == m;
      }
    }
  }

  /** Up to 100 recorded messages are deleted at once; more are deleted 100 at a time
      from the front, and the last 1 to 100 of them are never deleted. */
  lemma BatchesCover(m: seq<Id>)
    ensures |m| <= BULK_LIMIT ==> Batches(m) == [m]
    ensures |m| > BULK_LIMIT ==>
      (forall k :: 0 <= k < |Batches(m)| ==> |Batches(m)[k]| == BULK_LIMIT)
      && exists rest :: Flatten(Batches(m)) + rest == m && 1 <= |rest| <= BULK_LIMIT
  {
    ChunksCover(m);
  }

  /** Answering `Y` to a boolean question, such as auto moderation, passes the y/n
      filter and stores false, in either revision. */
  lemma CapitalYStoresFalse(env: SetupEnv, items: seq<SetupItem>, st: SetupState)
    requires InGuild(env) && Schema(items) && st.i < |items|
    requires items[st.i].itype.BooleanType? && items[st.i].key == AutoModKey
    requires AnswerTo(env, st.q, items[st.i]).Some? && AnswerTo(env, st.q, items[st.i]).value.content == "Y"
    ensures Step(env, items, st).Next? && Step(env, items, st).st.values == st.values.(autoMod := Present(Some(false)))
  {
    var m := AnswerTo(env, st.q, items[st.i]).value;
    CapitalYIsNo(items[st.i], m, env.author);
    if env.revision == Current {
      ValidateValueAccepts(BoolValue(false), items[st.i], RETRY_SUFFIX, env.channels, env.needs);
    }
  }
}
