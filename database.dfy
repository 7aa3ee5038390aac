/** The query helpers of the database manager: substitution of `:key` placeholders,
    INSERT formatting and the dispatch on the arguments of `query`. The driver and its
    `escape` are outside the model; `escape` is a parameter. */
module Database {
  import opened Wrappers
  import opened Text

  /** A value an SQL parameter object may hold, `undefined` included. */
  datatype SqlArg = Undefined | Null | Num(n: int) | Str(s: string) | Date(ms: int)

  /** A parameter object: its own properties, in key order. */
  type SqlValues = seq<(string, SqlArg)>

  type Escape = SqlArg -> string

  /** The own property `key`, if there is one. */
  function Own(values: SqlValues, key: string): Option<SqlArg>
    decreases |values|
  {
    if values == [] then None
    else if values[0].0 == key then Some(values[0].1)
    else Own(values[1..], key)
  }

  /** An own property exists exactly when some entry has that key. */
  lemma {:induction false} OwnIffKey(values: SqlValues, key: string)
    ensures Own(values, key).Some? <==> exists i :: 0 <= i < |values| && values[i].0 == key
    decreases |values|
  {
    if values != [] && values[0].0 != key {
      OwnIffKey(values[1..], key);
      assert forall i :: 1 <= i < |values| ==> values[i] == values[1..][i - 1];
    }
  }

  /** `hasOwnProperty(values, key) && values[key] !== undefined`. */
  predicate Substitutable(values: SqlValues, key: string) {
    var v := Own(values, key);
    v.Some? && v.value != Undefined
  }

  /** The end of the run of word characters starting at `i`. */
  function WordRun(s: string, i: nat): (j: nat)
    requires i <= |s|
    ensures i <= j <= |s|
    ensures forall k :: i <= k < j ==> IsWordChar(s[k])
    ensures j == |s| || !IsWordChar(s[j])
    decreases |s| - i
  {
    if i == |s| || !IsWordChar(s[i]) then i else WordRun(s, i + 1)
  }

  /** `sql.replace(/:(\w+)/g, ...)`: scanning left to right, each colon followed by a
      maximal run of word characters is a placeholder, replaced by the escaped value
      of its key when substitutable and left verbatim otherwise. */
  function Format(sql: string, values: SqlValues, escape: Escape): string
    decreases |sql|
  {
    if sql == [] then []
    else if sql[0] == ':' && |sql| > 1 && IsWordChar(sql[1]) then
      var n := WordRun(sql, 1);
      var key := sql[1..n];
      (if Substitutable(values, key) then escape(Own(values, key).value) else sql[..n])
        + Format(sql[n..], values, escape)
    else [sql[0]] + Format(sql[1..], values, escape)
  }

  /** A word run that ends inside `a` ends at the same place in `a + b` when `b` does
      not start with a word character. */
  lemma WordRunConcat(a: string, b: string, i: nat)
    requires i <= |a|
    requires b == [] || !IsWordChar(b[0])
    ensures WordRun(a + b, i) == WordRun(a, i)
    decreases |a| - i
  {
    if i < |a| && IsWordChar(a[i]) {
      WordRunConcat(a, b, i + 1);
    }
  }

  /** The end of the first piece `Format` reads: a whole placeholder, or one character. */
  function PieceEnd(sql: string): (n: nat)
    requires sql != []
    ensures 1 <= n <= |sql|
  {
    if sql[0] == ':' && |sql| > 1 && IsWordChar(sql[1]) then WordRun(sql, 1) else 1
  }

  /** What `Format` writes for its first piece. */
  function Piece(sql: string, values: SqlValues, escape: Escape): string
    requires sql != []
  {
    var n := PieceEnd(sql);
    if n > 1 && Substitutable(values, sql[1..n]) then escape(Own(values, sql[1..n]).value) else sql[..n]
  }

  lemma FormatStep(sql: string, values: SqlValues, escape: Escape)
    requires sql != []
    ensures Format(sql, values, escape) == Piece(sql, values, escape) + Format(sql[PieceEnd(sql)..], values, escape)
  {
    if !(sql[0] == ':' && |sql| > 1 && IsWordChar(sql[1])) {
      assert sql[..1] == [sql[0]];
    }
  }

  /** The first piece of `a` is the first piece of `a + b` when `b` does not start with
      a word character. */
  lemma PieceConcat(a: string, b: string, values: SqlValues, escape: Escape)
    requires a != [] && (b == [] || !IsWordChar(b[0]))
    ensures PieceEnd(a + b) == PieceEnd(a)
    ensures Piece(a + b, values, escape) == Piece(a, values, escape)
    ensures (a + b)[PieceEnd(a)..] == a[PieceEnd(a)..] + b
  {
    var s := a + b;
    assert s[0] == a[0];
    if |a| > 1 {
      assert s[1] == a[1];
    }
    if a[0] == ':' && |a| > 1 && IsWordChar(a[1]) {
      WordRunConcat(a, b, 1);
    } else if |a| == 1 && a[0] == ':' && b != [] {
      assert s[1] == b[0];
    }
    var n := PieceEnd(a);
    assert s[1..n] == a[1..n] && s[..n] == a[..n];
  }

  /** Formatting splits at a point where no placeholder can straddle it. */
  lemma {:induction false} FormatConcat(a: string, b: string, values: SqlValues, escape: Escape)
    requires b == [] || !IsWordChar(b[0])
    ensures Format(a + b, values, escape) == Format(a, values, escape) + Format(b, values, escape)
    decreases |a|
  {
    if a == [] {
      FormatConcatNil(b, values, escape);
    } else {
      FormatConcat(a[PieceEnd(a)..], b, values, escape);
      FormatConcatStep(a, b, values, escape);
    }
  }

  lemma FormatConcatNil(b: string, values: SqlValues, escape: Escape)
    ensures Format([] + b, values, escape) == Format([], values, escape) + Format(b, values, escape)
  {
    assert [] + b == b;
  }

  /** Formatting `a + b` writes the first piece of `a`, then formats the rest. */
  lemma FormatStepConcat(a: string, b: string, values: SqlValues, escape: Escape)
    requires a != [] && (b == [] || !IsWordChar(b[0]))
    ensures Format(a + b, values, escape)
            == Piece(a, values, escape) + Format(a[PieceEnd(a)..] + b, values, escape)
  {
    PieceConcat(a, b, values, escape);
    FormatStep(a + b, values, escape);
  }

  lemma AppendAfterPiece(whole: string, part: string, piece: string, rest: string, tail: string)
    requires whole == piece + (rest + tail) && part == piece + rest
    ensures whole == part + tail
  {
  }

  /** The inductive step of `FormatConcat`: the first piece of `a` is written first. */
  lemma FormatConcatStep(a: string, b: string, values: SqlValues, escape: Escape)
    requires a != [] && (b == [] || !IsWordChar(b[0]))
    requires Format(a[PieceEnd(a)..] + b, values, escape)
             == Format(a[PieceEnd(a)..], values, escape) + Format(b, values, escape)
    ensures Format(a + b, values, escape) == Format(a, values, escape) + Format(b, values, escape)
  {
    FormatStepConcat(a, b, values, escape);
    FormatStep(a, values, escape);
    AppendAfterPiece(Format(a + b, values, escape), Format(a, values, escape), Piece(a, values, escape),
                     Format(a[PieceEnd(a)..], values, escape), Format(b, values, escape));
  }

  /** A single placeholder becomes the escaped value of its key, or stays verbatim. */
  lemma FormatPlaceholder(key: string, values: SqlValues, escape: Escape)
    requires |key| >= 1 && forall k :: 0 <= k < |key| ==> IsWordChar(key[k])
    ensures Format(":" + key, values, escape) ==
      if Substitutable(values, key) then escape(Own(values, key).value) else ":" + key
  {
    var s := ":" + key;
    assert s[1] == key[0];
    var n := WordRun(s, 1);
    assert n == |s|;
    assert s[1..n] == key && s[..n] == s;
    assert s[n..] == [];
  }

  /** The substitution in context: a placeholder whose key ends before a non-word
      character (or the end) is replaced, the text around it formatted on its own.
      A key present with the value null is substituted too. */
  lemma FormatReplacesPlaceholder(pre: string, key: string, post: string, values: SqlValues, escape: Escape)
    requires |key| >= 1 && forall k :: 0 <= k < |key| ==> IsWordChar(key[k])
    requires post == [] || !IsWordChar(post[0])
    ensures Format(pre + (":" + key) + post, values, escape) ==
      Format(pre, values, escape)
      + (if Substitutable(values, key) then escape(Own(values, key).value) else ":" + key)
      + Format(post, values, escape)
  {
    var p := ":" + key;
    var tail := p + post;
    assert tail[0] == ':';
    assert pre + p + post == pre + tail;
    FormatPlaceholder(key, values, escape);
    FormatConcat(p, post, values, escape);
    FormatConcat(pre, tail, values, escape);
    AppendAround(Format(pre + tail, values, escape), Format(pre, values, escape), Format(tail, values, escape),
                 Format(p, values, escape), Format(post, values, escape));
  }

  lemma AppendAround(whole: string, left: string, rest: string, mid: string, right: string)
    requires whole == left + rest && rest == mid + right
    ensures whole == left + mid + right
  {
  }

  /** With nothing substitutable the query text is returned unchanged. */
  lemma {:induction false} FormatWithoutValues(sql: string, values: SqlValues, escape: Escape)
    requires forall i :: 0 <= i < |values| ==> values[i].1 == Undefined
    ensures Format(sql, values, escape) == sql
    decreases |sql|
  {
    if sql == [] {
    } else if sql[0] == ':' && |sql| > 1 && IsWordChar(sql[1]) {
      var n := WordRun(sql, 1);
      OwnIsAnEntry(values, sql[1..n]);
      FormatWithoutValues(sql[n..], values, escape);
      assert sql[..n] + sql[n..] == sql;
    } else {
      FormatWithoutValues(sql[1..], values, escape);
      assert [sql[0]] + sql[1..] == sql;
    }
  }

  lemma {:induction false} OwnIsAnEntry(values: SqlValues, key: string)
    ensures Own(values, key).Some? ==> exists i :: 0 <= i < |values| && values[i] == (key, Own(values, key).value)
    decreases |values|
  {
    if values != [] && values[0].0 != key {
      OwnIsAnEntry(values[1..], key);
      if Own(values, key).Some? {
        var i :| 0 <= i < |values[1..]| && values[1..][i] == (key, Own(values, key).value);
        assert values[i + 1] == values[1..][i];
      }
    }
  }

  /** The column keys of an insert, in object order. */
  function Columns(data: SqlValues): (r: seq<string>)
    ensures |r| == |data| && forall i :: 0 <= i < |data| ==> r[i] == data[i].0
  {
    seq(|data|, i requires 0 <= i < |data| => data[i].0)
  }

  /** The escaped values of an insert, in the same order. */
  function Escaped(data: SqlValues, escape: Escape): (r: seq<string>)
    ensures |r| == |data| && forall i :: 0 <= i < |data| ==> r[i] == escape(data[i].1)
  {
    seq(|data|, i requires 0 <= i < |data| => escape(data[i].1))
  }

  /** `formatInsert(table, data)`. */
  function FormatInsert(table: string, data: SqlValues, escape: Escape): string {
    "INSERT INTO " + table + "(" + Join(Columns(data), ", ") + ") VALUES("
      + Join(Escaped(data, escape), ", ") + ")"
  }

  /** `s.split(", ")`: the pieces of a list written with a comma and a space. */
  function SplitList(s: string): (parts: seq<string>)
    ensures |parts| >= 1
    decreases |s|
  {
    if s == [] then [""]
    else if |s| >= 2 && s[..2] == ", " then [""] + SplitList(s[2..])
    else
      var rest := SplitList(s[1..]);
      [[s[0]] + rest[0]] + rest[1..]
  }

  lemma {:induction false} SplitListWithoutComma(x: string)
    requires ',' !in x
    ensures SplitList(x) == [x]
    decreases |x|
  {
    if x != [] {
      SplitListWithoutComma(x[1..]);
      assert [x[0]] + x[1..] == x;
    }
  }

  lemma {:induction false} SplitListAfterPiece(x: string, y: string)
    requires ',' !in x
    ensures SplitList(x + ", " + y) == [x] + SplitList(y)
    decreases |x|
  {
    var s := x + ", " + y;
    if x == [] {
      assert s[..2] == ", " && s[2..] == y;
    } else {
      assert s[0] == x[0] && s[1..] == x[1..] + ", " + y;
      SplitListAfterPiece(x[1..], y);
      assert [x[0]] + x[1..] == x;
    }
  }

  /** Splitting a comma-free list back on ", " gives its items. */
  lemma {:induction false} SplitListJoin(parts: seq<string>)
    requires |parts| >= 1
    requires forall k :: 0 <= k < |parts| ==> ',' !in parts[k]
    ensures SplitList(Join(parts, ", ")) == parts
    decreases |parts|
  {
    if |parts| == 1 {
      SplitListWithoutComma(parts[0]);
    } else {
      SplitListJoin(parts[1..]);
      SplitListAfterPiece(parts[0], Join(parts[1..], ", "));
      assert [parts[0]] + parts[1..] == parts;
    }
  }

  lemma {:induction false} JoinAvoids(parts: seq<string>, sep: string, c: char)
    requires c !in sep && forall k :: 0 <= k < |parts| ==> c !in parts[k]
    ensures c !in Join(parts, sep)
    decreases |parts|
  {
    if |parts| > 1 {
      JoinAvoids(parts[1..], sep, c);
    }
  }

  /** The column list a reader finds in an insert statement for `table`: the text after
      the opening parenthesis up to the first `)`, split on ", ". */
  function ReadColumns(sql: string, table: string): Option<seq<string>> {
    var head := "INSERT INTO " + table + "(";
    if |sql| >= |head| && sql[..|head|] == head then Some(SplitList(Split(sql[|head|..], ')')[0]))
    else None
  }

  /** The columns of an insert read back as the keys of the data, in order, when no
      key holds a comma or a closing parenthesis; with no keys the list reads as one
      empty column, as `"".split(", ")` does. */
  lemma InsertColumnsReadBack(table: string, data: SqlValues, escape: Escape)
    requires forall i :: 0 <= i < |data| ==> ',' !in data[i].0 && ')' !in data[i].0
    ensures ReadColumns(FormatInsert(table, data, escape), table)
            == Some(if data == [] then [""] else Columns(data))
  {
    var head := "INSERT INTO " + table + "(";
    var cols := Join(Columns(data), ", ");
    var tail := " VALUES(" + Join(Escaped(data, escape), ", ") + ")";
    var sql := FormatInsert(table, data, escape);
    assert sql == head + (cols + [')'] + tail);
    assert sql[..|head|] == head && sql[|head|..] == cols + [')'] + tail;
    JoinAvoids(Columns(data), ", ", ')');
    SplitAfterPiece(cols, tail, ')');
    if data != [] {
      SplitListJoin(Columns(data));
    }
  }

  /** An argument after the query text. */
  datatype Param = ObjectParam(values: SqlValues) | NullParam | BoolParam(b: bool)
                 | NumParam(n: int) | StrParam(s: string)

  /** What reaches the driver: the query text and the remaining parameters. */
  datatype Prepared = Prepared(sql: string, params: seq<Param>)

  /** The insert data is not an object: reading its keys throws. */
  datatype QueryError = InsertWithoutData

  /** The parameters are one object, or an object and a second argument that is not
      `true` (the `skipFormat` flag). */
  predicate FormatsParams(params: seq<Param>) {
    (|params| == 1 || (|params| == 2 && params[1] != BoolParam(true)))
    && params[0].ObjectParam?
  }

  /** The argument dispatch of `query`. */
  function PrepareQuery(sql: string, params: seq<Param>, escape: Escape): (r: Result<Prepared, QueryError>)
    ensures FormatsParams(params) ==>
      r == Ok(Prepared(Format(sql, params[0].values, escape), []))
    ensures !FormatsParams(params) && sql != "INSERT" ==> r == Ok(Prepared(sql, params))
    ensures !FormatsParams(params) && sql == "INSERT" ==>
      ((|params| >= 2 && params[1].ObjectParam? && params[0].StrParam?) ==>
         r == Ok(Prepared(FormatInsert(params[0].s, params[1].values, escape), [])))
      && (!(|params| >= 2 && params[1].ObjectParam?) ==> r == Err(InsertWithoutData))
  {
    if FormatsParams(params) then Ok(Prepared(Format(sql, params[0].values, escape), []))
    else if sql == "INSERT" then
      if |params| >= 2 && params[1].ObjectParam? then
        Ok(Prepared(FormatInsert(TableName(params[0]), params[1].values, escape), []))
      else Err(InsertWithoutData)
    else Ok(Prepared(sql, params))
  }

  /** A table argument as the template literal prints it. */
  function TableName(p: Param): string {
    match p
    case StrParam(s) => s
    case NumParam(n) => IntToString(n)
    case BoolParam(b) => if b then "true" else "false"
    case NullParam => "null"
    case ObjectParam(_) => "[object Object]"
  }

  /** `skipFormat` passes the query and its parameters through untouched. */
  lemma SkipFormatPassesThrough(sql: string, values: SqlValues, escape: Escape)
    requires sql != "INSERT"
    ensures PrepareQuery(sql, [ObjectParam(values), BoolParam(true)], escape)
      == Ok(Prepared(sql, [ObjectParam(values), BoolParam(true)]))
  {
  }
}
