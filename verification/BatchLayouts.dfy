/** One batch, two layouts: placeholder tuples with a flat value list for VALUES, and rows cut
    from the same list for COPY. adapters/postgres/postgres.go, `ParseBatchInsertRequest`,
    `operationValues` and `copyRows`; the split of the column list in controllers/tables.go. */
module BatchLayouts {
  import opened Text
  import opened SqlLexer
  import opened FilterTokens
  import opened Inserts
  import opened Batch
  import ArrayLiteral

  // ----- VALUES -----

  function CellOf(record: Record, key: string): Cell { if key in record then Encoded(record[key]) else Null }

  function RowCells(record: Record, keys: seq<string>): (r: seq<Cell>)
    ensures |r| == |keys| && forall i :: 0 <= i < |keys| ==> r[i] == CellOf(record, keys[i])
  {
    seq(|keys|, i requires 0 <= i < |keys| => CellOf(record, keys[i]))
  }

  /** The records, each cut down to the given keys. */
  function Projection(records: seq<Record>, keys: seq<string>): (r: seq<seq<Cell>>)
    ensures |r| == |records| && forall i :: 0 <= i < |records| ==> r[i] == RowCells(records[i], keys)
  {
    seq(|records|, i requires 0 <= i < |records| => RowCells(records[i], keys))
  }

  function AllCells(records: seq<Record>, keys: seq<string>): seq<Cell> {
    if records == [] then [] else RowCells(records[0], keys) + AllCells(records[1..], keys)
  }

  function Tuples(pid: nat, count: nat, n: nat): seq<string>
    decreases count
  {
    if count == 0 then [] else [TupleText(pid, n)] + Tuples(pid + n, count - 1, n)
  }

  predicate Unquotable(keys: seq<string>) { forall k :: k in keys ==> GoUnquote(k).Some? }

  function UnquoteAll(keys: seq<string>): (r: seq<string>)
    requires Unquotable(keys)
    ensures |r| == |keys| && forall i :: 0 <= i < |keys| ==> Some(r[i]) == GoUnquote(keys[i])
  {
    seq(|keys|, i requires 0 <= i < |keys| => assert keys[i] in keys; GoUnquote(keys[i]).value)
  }

  method AppendRow(values: seq<Cell>, record: Record, recordKeys: seq<string>) returns (r: Result<seq<Cell>, BatchError>)
    ensures r == if Unquotable(recordKeys) then Ok(values + RowCells(record, UnquoteAll(recordKeys))) else Err(BadKey)
  {
    hide GoUnquote, Encoded;
    var longer := values;
    for j := 0 to |recordKeys|
      invariant forall k :: 0 <= k < j ==> GoUnquote(recordKeys[k]).Some?
      invariant |longer| == |values| + j && longer[..|values|] == values
      invariant forall k :: 0 <= k < j ==> longer[|values| + k] == CellOf(record, GoUnquote(recordKeys[k]).value)
    {
      var key := GoUnquote(recordKeys[j]);
      if key.None? {
        assert recordKeys[j] in recordKeys;
        return Err(BadKey);
      }
      longer := longer + [if key.value in record then Encoded(record[key.value]) else Null];
    }
    assert longer == values + RowCells(record, UnquoteAll(recordKeys));
    return Ok(longer);
  }

  /** One more row, and its tuple. */
  lemma RowNext(records: seq<Record>, i: nat, keys: seq<string>, values: seq<Cell>, printed: seq<string>)
    requires i < |records|
    ensures values + RowCells(records[i], keys) + AllCells(records[i + 1..], keys) == values + AllCells(records[i..], keys)
    ensures printed + [TupleText(|values| + 1, |keys|)] + Tuples(|values| + |keys| + 1, |records| - i - 1, |keys|) ==
            printed + Tuples(|values| + 1, |records| - i, |keys|)
  {
    hide TupleText, CellOf;
    assert records[i..][0] == records[i] && records[i..][1..] == records[i + 1..];
    Associative(values, RowCells(records[i], keys), AllCells(records[i + 1..], keys));
    var pid := |values| + 1;
    Associative(printed, [TupleText(pid, |keys|)], Tuples(pid + |keys|, |records| - i - 1, |keys|));
  }

  method OperationValues(recordSet: seq<Record>, recordKeys: seq<string>)
      returns (r: Result<(seq<Cell>, string), BatchError>)
    ensures r == if recordSet != [] && !Unquotable(recordKeys) then Err(BadKey)
                 else if recordSet == [] then Ok(([], ""))
                 else Ok((AllCells(recordSet, UnquoteAll(recordKeys)), Join(Tuples(1, |recordSet|, |recordKeys|), ",")))
  {
    hide Unquotable, TupleText, Join, CellOf, AllCells, Tuples, RowCells;
    ghost var keys := if Unquotable(recordKeys) then UnquoteAll(recordKeys) else recordKeys;
    ghost var printed: seq<string> := [];
    var values, placeholders := [], "";
    StartEmpty(recordSet, keys);
    for i := 0 to |recordSet|
      invariant i > 0 ==> Unquotable(recordKeys)
      invariant values + AllCells(recordSet[i..], keys) == AllCells(recordSet, keys)
      invariant printed + Tuples(|values| + 1, |recordSet| - i, |keys|) == Tuples(1, |recordSet|, |keys|)
      invariant |printed| == i && (i == 0 ==> placeholders == "") && (i > 0 ==> placeholders == Join(printed, ","))
    {
      var initPH := |values| + 1;
      var longer := AppendRow(values, recordSet[i], recordKeys);
      if longer.Err? {
        return Err(longer.error);
      }
      RowNext(recordSet, i, keys, values, printed);
      values := longer.value;
      var pl := CreatePlaceholders(initPH, |values|);
      JoinAppend(printed, pl, ",");
      placeholders := placeholders + "," + pl;
      if i == 0 {
        placeholders := pl;
      }
      printed := printed + [pl];
    }
    EndEmpty(recordSet, keys, values, printed);
    return Ok((values, placeholders));
  }

  lemma StartEmpty(records: seq<Record>, keys: seq<string>)
    ensures [] + AllCells(records[0..], keys) == AllCells(records, keys)
    ensures [] + Tuples(1, |records|, |keys|) == Tuples(1, |records|, |keys|)
  {
    assert records[0..] == records;
  }

  lemma EndEmpty(records: seq<Record>, keys: seq<string>, values: seq<Cell>, printed: seq<string>)
    ensures values + AllCells(records[|records|..], keys) == values
    ensures printed + Tuples(|values| + 1, 0, |keys|) == printed
    ensures records == [] ==> AllCells(records, keys) == []
  {
    hide TupleText, CellOf;
    assert records[|records|..] == [];
    AppendNothing(values);
    AppendNothing(printed);
  }

  lemma AppendNothing<T>(s: seq<T>)
    ensures s + [] == s
  {
  }

  datatype BatchInsert = BatchInsert(columns: string, placeholders: string, values: seq<Cell>)

  /** The columns of a batch, from the keys of its first record. */
  function Names(order: seq<string>): seq<string> { SortStrings(QuoteAll(order)) }

  lemma NamesUnquote(order: seq<string>)
    ensures Unquotable(Names(order)) && |Names(order)| == |order|
    ensures QuoteAll(UnquoteAll(Names(order))) == Names(order)
    ensures multiset(QuoteAll(UnquoteAll(Names(order)))) == multiset(QuoteAll(order))
  {
    hide GoUnquote, GoQuote, SortStrings;
    var quoted, names := QuoteAll(order), Names(order);
    SortSorts(quoted);
    assert |names| == |multiset(names)| == |multiset(quoted)| == |quoted|;
    forall k | k in names
      ensures GoUnquote(k).Some? && GoQuote(GoUnquote(k).value) == k
    {
      assert k in multiset(quoted);
      var i :| 0 <= i < |quoted| && quoted[i] == k;
      QuoteUnquote(order[i]);
    }
    var keys := UnquoteAll(names);
    forall i | 0 <= i < |names|
      ensures GoQuote(keys[i]) == names[i]
    {
      assert names[i] in names;
    }
    assert QuoteAll(keys) == names;
  }

  function Columns(order: seq<string>): seq<string> {
    NamesUnquote(order);
    UnquoteAll(Names(order))
  }

  /** `order` is the order in which the first record yields its keys. */
  method ParseBatchInsertRequest(recordSet: seq<Record>, order: seq<string>) returns (r: Result<BatchInsert, BatchError>)
    requires recordSet != [] ==> Yields(order, recordSet[0])
    ensures r == if recordSet == [] then Err(BodyEmpty)
                 else Ok(BatchInsert(Join(Names(order), ","), Join(Tuples(1, |recordSet|, |order|), ","),
                                     AllCells(recordSet, Columns(order))))
  {
    hide Unquotable, UnquoteAll, Tuples, AllCells, Join, SortStrings, QuoteAll;
    if |recordSet| == 0 {
      return Err(BodyEmpty);
    }
    var recordKeys := TableKeys(order);
    NamesUnquote(order);
    var laid := OperationValues(recordSet, recordKeys);
    return Ok(BatchInsert(Join(recordKeys, ","), laid.value.1, laid.value.0));
  }

  // ----- COPY -----

  /** What `copyRows` makes of one column name. */
  function CopyKey(key: string): Option<string> {
    if "\"" <= key then GoUnquote(key) else Some(key)
  }

  /** How many leading names it can use. */
  function Usable(keys: seq<string>): (n: nat)
    ensures n <= |keys| && (n < |keys| ==> CopyKey(keys[n]).None?)
    ensures forall i :: 0 <= i < n ==> CopyKey(keys[i]).Some?
  {
    if keys == [] || CopyKey(keys[0]).None? then 0 else 1 + Usable(keys[1..])
  }

  /** The names after the first `n` were rewritten. */
  function Rewritten(keys: seq<string>, n: nat): (r: seq<string>)
    requires n <= Usable(keys)
    ensures |r| == |keys| && forall i :: 0 <= i < |keys| ==> r[i] == if i < n then CopyKey(keys[i]).value else keys[i]
  {
    seq(|keys|, i requires 0 <= i < |keys| => if i < n then CopyKey(keys[i]).value else keys[i])
  }

  /** Rows of `n` values; what is left over at the end is dropped. */
  function Chunks(values: seq<Cell>, n: nat): seq<seq<Cell>>
    requires n > 0
  {
    if |values| < n then [] else [values[..n]] + Chunks(values[n..], n)
  }

  method CopyRows(keys: array<string>, values: seq<Cell>) returns (r: Result<seq<seq<Cell>>, BatchError>)
    requires keys.Length > 0
    modifies keys
    ensures keys[..] == Rewritten(old(keys[..]), Usable(old(keys[..])))
    ensures r == if Usable(old(keys[..])) == keys.Length then Ok(Chunks(values, keys.Length)) else Err(BadKey)
  {
    hide CopyKey, Chunks;
    ghost var before := keys[..];
    for i := 0 to keys.Length
      invariant i <= Usable(before) && keys[..] == Rewritten(before, i)
    {
      assert keys[i] == before[i];
      UsableMore(before, i);
      if "\"" <= keys[i] {
        var v := GoUnquote(keys[i]);
        CopyKeyIs(keys[i]);
        if v.None? {
          return Err(BadKey);
        }
        keys[i] := v.value;
      } else {
        CopyKeyIs(keys[i]);
      }
      assert keys[..] == Rewritten(before, i + 1);
    }
    r := CutRows(keys.Length, values);
  }

  lemma CopyKeyIs(key: string)
    ensures CopyKey(key) == if "\"" <= key then GoUnquote(key) else Some(key)
  {
  }

  lemma UsableMore(keys: seq<string>, i: nat)
    requires i <= Usable(keys) && i < |keys|
    ensures i < Usable(keys) <==> CopyKey(keys[i]).Some?
  {
  }

  method CutRows(nCols: nat, values: seq<Cell>) returns (r: Result<seq<seq<Cell>>, BatchError>)
    requires nCols > 0
    ensures r == Ok(Chunks(values, nCols))
  {
    var rows: seq<seq<Cell>> := [];
    var i := 0;
    while i + nCols <= |values|
      invariant i <= |values| && rows + Chunks(values[i..], nCols) == Chunks(values, nCols)
      decreases |values| - i
    {
      var row: seq<Cell> := [];
      for j := 0 to nCols
        invariant row == values[i..i + j]
      {
        row := row + [values[i + j]];
      }
      assert values[i..][..nCols] == row && values[i..][nCols..] == values[i + nCols..];
      Associative(rows, [row], Chunks(values[i + nCols..], nCols));
      rows := rows + [row];
      i := i + nCols;
    }
    AppendNothing(rows);
    return Ok(rows);
  }

  // ----- COPY reads its names back exactly when no key has a comma -----

  predicate CommaFree(keys: seq<string>) { forall k :: k in keys ==> ',' !in k }

  lemma {:induction false} EscapeKeepsComma(s: string)
    ensures ',' in ArrayLiteral.Escape(s) <==> ',' in s
  {
    if s != "" {
      EscapeKeepsComma(s[1..]);
      assert s == [s[0]] + s[1..];
    }
  }

  lemma {:induction false} EscapeConcat(a: string, b: string)
    ensures ArrayLiteral.Escape(a + b) == ArrayLiteral.Escape(a) + ArrayLiteral.Escape(b)
  {
    hide ArrayLiteral.EscapeChar;
    if a == "" {
      assert a + b == b;
    } else {
      EscapeConcat(a[1..], b);
      assert (a + b)[1..] == a[1..] + b && (a + b)[0] == a[0];
      Associative(ArrayLiteral.EscapeChar(a[0]), ArrayLiteral.Escape(a[1..]), ArrayLiteral.Escape(b));
    }
  }

  /** The piece before a comma inside a quoted name cannot be unquoted. */
  lemma BrokenPiece(a: string, rest: string)
    requires ',' !in a
    ensures Usable(Split("\"" + ArrayLiteral.Escape(a) + [','] + rest, ",")) == 0
  {
    hide GoContent;
    var piece := "\"" + ArrayLiteral.Escape(a);
    EscapeKeepsComma(a);
    SplitHead(piece, rest, ',');
    EscapedContent(a, "");
    assert piece[1..] == ArrayLiteral.Escape(a) + "";
    assert GoContent("") == None by { NoContent(); }
  }

  lemma NoContent()
    ensures GoContent("") == None
  {
  }

  lemma FirstComma(s: string) returns (a: string, b: string)
    requires ',' in s
    ensures s == a + [','] + b && ',' !in a
  {
    if s[0] == ',' {
      a, b := "", s[1..];
    } else {
      a, b := FirstComma(s[1..]);
      a := [s[0]] + a;
      assert s == [s[0]] + s[1..];
    }
  }

  lemma Regrouped<T>(q: seq<T>, a: seq<T>, c: seq<T>, b: seq<T>, rest: seq<T>)
    ensures q + (a + (c + b)) + q + rest == q + a + c + (b + q + rest)
  {
  }

  lemma BrokenKey(key: string, rest: string)
    requires ',' in key
    ensures Usable(Split(GoQuote(key) + rest, ",")) == 0
  {
    hide Split, Usable, ArrayLiteral.Escape;
    var a, b := FirstComma(key);
    EscapeSplit(a, ',', b);
    EscapeComma();
    Regrouped("\"", ArrayLiteral.Escape(a), [','], ArrayLiteral.Escape(b), rest);
    BrokenPiece(a, ArrayLiteral.Escape(b) + "\"" + rest);
  }

  lemma EscapeSplit(a: string, c: char, b: string)
    ensures ArrayLiteral.Escape(a + [c] + b) == ArrayLiteral.Escape(a) + (ArrayLiteral.Escape([c]) + ArrayLiteral.Escape(b))
  {
    hide ArrayLiteral.Escape;
    EscapeConcat(a, [c] + b);
    EscapeConcat([c], b);
    assert a + [c] + b == a + ([c] + b);
  }

  lemma EscapeComma()
    ensures ArrayLiteral.Escape([',']) == [',']
  {
    assert ArrayLiteral.Escape([',']) == ArrayLiteral.EscapeChar(',') + ArrayLiteral.Escape("");
  }

  lemma WholeKey(key: string)
    requires ',' !in key
    ensures ',' !in GoQuote(key) && CopyKey(GoQuote(key)) == Some(key)
  {
    EscapeKeepsComma(key);
    QuoteUnquote(key);
  }

  lemma UsableHead(first: string, rest: seq<string>)
    requires CopyKey(first).Some?
    ensures Usable([first] + rest) == 1 + Usable(rest)
  {
    assert ([first] + rest)[1..] == rest;
  }

  lemma CopyNamesOne(key: string)
    requires ',' !in key
    ensures Split(GoQuote(key), ",") == [GoQuote(key)] && Usable([GoQuote(key)]) == 1
  {
    hide GoQuote, Split, CopyKey, Usable;
    WholeKey(key);
    SplitPlain(GoQuote(key), ',');
    UsableHead(GoQuote(key), []);
    UsableNone();
    assert [GoQuote(key)] + [] == [GoQuote(key)];
  }

  lemma CopyNamesMore(key: string, tail: string)
    requires ',' !in key
    ensures var names := Split(GoQuote(key) + ("," + tail), ",");
      names == [GoQuote(key)] + Split(tail, ",") && Usable(names) == 1 + Usable(Split(tail, ","))
  {
    hide GoQuote, Split, CopyKey, Usable;
    WholeKey(key);
    assert GoQuote(key) + ("," + tail) == GoQuote(key) + [','] + tail;
    SplitHead(GoQuote(key), tail, ',');
    UsableHead(GoQuote(key), Split(tail, ","));
  }

  /** The split column list is usable exactly when no key has a comma, and then names the keys. */
  lemma {:induction false} CopyNames(keys: seq<string>)
    requires keys != []
    ensures var names := Split(Join(QuoteAll(keys), ","), ",");
      && (Usable(names) == |names| <==> CommaFree(keys))
      && (CommaFree(keys) ==> names == QuoteAll(keys) && Rewritten(names, |names|) == keys)
  {
    hide GoQuote, Split, CopyKey, Usable, Join, Rewritten, CommaFree;
    var quoted := QuoteAll(keys);
    assert quoted[1..] == QuoteAll(keys[1..]);
    CommaFreeHead(keys);
    JoinFirst(quoted);
    var tail := if |keys| == 1 then "" else "," + Join(quoted[1..], ",");
    if ',' in keys[0] {
      BrokenKey(keys[0], tail);
    } else if |keys| == 1 {
      assert GoQuote(keys[0]) + "" == GoQuote(keys[0]) && quoted == [GoQuote(keys[0])];
      CopyNamesOne(keys[0]);
      CommaFreeNone(keys);
      KeysBack(keys);
    } else {
      CopyNames(keys[1..]);
      CopyNamesMore(keys[0], Join(quoted[1..], ","));
      if CommaFree(keys) {
        assert quoted == [quoted[0]] + quoted[1..];
        KeysBack(keys);
      }
    }
  }

  lemma CommaFreeHead(keys: seq<string>)
    requires keys != []
    ensures CommaFree(keys) <==> ',' !in keys[0] && CommaFree(keys[1..])
  {
    assert keys == [keys[0]] + keys[1..];
    assert forall k :: k in keys <==> k == keys[0] || k in keys[1..];
  }

  lemma CommaFreeNone(keys: seq<string>)
    requires |keys| == 1
    ensures CommaFree(keys[1..])
  {
  }

  lemma UsableNone()
    ensures Usable([]) == 0
  {
  }

  lemma JoinFirst(parts: seq<string>)
    requires parts != []
    ensures Join(parts, ",") == parts[0] + if |parts| == 1 then "" else "," + Join(parts[1..], ",")
  {
    if |parts| > 1 {
      assert parts[0] + "," + Join(parts[1..], ",") == parts[0] + ("," + Join(parts[1..], ","));
    } else {
      assert parts[0] + "" == parts[0];
    }
  }

  lemma KeysBack(keys: seq<string>)
    requires CommaFree(keys) && Usable(QuoteAll(keys)) == |keys|
    ensures Rewritten(QuoteAll(keys), |keys|) == keys
  {
    hide GoQuote, CopyKey, Usable;
    forall i | 0 <= i < |keys|
      ensures Rewritten(QuoteAll(keys), |keys|)[i] == keys[i]
    {
      assert keys[i] in keys;
      WholeKey(keys[i]);
    }
  }

  // ----- VALUES names the same columns exactly when no key needs escaping -----

  predicate Plain(key: string) { '"' !in key && '\\' !in key }

  lemma {:induction false} EscapePlain(s: string)
    ensures |ArrayLiteral.Escape(s)| >= |s|
    ensures Plain(s) ==> ArrayLiteral.Escape(s) == s
    ensures '"' !in s && '\\' in s ==> |ArrayLiteral.Escape(s)| > |s|
    ensures '"' !in s ==> '"' !in ArrayLiteral.Escape(s)
  {
    if s != "" {
      EscapePlain(s[1..]);
      assert s == [s[0]] + s[1..];
    }
  }

  /** The name that starts a quote-free run begins with it. */
  lemma {:induction false} DelimitedPrefix(x: string, y: string)
    requires '"' !in x && Delimited(x + y, '"').Some?
    ensures x <= Delimited(x + y, '"').value.0
  {
    if x == "" {
    } else {
      assert (x + y)[1..] == x[1..] + y;
      DelimitedPrefix(x[1..], y);
    }
  }

  lemma FirstQuote(s: string) returns (a: string, b: string)
    requires '"' in s
    ensures s == a + ['"'] + b && '"' !in a
  {
    if s[0] == '"' {
      a, b := "", s[1..];
    } else {
      a, b := FirstQuote(s[1..]);
      a := [s[0]] + a;
      assert s == [s[0]] + s[1..];
    }
  }

  lemma MisreadQuote(key: string, rest: string)
    requires '"' in key
    ensures var r := Delimited(ArrayLiteral.Escape(key) + "\"" + rest, '"'); r.Some? ==> r.value.0 != key
  {
    hide Delimited, ArrayLiteral.Escape;
    var a, b := FirstQuote(key);
    EscapeSplit(a, '"', b);
    EscapeQuote();
    EscapePlain(a);
    var x := ArrayLiteral.Escape(a) + "\\";
    var y := "\"" + ArrayLiteral.Escape(b) + "\"" + rest;
    assert "\\\"" == "\\" + "\"";
    Broken(ArrayLiteral.Escape(a), "\\", "\"", ArrayLiteral.Escape(b), rest);
    if Delimited(x + y, '"').Some? {
      DelimitedPrefix(x, y);
      assert key[|a|] == '"' && x[|a|] != '"';
    }
  }

  lemma Broken<T>(a: seq<T>, slash: seq<T>, q: seq<T>, b: seq<T>, rest: seq<T>)
    ensures a + ((slash + q) + b) + q + rest == (a + slash) + (q + b + q + rest)
  {
  }

  lemma MisreadBackslash(key: string, rest: string)
    requires '"' !in key && '\\' in key && (rest == "" || rest[0] != '"')
    ensures var r := Delimited(ArrayLiteral.Escape(key) + "\"" + rest, '"'); r.Some? ==> r.value.0 != key
  {
    hide Delimited, ArrayLiteral.Escape, ReplaceChar;
    var e := ArrayLiteral.Escape(key);
    EscapePlain(key);
    ReplaceAbsent(e, '"', ['"', '"']);
    DelimitedDoubled(e, '"', rest);
    assert ['"'] == "\"";
  }

  /** A key with a quote or a backslash is not the name that its quoted form spells. */
  lemma MisreadKey(key: string, rest: string)
    requires !Plain(key) && (rest == "" || rest[0] != '"')
    ensures var r := Delimited((GoQuote(key) + rest)[1..], '"'); r.Some? ==> r.value.0 != key
  {
    hide Delimited, ArrayLiteral.Escape;
    var e := ArrayLiteral.Escape(key);
    assert (GoQuote(key) + rest)[1..] == e + "\"" + rest;
    if '"' in key {
      MisreadQuote(key, rest);
    } else {
      MisreadBackslash(key, rest);
    }
  }

  lemma EscapeQuote()
    ensures ArrayLiteral.Escape(['"']) == "\\\""
  {
    assert ArrayLiteral.Escape(['"']) == ArrayLiteral.EscapeChar('"') + ArrayLiteral.Escape("");
  }

  /** The columns a printed column list names. */
  function NamedColumns(text: string): Option<seq<string>> {
    match Lex(text) case None => None case Some(ts) => ReadColumns(ts)
  }

  lemma LexPlain(key: string, rest: string)
    requires Plain(key) && (rest == "" || rest[0] != '"')
    ensures Lex(GoQuote(key) + rest) == Prepend(Quoted(key), Lex(rest))
  {
    EscapePlain(key);
    ReplaceAbsent(key, '"', "\"\"");
    LexQuoted(key, rest);
  }

  lemma NamedLast(key: string)
    ensures Plain(key) ==> NamedColumns(GoQuote(key)) == Some([key])
    ensures !Plain(key) ==> var r := NamedColumns(GoQuote(key)); r.Some? ==> r.value != [] && r.value[0] != key
  {
    assert GoQuote(key) + "" == GoQuote(key);
    if Plain(key) {
      LexPlain(key, "");
    } else {
      MisreadFirst(key, "");
    }
  }

  lemma MisreadFirst(key: string, rest: string)
    requires !Plain(key) && (rest == "" || rest[0] != '"')
    ensures var r := NamedColumns(GoQuote(key) + rest); r.Some? ==> r.value != [] && r.value[0] != key
  {
    hide Delimited;
    MisreadKey(key, rest);
    var text := GoQuote(key) + rest;
    assert text[0] == '"' && text != "";
    var d := Delimited(text[1..], '"');
    if d.Some? {
      assert Lex(text) == Prepend(Quoted(d.value.0), Lex(d.value.1));
    } else {
      assert Lex(text) == None;
    }
  }

  lemma NamedStep(key: string, more: string)
    requires Plain(key)
    ensures NamedColumns(GoQuote(key) + ("," + more)) ==
            match NamedColumns(more) case None => None case Some(r) => Some([key] + r)
  {
    hide GoQuote;
    LexPlain(key, "," + more);
    LexMark(Comma, ',', more);
    match Lex(more)
    case None =>
    case Some(ts) =>
      assert ([Quoted(key)] + ([Comma] + ts))[2..] == ts;
      assert ReadColumns([]) == None;
  }

  /** The printed column list names the keys exactly when no key has a quote or a backslash. */
  lemma {:induction false} ValuesNames(keys: seq<string>)
    requires keys != []
    ensures NamedColumns(Join(QuoteAll(keys), ",")) == Some(keys) <==> forall k :: k in keys ==> Plain(k)
  {
    hide GoQuote, NamedColumns, Plain;
    var quoted := QuoteAll(keys);
    assert keys == [keys[0]] + keys[1..] && quoted[1..] == QuoteAll(keys[1..]);
    assert keys[0] in keys;
    assert forall k :: k in keys <==> k == keys[0] || k in keys[1..];
    JoinFirst(quoted);
    if |keys| == 1 {
      assert GoQuote(keys[0]) + "" == GoQuote(keys[0]);
      NamedLast(keys[0]);
      assert keys == [keys[0]];
    } else {
      var more := Join(quoted[1..], ",");
      ValuesNames(keys[1..]);
      if Plain(keys[0]) {
        NamedStep(keys[0], more);
        if NamedColumns(more).Some? {
          assert ([keys[0]] + NamedColumns(more).value)[1..] == NamedColumns(more).value;
        }
      } else {
        MisreadFirst(keys[0], "," + more);
      }
    }
  }

  // ----- The rows of VALUES -----

  /** `(...),(...),...` */
  function ReadTuples(ts: seq<Token>): Option<seq<seq<nat>>>
    decreases |ts|
  {
    match ReadTuple(ts)
    case None => None
    case Some((numbers, rest)) =>
      if rest == [] then Some([numbers])
      else if rest[0] != Comma || |rest| >= |ts| then None
      else match ReadTuples(rest[1..]) case None => None case Some(more) => Some([numbers] + more)
  }

  function TuplesDoc(pid: nat, count: nat, n: nat): Doc
    decreases count
  {
    if count == 0 then Empty
    else if count == 1 then TupleDoc(pid, n)
    else Cat(Cat(TupleDoc(pid, n), COMMA), TuplesDoc(pid + n, count - 1, n))
  }

  function TuplesTokens(pid: nat, count: nat, n: nat): seq<Token>
    decreases count
  {
    if count == 0 then []
    else if count == 1 then TupleTokens(pid, n)
    else TupleTokens(pid, n) + ([Comma] + TuplesTokens(pid + n, count - 1, n))
  }

  function TuplesNumbers(pid: nat, count: nat, n: nat): seq<seq<nat>>
    decreases count
  {
    if count == 0 then [] else [Range(pid, n)] + TuplesNumbers(pid + n, count - 1, n)
  }

  lemma TupleThen(pid: nat, n: nat, more: Doc)
    requires Readable(more)
    ensures var d := Cat(Cat(TupleDoc(pid, n), COMMA), more);
      && Readable(d) && Render(d) == TupleText(pid, n) + "," + Render(more)
      && Tokens(d) == TupleTokens(pid, n) + ([Comma] + Tokens(more))
  {
    hide TupleDoc, TupleText, TupleTokens, First, Last, Readable, Render, Tokens;
    var t := TupleDoc(pid, n);
    TupleReads(pid, n);
    LeafFacts(COMMA);
    CatFacts(t, COMMA);
    CatFacts(Cat(t, COMMA), more);
    Associative(TupleTokens(pid, n), [Comma], Tokens(more));
  }

  lemma {:induction false} TuplesRead(pid: nat, count: nat, n: nat)
    requires count > 0
    ensures var d := TuplesDoc(pid, count, n);
      Readable(d) && Render(d) == Join(Tuples(pid, count, n), ",") && Tokens(d) == TuplesTokens(pid, count, n)
    decreases count
  {
    hide TupleDoc, TupleText, TupleTokens, Readable, Render, Tokens;
    if count == 1 {
      TupleReads(pid, n);
      assert Tuples(pid, 1, n) == [TupleText(pid, n)];
    } else {
      TuplesRead(pid + n, count - 1, n);
      TupleThen(pid, n, TuplesDoc(pid + n, count - 1, n));
      var all := Tuples(pid, count, n);
      assert all[0] == TupleText(pid, n) && all[1..] == Tuples(pid + n, count - 1, n) && |all| > 1;
    }
  }

  lemma {:induction false} ReadTuplesTokens(pid: nat, count: nat, n: nat)
    requires count > 0
    ensures ReadTuples(TuplesTokens(pid, count, n)) == Some(TuplesNumbers(pid, count, n))
    decreases count
  {
    hide ReadTuple, TupleTokens;
    var t := TupleTokens(pid, n);
    if count == 1 {
      assert t + [] == t;
      ReadTupleOf(pid, n, []);
      assert TuplesNumbers(pid, 1, n) == [Range(pid, n)];
    } else {
      var more := TuplesTokens(pid + n, count - 1, n);
      ReadTuplesTokens(pid + n, count - 1, n);
      ReadTupleOf(pid, n, [Comma] + more);
      assert ([Comma] + more)[1..] == more;
      assert |t| > 0 by { TupleNotEmpty(pid, n); }
    }
  }

  lemma TupleNotEmpty(pid: nat, n: nat)
    ensures |TupleTokens(pid, n)| > 0
  {
  }

  predicate Within(tuples: seq<seq<nat>>, n: nat) { forall t, i :: t in tuples && i in t ==> 1 <= i <= n }

  /** The rows that placeholder tuples denote once `$i` is bound to the i-th value. */
  function BoundRows(tuples: seq<seq<nat>>, values: seq<Cell>): Option<seq<seq<Cell>>> {
    if Within(tuples, |values|) then Some(BoundAll(tuples, values)) else None
  }

  function BoundAll(tuples: seq<seq<nat>>, values: seq<Cell>): seq<seq<Cell>> {
    if tuples == [] then [] else [BoundRow(tuples[0], values)] + BoundAll(tuples[1..], values)
  }

  function BoundRow(tuple: seq<nat>, values: seq<Cell>): (r: seq<Cell>)
    ensures |r| == |tuple|
    ensures forall i :: 0 <= i < |tuple| && 1 <= tuple[i] <= |values| ==> r[i] == values[tuple[i] - 1]
  {
    seq(|tuple|, i requires 0 <= i < |tuple| => if 1 <= tuple[i] <= |values| then values[tuple[i] - 1] else Null)
  }

  function ValuesRows(insert: BatchInsert): Option<seq<seq<Cell>>> {
    match Lex(insert.placeholders)
    case None => None
    case Some(ts) => match ReadTuples(ts) case None => None case Some(tuples) => BoundRows(tuples, insert.values)
  }

  lemma BoundHead(tuple: seq<nat>, tuples: seq<seq<nat>>, values: seq<Cell>)
    ensures BoundAll([tuple] + tuples, values) == [BoundRow(tuple, values)] + BoundAll(tuples, values)
    ensures Within([tuple] + tuples, |values|) <==> Within([tuple], |values|) && Within(tuples, |values|)
  {
    assert ([tuple] + tuples)[1..] == tuples;
  }

  /** Consecutive numbers bind the values that stand there. */
  lemma RowBound(before: seq<Cell>, row: seq<Cell>, after: seq<Cell>)
    ensures var values := before + row + after;
      BoundRow(Range(|before| + 1, |row|), values) == row && Within([Range(|before| + 1, |row|)], |values|)
  {
    var values := before + row + after;
    assert forall j :: 0 <= j < |row| ==> values[|before| + j] == row[j];
  }

  /** Each tuple binds the cells of one record. */
  lemma {:induction false} TuplesBind(records: seq<Record>, keys: seq<string>, before: seq<Cell>)
    ensures BoundRows(TuplesNumbers(|before| + 1, |records|, |keys|), before + AllCells(records, keys)) ==
            Some(Projection(records, keys))
    decreases |records|
  {
    hide CellOf, BoundAll, Within, BoundRow, Range, Projection, RowCells;
    if records == [] {
      NoTuples(before + AllCells(records, keys), keys);
    } else {
      var row, rest := RowCells(records[0], keys), records[1..];
      var n := |row|;
      RowLength(records[0], keys);
      TuplesBind(rest, keys, before + row);
      RowBound(before, row, AllCells(rest, keys));
      Associative(before, row, AllCells(rest, keys));
      BoundHead(Range(|before| + 1, n), TuplesNumbers(|before| + 1 + n, |rest|, n), before + AllCells(records, keys));
      ProjectionHead(records, keys);
    }
  }

  lemma RowLength(record: Record, keys: seq<string>)
    ensures |RowCells(record, keys)| == |keys|
  {
  }

  lemma NoTuples(values: seq<Cell>, keys: seq<string>)
    ensures BoundRows([], values) == Some(Projection([], keys))
  {
  }

  lemma ProjectionHead(records: seq<Record>, keys: seq<string>)
    requires records != []
    ensures Projection(records, keys) == [RowCells(records[0], keys)] + Projection(records[1..], keys)
  {
    hide RowCells;
  }

  /** A table with one row for each record and one cell for each key: the value under the key in
      the form in which it is bound, NULL where the record lacks the key. */
  ghost predicate Tabulates(rows: seq<seq<Cell>>, records: seq<Record>, keys: seq<string>) {
    && |rows| == |records|
    && forall i :: 0 <= i < |records| ==>
         |rows[i]| == |keys| &&
         forall j :: 0 <= j < |keys| ==> rows[i][j] == if keys[j] in records[i] then Encoded(records[i][keys[j]]) else Null
  }

  lemma ProjectionTabulates(records: seq<Record>, keys: seq<string>)
    ensures Tabulates(Projection(records, keys), records, keys)
  {
    hide Encoded;
  }

  lemma ValuesLayout(records: seq<Record>, keys: seq<string>, columns: string)
    requires records != []
    ensures ValuesRows(BatchInsert(columns, Join(Tuples(1, |records|, |keys|), ","), AllCells(records, keys))) ==
            Some(Projection(records, keys))
  {
    hide Lex, ReadTuples, Tuples, TuplesDoc, TuplesTokens, Render, Tokens, Readable, CellOf, Join;
    var count, n := |records|, |keys|;
    TuplesRead(1, count, n);
    LexRender(TuplesDoc(1, count, n));
    ReadTuplesTokens(1, count, n);
    TuplesBind(records, keys, []);
    assert [] + AllCells(records, keys) == AllCells(records, keys);
  }

  // ----- The rows of COPY -----

  lemma {:induction false} CopyLayout(records: seq<Record>, keys: seq<string>)
    requires keys != []
    ensures Chunks(AllCells(records, keys), |keys|) == Projection(records, keys)
  {
    hide CellOf;
    if records != [] {
      CopyLayout(records[1..], keys);
      var row, rest := RowCells(records[0], keys), AllCells(records[1..], keys);
      assert (row + rest)[..|keys|] == row && (row + rest)[|keys|..] == rest;
      assert Projection(records, keys) == [row] + Projection(records[1..], keys);
    } else {
      assert Projection(records, keys) == [];
    }
  }

  /** Both layouts insert the records, cut down to the first record's keys with NULL for what
      is missing, whatever order the map yields them in; and they name the same columns, those
      keys, exactly when no key has a comma, a quote or a backslash. */
  lemma BatchLayoutsAgree(records: seq<Record>, order: seq<string>)
    requires records != [] && order != [] && Yields(order, records[0])
    ensures var keys := Columns(order);
      var insert := BatchInsert(Join(Names(order), ","), Join(Tuples(1, |records|, |order|), ","), AllCells(records, keys));
      var names := Split(insert.columns, ",");
      && ValuesRows(insert) == Some(Projection(records, keys)) && Tabulates(Projection(records, keys), records, keys)
      && (Usable(names) == |names| ==> Chunks(insert.values, |names|) == Projection(records, keys))
      && ((Usable(names) == |names| && Rewritten(names, |names|) == keys && NamedColumns(insert.columns) == Some(keys))
          <==> forall k :: k in order ==> ',' !in k && Plain(k))
  {
    hide SortStrings, QuoteAll, GoQuote, AllCells, ValuesRows, Tuples, Join, Split, Usable, NamedColumns, Plain, Chunks, UnquoteAll,
      Unquotable, GoUnquote, Projection, Tabulates;
    ProjectionTabulates(records, Columns(order));
    var keys := Columns(order);
    NamesUnquote(order);
    ColumnsSameKeys(order);
    ValuesLayout(records, keys, Join(Names(order), ","));
    CopyNames(keys);
    CopyLayout(records, keys);
    ValuesNames(keys);
    var names := Split(Join(Names(order), ","), ",");
    if Usable(names) == |names| {
      QuoteAllLength(keys);
    }
  }

  lemma QuoteAllLength(keys: seq<string>)
    ensures |QuoteAll(keys)| == |keys|
  {
  }

  /** The columns are the first record's keys. */
  lemma ColumnsSameKeys(order: seq<string>)
    ensures |Columns(order)| == |order| && forall k :: k in Columns(order) <==> k in order
  {
    hide GoQuote, GoUnquote, SortStrings;
    NamesUnquote(order);
    var keys := Columns(order);
    var a, b := QuoteAll(keys), QuoteAll(order);
    forall k | k in keys
      ensures k in order
    {
      SharedKey(keys, order, k);
    }
    forall k | k in order
      ensures k in keys
    {
      SharedKey(order, keys, k);
    }
  }

  lemma SharedKey(keys: seq<string>, order: seq<string>, k: string)
    requires k in keys && multiset(QuoteAll(keys)) == multiset(QuoteAll(order))
    ensures k in order
  {
    hide GoQuote, GoUnquote;
    var a, b := QuoteAll(keys), QuoteAll(order);
    var i :| 0 <= i < |keys| && keys[i] == k;
    assert a[i] in multiset(b);
    var j :| 0 <= j < |b| && b[j] == a[i];
    QuoteUnquote(k);
    QuoteUnquote(order[j]);
  }

  // ----- On plain identifiers the columns are the sorted keys -----

  /** Every character sorts after the quote, and none is escaped. */
  predicate SortsPlainly(key: string) { forall c :: c in key ==> c > '"' && c != '\\' }

  lemma {:induction false} ClosingQuoteKeepsOrder(a: string, b: string)
    requires SortsPlainly(a) && SortsPlainly(b)
    ensures AtMost(a + "\"", b + "\"") <==> AtMost(a, b)
  {
    if a == "" {
      assert b != "" ==> b[0] in b && (b + "\"")[0] == b[0];
      AtMostRefl("\"");
      assert a + "\"" == "\"" && "" + "\"" == "\"";
    } else if b == "" {
      assert a[0] in a && (a + "\"")[0] == a[0];
    } else {
      assert (a + "\"")[1..] == a[1..] + "\"" && (b + "\"")[1..] == b[1..] + "\"";
      assert SortsPlainly(a[1..]) by {
        assert forall c :: c in a[1..] ==> c in a;
      }
      assert SortsPlainly(b[1..]) by {
        assert forall c :: c in b[1..] ==> c in b;
      }
      ClosingQuoteKeepsOrder(a[1..], b[1..]);
    }
  }

  lemma QuoteKeepsOrder(a: string, b: string)
    requires SortsPlainly(a) && SortsPlainly(b)
    ensures AtMost(GoQuote(a), GoQuote(b)) <==> AtMost(a, b)
  {
    EscapePlain(a);
    EscapePlain(b);
    assert GoQuote(a)[1..] == a + "\"" && GoQuote(b)[1..] == b + "\"";
    ClosingQuoteKeepsOrder(a, b);
  }

  lemma PlainColumns(order: seq<string>)
    requires forall k :: k in order ==> SortsPlainly(k)
    ensures Columns(order) == SortStrings(order)
  {
    hide GoQuote, GoUnquote, AtMost, SortStrings;
    var sorted := SortStrings(order);
    SortSorts(order);
    SortSorts(QuoteAll(order));
    NamesUnquote(order);
    forall k | k in sorted
      ensures SortsPlainly(k)
    {
      assert k in multiset(order);
    }
    forall i, j | 0 <= i < j < |sorted|
      ensures AtMost(QuoteAll(sorted)[i], QuoteAll(sorted)[j])
    {
      assert sorted[i] in sorted && sorted[j] in sorted;
      QuoteKeepsOrder(sorted[i], sorted[j]);
    }
    QuoteAllMultiset(sorted, order);
    SortedUnique(QuoteAll(sorted), Names(order));
    var keys := Columns(order);
    assert |keys| == |QuoteAll(keys)| == |QuoteAll(sorted)| == |sorted|;
    forall i | 0 <= i < |keys|
      ensures keys[i] == sorted[i]
    {
      QuoteUnquote(keys[i]);
      QuoteUnquote(sorted[i]);
      assert QuoteAll(keys)[i] == QuoteAll(sorted)[i];
    }
  }
}
