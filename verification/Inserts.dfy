/** Column lists, placeholder tuples and single-row inserts: adapters/postgres/postgres.go,
    `createPlaceholders` and `ParseInsertRequest`. */
module Inserts {
  import opened Text
  import opened Ident
  import opened SqlLexer
  import opened FilterTokens
  import opened Filter
  import opened Scope
  import ArrayLiteral
  import WhereReading

  /** A JSON value, as far as inserts tell values apart: arrays are printed as literals. */
  datatype Cell = Null | Scalar(text: string) | Array(list: ArrayLiteral.Value)

  function Encoded(c: Cell): Cell { if c.Array? then Scalar(ArrayLiteral.Literal(c.list)) else c }

  /** What is bound for a value: itself, or for an array a literal that reads back as it. */
  lemma EncodedKeeps(c: Cell)
    ensures !c.Array? ==> Encoded(c) == c
    ensures c.Array? ==> Encoded(c).Scalar? && ArrayLiteral.ReadValue(Encoded(c).text) == Some((c.list, ""))
  {
    hide ArrayLiteral.Literal, ArrayLiteral.ReadValue;
    if c.Array? {
      ArrayLiteral.LiteralRoundTrip(c.list, "");
      assert ArrayLiteral.Literal(c.list) + "" == ArrayLiteral.Literal(c.list);
    }
  }

  /** The keys in the order in which the map yields them. */
  ghost predicate Yields(order: seq<string>, body: map<string, Cell>) {
    (forall k :: k in order <==> k in body) && forall i, j :: 0 <= i < j < |order| ==> order[i] != order[j]
  }

  // ----- Placeholder tuples -----

  function TupleText(pid: nat, n: nat): string { "(" + Join(ParamTexts(pid, n), ",") + ")" }

  method CreatePlaceholders(initial: nat, lenValues: nat) returns (ret: string)
    requires initial <= lenValues + 1
    ensures ret == TupleText(initial, lenValues + 1 - initial)
  {
    ghost var n := lenValues + 1 - initial;
    ret := "";
    var i := initial;
    while i <= lenValues
      invariant initial <= i <= lenValues + 1
      invariant ret == Join(ParamTexts(initial, n)[..i - initial], ",")
    {
      NextPart(ParamTexts(initial, n), i - initial, ",");
      if ret != "" {
        ret := ret + ",";
      }
      ret := ret + ("$" + Decimal(i));
      i := i + 1;
    }
    assert ParamTexts(initial, n)[..n] == ParamTexts(initial, n);
    ret := "(" + ret + ")";
  }

  /** `($a,$b,...)` at the start of `ts`: its numbers, and what follows. */
  function ReadTuple(ts: seq<Token>): Option<(seq<nat>, seq<Token>)> {
    if ts == [] || ts[0] != LPar then None
    else if |ts| > 1 && ts[1] == RPar then Some(([], ts[2..]))
    else ReadNumbers(ts[1..])
  }

  function ReadNumbers(ts: seq<Token>): (r: Option<(seq<nat>, seq<Token>)>)
    ensures r.Some? ==> |r.value.1| < |ts|
    decreases |ts|
  {
    if |ts| < 2 || !ts[0].Param? then None
    else if ts[1] == RPar then Some(([ts[0].id], ts[2..]))
    else if ts[1] == Comma then
      match ReadNumbers(ts[2..])
      case None => None
      case Some(r) => Some(([ts[0].id] + r.0, r.1))
    else None
  }

  function TupleTokens(pid: nat, n: nat): seq<Token> { [LPar] + ParamTokens(pid, n) + [RPar] }

  lemma {:induction false} ReadNumbersOf(pid: nat, n: nat, rest: seq<Token>)
    requires n > 0
    ensures ReadNumbers(ParamTokens(pid, n) + ([RPar] + rest)) == Some((Range(pid, n), rest))
    decreases n
  {
    var end := [RPar] + rest;
    if n == 1 {
      assert ([Param(pid)] + end)[2..] == rest && Range(pid, 1) == [pid];
    } else {
      var more := ParamTokens(pid + 1, n - 1) + end;
      ReadNumbersOf(pid + 1, n - 1, rest);
      assert ParamTokens(pid, n) + end == [Param(pid)] + ([Comma] + more);
      assert ([Param(pid)] + ([Comma] + more))[2..] == more;
      assert Range(pid, n) == [pid] + Range(pid + 1, n - 1);
    }
  }

  lemma ReadTupleOf(pid: nat, n: nat, rest: seq<Token>)
    ensures ReadTuple(TupleTokens(pid, n) + rest) == Some((Range(pid, n), rest))
  {
    hide ReadNumbers;
    var ts := TupleTokens(pid, n) + rest;
    if n == 0 {
      assert ts == [LPar] + ([RPar] + rest) && ts[2..] == rest;
    } else {
      ReadNumbersOf(pid, n, rest);
      assert ts[1..] == ParamTokens(pid, n) + ([RPar] + rest);
      assert ts[1] == Param(pid);
    }
  }

  function TupleDoc(pid: nat, n: nat): Doc { Cat(Cat(OPEN, ParamsDoc(pid, n)), CLOSE) }

  lemma {:induction false} TupleReads(pid: nat, n: nat)
    ensures var d := TupleDoc(pid, n);
      Readable(d) && Render(d) == TupleText(pid, n) && Tokens(d) == TupleTokens(pid, n) && First(d) == OPEN && Last(d) == CLOSE
  {
    hide ParamTokens;
    var inner := ParamsDoc(pid, n);
    LeafFacts(OPEN);
    LeafFacts(CLOSE);
    if n > 0 {
      ParamsRead(pid, n);
    } else {
      LeafFacts(Empty);
      assert ParamTokens(pid, 0) == [] by { NoParamTokens(pid); }
    }
    CatFacts(OPEN, inner);
    CatFacts(Cat(OPEN, inner), CLOSE);
  }

  /** The printed tuple is read back as its numbers. */
  lemma TupleRoundTrip(pid: nat, n: nat)
    ensures var ts := Lex(TupleText(pid, n)); ts.Some? && ReadTuple(ts.value) == Some((Range(pid, n), []))
  {
    hide Lex, ReadTuple, TupleText, TupleTokens, Render, Readable, Tokens, TupleDoc, First, Last;
    TupleReads(pid, n);
    LexRender(TupleDoc(pid, n));
    ReadTupleOf(pid, n, []);
    assert TupleTokens(pid, n) + [] == TupleTokens(pid, n);
  }

  lemma NoParamTokens(pid: nat)
    ensures ParamTokens(pid, 0) == []
  {
  }

  // ----- Column lists -----

  function ColumnTexts(keys: seq<string>): (r: seq<string>)
    ensures |r| == |keys| && forall i :: 0 <= i < |keys| ==> r[i] == "\"" + keys[i] + "\""
  {
    seq(|keys|, i requires 0 <= i < |keys| => "\"" + keys[i] + "\"")
  }

  /** A list of delimited identifiers, each one column name. */
  function ReadColumns(ts: seq<Token>): Option<seq<string>>
    decreases |ts|
  {
    if ts == [] || !ts[0].Quoted? then None
    else if |ts| == 1 then Some([ts[0].name])
    else if ts[1] != Comma then None
    else match ReadColumns(ts[2..]) case None => None case Some(more) => Some([ts[0].name] + more)
  }

  function ColumnDoc(key: string): Doc { Lexeme("\"" + key + "\"", Quoted(key)) }

  /** Column names separated by a comma, and a space if `spaced`. */
  function ColumnsDoc(keys: seq<string>, spaced: bool): Doc {
    if keys == [] then Empty
    else if |keys| == 1 then ColumnDoc(keys[0])
    else
      var head := Cat(ColumnDoc(keys[0]), COMMA);
      Cat(if spaced then Cat(head, Gap) else head, ColumnsDoc(keys[1..], spaced))
  }

  function ColumnTokens(keys: seq<string>): seq<Token> {
    if keys == [] then [] else if |keys| == 1 then [Quoted(keys[0])] else [Quoted(keys[0])] + [Comma] + ColumnTokens(keys[1..])
  }

  predicate Unquoted(key: string) { '"' !in key }

  lemma {:induction false} ColumnsHead(key: string, spaced: bool, more: Doc)
    requires Unquoted(key) && Readable(more) && Last(more).Lexeme?
    ensures var head := Cat(ColumnDoc(key), COMMA);
      var d := Cat(if spaced then Cat(head, Gap) else head, more);
      && Readable(d) && Last(d) == Last(more)
      && Render(d) == "\"" + key + "\"" + (if spaced then ", " else ",") + Render(more)
      && Tokens(d) == [Quoted(key)] + [Comma] + Tokens(more)
  {
    ReplaceAbsent(key, '"', "\"\"");
    var c := ColumnDoc(key);
    assert Faithful(c.text, Quoted(key));
    LeafFacts(c);
    LeafFacts(COMMA);
    CatFacts(c, COMMA);
    WithGap(Cat(c, COMMA));
    CatFacts(Cat(c, COMMA), more);
    CatFacts(Cat(Cat(c, COMMA), Gap), more);
    Associative(c.text, ",", " ");
    assert "," + " " == ", ";
  }

  lemma {:induction false} ColumnsRead(keys: seq<string>, spaced: bool)
    requires keys != [] && forall k :: k in keys ==> Unquoted(k)
    ensures var d := ColumnsDoc(keys, spaced);
      && Readable(d) && Render(d) == Join(ColumnTexts(keys), if spaced then ", " else ",")
      && Tokens(d) == ColumnTokens(keys) && Last(d).Lexeme?
  {
    assert keys[0] in keys;
    if |keys| == 1 {
      ReplaceAbsent(keys[0], '"', "\"\"");
      assert Faithful(ColumnDoc(keys[0]).text, Quoted(keys[0]));
      LeafFacts(ColumnDoc(keys[0]));
      assert ColumnTexts(keys) == ["\"" + keys[0] + "\""];
    } else {
      ColumnsRead(keys[1..], spaced);
      ColumnsHead(keys[0], spaced, ColumnsDoc(keys[1..], spaced));
      assert ColumnTexts(keys)[1..] == ColumnTexts(keys[1..]);
    }
  }

  lemma {:induction false} ReadColumnTokens(keys: seq<string>)
    requires keys != []
    ensures ReadColumns(ColumnTokens(keys)) == Some(keys)
  {
    if |keys| == 1 {
      assert keys == [keys[0]];
    } else {
      var more := ColumnTokens(keys[1..]);
      ReadColumnTokens(keys[1..]);
      assert ([Quoted(keys[0])] + [Comma] + more)[2..] == more;
      assert keys == [keys[0]] + keys[1..];
    }
  }

  /** The printed column list is read back as the names. */
  lemma ColumnsRoundTrip(keys: seq<string>, spaced: bool)
    requires keys != [] && forall k :: k in keys ==> Unquoted(k)
    ensures var ts := Lex(Join(ColumnTexts(keys), if spaced then ", " else ","));
      ts.Some? && ReadColumns(ts.value) == Some(keys)
  {
    hide ColumnsDoc, ColumnTokens;
    ColumnsRead(keys, spaced);
    LexRender(ColumnsDoc(keys, spaced));
    ReadColumnTokens(keys);
  }
}
