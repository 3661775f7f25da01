/** SET lists, and how handlers compose statements: adapters/postgres/postgres.go,
    `SetByRequest`, and controllers/tables.go, `UpdateTable`. */
module Statements {
  import opened Text
  import opened Ident
  import opened SqlLexer
  import opened SqlCondition
  import opened Filter
  import opened FilterTokens
  import opened FilterReading
  import opened Scope
  import opened Where
  import opened WhereMeaning
  import ArrayLiteral
  import WhereReading

  datatype SetError = BodyEmpty | BadColumn

  /** One member of a JSON body: its key, and its value in the form in which it is bound. */
  datatype Member = Member(key: string, bound: string)

  // ----- SET -----

  function Assignment(key: string, pid: nat): string { HandQuoted(key) + "=$" + Decimal(pid) }

  function Assignments(body: seq<Member>, pid: nat): (r: seq<string>)
    ensures |r| == |body| && forall i :: 0 <= i < |body| ==> r[i] == Assignment(body[i].key, pid + i)
  {
    seq(|body|, i requires 0 <= i < |body| => Assignment(body[i].key, pid + i))
  }

  function BoundValues(body: seq<Member>): (r: seq<string>)
    ensures |r| == |body| && forall i :: 0 <= i < |body| ==> r[i] == body[i].bound
  {
    seq(|body|, i requires 0 <= i < |body| => body[i].bound)
  }

  function SetText(body: seq<Member>, pid: nat): string { Join(Assignments(body, pid), ", ") }

  predicate ValidKeys(body: seq<Member>) { forall m :: m in body ==> IsValid(m.key) }

  /** `body` lists the members in the order in which the map yields them. */
  method SetByRequest(body: seq<Member>, initial: nat) returns (r: Result<(string, seq<string>), SetError>)
    ensures r == if body == [] then Err(BodyEmpty)
                 else if !ValidKeys(body) then Err(BadColumn)
                 else Ok((SetText(body, initial), BoundValues(body)))
  {
    hide IsValid, HandQuoted;
    if |body| == 0 {
      return Err(BodyEmpty);
    }
    var fields, values, pid := [], [], initial;
    for i := 0 to |body|
      invariant pid == initial + i
      invariant fields == Assignments(body, initial)[..i] && values == BoundValues(body)[..i]
      invariant forall j :: 0 <= j < i ==> IsValid(body[j].key)
    {
      if !IsValid(body[i].key) {
        assert body[i] in body;
        return Err(BadColumn);
      }
      fields := fields + [HandQuoted(body[i].key) + "=$" + Decimal(pid)];
      values := values + [body[i].bound];
      pid := pid + 1;
    }
    assert fields == Assignments(body, initial) && values == BoundValues(body);
    return Ok((Join(fields, ", "), values));
  }

  /** A SET list as column paths and placeholder numbers. */
  function ReadSet(ts: seq<Token>): Option<seq<(seq<string>, nat)>>
    decreases |ts|
  {
    match ReadPath(ts)
    case None => None
    case Some((path, rest)) =>
      if |rest| < 2 || rest[0] != Op("=") || !rest[1].Param? then None
      else if |rest| == 2 then Some([(path, rest[1].id)])
      else if rest[2] != Comma then None
      else
        match ReadSet(rest[3..])
        case None => None
        case Some(more) => Some([(path, rest[1].id)] + more)
  }

  function Targets(body: seq<Member>, pid: nat): (r: seq<(seq<string>, nat)>)
    ensures |r| == |body| && forall i :: 0 <= i < |body| ==> r[i] == (Path(body[i].key), pid + i)
  {
    seq(|body|, i requires 0 <= i < |body| => (Path(body[i].key), pid + i))
  }

  function AssignmentDoc(key: string, pid: nat): Doc { Cat(Cat(PathDoc(Path(key)), SymbolDoc("=")), ParamDoc(pid)) }

  function SetDoc(body: seq<Member>, pid: nat): Doc
    requires body != []
  {
    if |body| == 1 then AssignmentDoc(body[0].key, pid)
    else Cat(Cat(Cat(AssignmentDoc(body[0].key, pid), COMMA), Gap), SetDoc(body[1..], pid + 1))
  }

  function SetTokens(body: seq<Member>, pid: nat): seq<Token>
    requires body != []
  {
    var first := PathTokens(Path(body[0].key)) + ([Op("=")] + [Param(pid)]);
    if |body| == 1 then first else first + ([Comma] + SetTokens(body[1..], pid + 1))
  }

  lemma {:induction false} AssignmentShape(p: Doc, pid: nat)
    requires Readable(p)
    ensures var d := Cat(Cat(p, SymbolDoc("=")), ParamDoc(pid));
      && (Last(p).Lexeme? && Last(p).token.Quoted? ==> Readable(d)) && Last(d) == ParamDoc(pid)
      && Render(d) == Render(p) + "=" + ("$" + Decimal(pid)) && Tokens(d) == Tokens(p) + [Op("=")] + [Param(pid)]
  {
    var eq, param := SymbolDoc("="), ParamDoc(pid);
    assert Faithful("=", Op("="));
    LeafFacts(eq);
    LeafFacts(param);
    CatFacts(p, eq);
    CatFacts(Cat(p, eq), param);
  }

  lemma AssignmentText(key: string, pid: nat)
    ensures HandQuoted(key) + "=" + ("$" + Decimal(pid)) == Assignment(key, pid)
  {
    hide HandQuoted, Decimal;
    Regroup(HandQuoted(key), "=", "$", Decimal(pid), "=$");
  }

  lemma Regroup(a: string, b: string, c: string, d: string, bc: string)
    requires bc == b + c
    ensures a + b + (c + d) == a + bc + d
  {
  }

  lemma {:induction false} AssignmentReads(key: string, pid: nat)
    requires IsValid(key)
    ensures var d := AssignmentDoc(key, pid);
      && Readable(d) && Render(d) == Assignment(key, pid) && Last(d) == ParamDoc(pid)
      && Tokens(d) == PathTokens(Path(key)) + ([Op("=")] + [Param(pid)])
  {
    hide PathDoc, PathTokens, HandQuoted, Render, Tokens, Readable, Last, IsValid;
    PathDocReads(Path(key));
    HandQuotedIsQuote(key);
    AssignmentShape(PathDoc(Path(key)), pid);
    AssignmentText(key, pid);
    Associative(PathTokens(Path(key)), [Op("=")], [Param(pid)]);
  }

  lemma {:induction false} CommaThen(a: Doc, more: Doc)
    requires Readable(a) && Last(a).Lexeme? && Last(a).token.Param? && Readable(more) && Last(more).Lexeme?
    ensures var d := Cat(Cat(Cat(a, COMMA), Gap), more);
      && Readable(d) && Render(d) == Render(a) + ", " + Render(more) && Last(d) == Last(more)
      && Tokens(d) == Tokens(a) + ([Comma] + Tokens(more))
  {
    LeafFacts(COMMA);
    CatFacts(a, COMMA);
    WithGap(Cat(a, COMMA));
    CatFacts(Cat(Cat(a, COMMA), Gap), more);
    Associative(Render(a), ",", " ");
    assert "," + " " == ", ";
    Associative(Tokens(a), [Comma], Tokens(more));
  }

  lemma {:induction false} SetDocReads(body: seq<Member>, pid: nat)
    requires body != [] && ValidKeys(body)
    ensures var d := SetDoc(body, pid);
      && Readable(d) && Render(d) == SetText(body, pid) && Last(d).Lexeme? && Last(d).token.Param?
      && Tokens(d) == SetTokens(body, pid)
  {
    hide IsValid, AssignmentDoc, Render, Tokens, Readable, Last, HandQuoted;
    assert body[0] in body;
    AssignmentReads(body[0].key, pid);
    if |body| > 1 {
      SetDocReads(body[1..], pid + 1);
      CommaThen(AssignmentDoc(body[0].key, pid), SetDoc(body[1..], pid + 1));
      assert Assignments(body, pid)[1..] == Assignments(body[1..], pid + 1);
    } else {
      assert Assignments(body, pid) == [Assignment(body[0].key, pid)];
    }
  }

  lemma ReadSetLast(ts: seq<Token>, path: seq<string>, pid: nat)
    requires ReadPath(ts) == Some((path, [Op("=")] + [Param(pid)]))
    ensures ReadSet(ts) == Some([(path, pid)])
  {
  }

  lemma ReadSetStep(ts: seq<Token>, path: seq<string>, pid: nat, more: seq<Token>)
    requires ReadPath(ts) == Some((path, [Op("=")] + [Param(pid)] + ([Comma] + more))) && ReadSet(more).Some?
    ensures ReadSet(ts) == Some([(path, pid)] + ReadSet(more).value)
  {
    assert ([Op("=")] + [Param(pid)] + ([Comma] + more))[3..] == more;
  }

  lemma {:induction false} ReadSetTokens(body: seq<Member>, pid: nat)
    requires body != []
    ensures ReadSet(SetTokens(body, pid)) == Some(Targets(body, pid))
  {
    hide PathTokens, ReadPath, ReadSet, Targets;
    var path := Path(body[0].key);
    TargetsHead(body, pid);
    var pair := [Op("=")] + [Param(pid)];
    if |body| == 1 {
      ReadPathTokens(path, pair);
      ReadSetLast(PathTokens(path) + pair, path, pid);
    } else {
      var more := SetTokens(body[1..], pid + 1);
      ReadPathTokens(path, pair + ([Comma] + more));
      Associative(PathTokens(path), pair, [Comma] + more);
      ReadSetTokens(body[1..], pid + 1);
      ReadSetStep(PathTokens(path) + (pair + ([Comma] + more)), path, pid, more);
    }
  }

  lemma TargetsHead(body: seq<Member>, pid: nat)
    requires body != []
    ensures Targets(body, pid) == [(Path(body[0].key), pid)] + Targets(body[1..], pid + 1)
    ensures |body| == 1 ==> Targets(body, pid) == [(Path(body[0].key), pid)]
  {
    hide Path;
  }

  /** The SET list assigns to each field of the body its own placeholder. */
  lemma SetReads(body: seq<Member>, pid: nat)
    requires body != [] && ValidKeys(body)
    ensures var ts := Lex(SetText(body, pid)); ts.Some? && ReadSet(ts.value) == Some(Targets(body, pid))
  {
    SetDocReads(body, pid);
    LexRender(SetDoc(body, pid));
    ReadSetTokens(body, pid);
  }

  // ----- Which placeholders a text uses -----

  function ParamsOf(ts: seq<Token>): seq<nat> {
    if ts == [] then [] else (if ts[0].Param? then [ts[0].id] else []) + ParamsOf(ts[1..])
  }

  lemma {:induction false} ParamsConcat(a: seq<Token>, b: seq<Token>)
    ensures ParamsOf(a + b) == ParamsOf(a) + ParamsOf(b)
  {
    if a == [] {
      assert a + b == b;
    } else {
      ParamsConcat(a[1..], b);
      assert (a + b)[1..] == a[1..] + b && (a + b)[0] == a[0];
      Associative(if a[0].Param? then [a[0].id] else [], ParamsOf(a[1..]), ParamsOf(b));
    }
  }

  lemma {:induction false} NoParams(ts: seq<Token>)
    requires forall t :: t in ts ==> !t.Param?
    ensures ParamsOf(ts) == []
  {
    if ts != [] {
      assert ts[0] in ts;
      NoParams(ts[1..]);
    }
  }

  lemma {:induction false} PathNoParams(path: seq<string>)
    ensures forall t :: t in PathTokens(path) ==> !t.Param?
  {
    if |path| > 1 {
      PathNoParams(path[1..]);
    }
  }

  lemma {:induction false} BareNoParams(path: seq<string>)
    ensures forall t :: t in BareTokens(path) ==> !t.Param?
  {
    if |path| > 1 {
      BareNoParams(path[1..]);
    }
  }

  lemma {:induction false} SetParams(body: seq<Member>, pid: nat)
    requires body != []
    ensures ParamsOf(SetTokens(body, pid)) == Range(pid, |body|)
  {
    hide PathTokens, ParamsOf, Path;
    var path := PathTokens(Path(body[0].key));
    PathNoParams(Path(body[0].key));
    NoParams(path + [Op("=")]);
    NoParams([]);
    OneParam(path + [Op("=")], pid, []);
    Associative(path, [Op("=")], [Param(pid)]);
    var first := path + ([Op("=")] + [Param(pid)]);
    assert first + [] == first;
    if |body| == 1 {
      assert Range(pid, 1) == [pid];
    } else {
      var more := SetTokens(body[1..], pid + 1);
      SetParams(body[1..], pid + 1);
      ParamsConcat(first, [Comma] + more);
      NoParams([Comma]);
      ParamsConcat([Comma], more);
      assert [pid] + ([] + Range(pid + 1, |body| - 1)) == Range(pid, |body|);
    }
  }

  lemma {:induction false} ParamTokensParams(pid: nat, n: nat)
    ensures ParamsOf(ParamTokens(pid, n)) == Range(pid, n)
    decreases n
  {
    if n == 1 {
      assert [Param(pid)][1..] == [] && Range(pid, 1) == [pid];
    } else if n > 1 {
      var more := ParamTokens(pid + 1, n - 1);
      ParamTokensParams(pid + 1, n - 1);
      assert ParamTokens(pid, n) == [Param(pid)] + ([Comma] + more);
      assert ([Param(pid)] + ([Comma] + more))[1..] == [Comma] + more && ([Comma] + more)[1..] == more;
      assert Range(pid, n) == [pid] + Range(pid + 1, n - 1);
    }
  }

  lemma OperatorNoParams(op: Operator)
    requires Known(op)
    ensures ParamsOf(Tokens(OperatorDoc(op))) == []
  {
    WhereReading.OperatorTokens(op);
    NoParams(Tokens(OperatorDoc(op)));
  }

  lemma LeftNoParams(left: Left)
    requires left.JsonField? ==> LeftValid(left)
    ensures ParamsOf(Tokens(LeftDoc(left))) == []
  {
    LeftDocTokens(left);
    match left {
      case Field(name) => PathNoParams(Path(name));
      case JsonField(column, attribute) => PathNoParams(Path(column));
    }
    NoParams(LeftTokens(left));
  }

  lemma OneParam(before: seq<Token>, pid: nat, after: seq<Token>)
    requires ParamsOf(before) == [] && ParamsOf(after) == []
    ensures ParamsOf(before + [Param(pid)] + after) == [pid]
  {
    ParamsConcat(before, [Param(pid)]);
    ParamsConcat(before + [Param(pid)], after);
    assert [Param(pid)][1..] == [];
  }

  lemma CompareParams(left: Left, op: Operator, value: string, pid: nat)
    requires WellFormed(Compare(left, op, value))
    ensures ParamsOf(Tokens(FilterDoc(Compare(left, op, value), pid))) == [pid]
  {
    hide Tokens, FilterDoc, LeftDoc, OperatorDoc, ParamsOf;
    var l, o := Tokens(LeftDoc(left)), Tokens(OperatorDoc(op));
    CompareReads(left, op, value, pid);
    LeftNoParams(left);
    OperatorNoParams(op);
    ParamsConcat(l, o);
    NoParams([]);
    OneParam(l + o, pid, []);
    assert l + o + [Param(pid)] + [] == l + o + [Param(pid)];
  }

  lemma ListingParams(left: Left, negated: bool, values: seq<string>, pid: nat)
    requires WellFormed(Listing(left, negated, values))
    ensures ParamsOf(Tokens(FilterDoc(Listing(left, negated, values), pid))) == Range(pid, |values|)
  {
    hide Tokens, FilterDoc, LeftDoc, OperatorDoc, ParamTokens, ParamsOf, Range, FilterText, Readable, Render, Last;
    var l, op, params := Tokens(LeftDoc(left)), Tokens(OperatorDoc(Listed(negated))), ParamTokens(pid, |values|);
    ListingReads(left, negated, values, pid);
    LeftNoParams(left);
    OperatorNoParams(Listed(negated));
    ParamTokensParams(pid, |values|);
    BracketedParams(l, op, params);
  }

  lemma BracketedParams(l: seq<Token>, op: seq<Token>, params: seq<Token>)
    requires ParamsOf(l) == [] && ParamsOf(op) == []
    ensures ParamsOf(l + op + [LPar] + params + [RPar]) == ParamsOf(params)
  {
    hide ParamsOf;
    NoParams([LPar]);
    NoParams([RPar]);
    ParamsConcat(l, op);
    ParamsConcat(l + op, [LPar]);
    ParamsConcat(l + op + [LPar], params);
    ParamsConcat(l + op + [LPar] + params, [RPar]);
    assert [] + [] + [] + ParamsOf(params) + [] == ParamsOf(params);
  }

  lemma QuantifyParams(left: Left, word: string, elements: seq<string>, pid: nat)
    requires WellFormed(Quantify(left, word, elements))
    ensures ParamsOf(Tokens(FilterDoc(Quantify(left, word, elements), pid))) == [pid]
  {
    hide Tokens, FilterDoc, LeftDoc, ParamsOf, FilterText, Readable, Render, Last;
    var l := Tokens(LeftDoc(left));
    QuantifyReads(left, word, elements, pid);
    LeftNoParams(left);
    NoParams([Op("=")]);
    NoParams([Word(word)]);
    NoParams([LPar]);
    NoParams([RPar]);
    ParamsConcat(l, [Op("=")]);
    ParamsConcat(l + [Op("=")], [Word(word)]);
    ParamsConcat(l + [Op("=")] + [Word(word)], [LPar]);
    OneParam(l + [Op("=")] + [Word(word)] + [LPar], pid, [RPar]);
  }

  lemma TestParams(left: Left, negated: bool, what: string, pid: nat)
    requires WellFormed(Test(left, negated, what))
    ensures ParamsOf(Tokens(FilterDoc(Test(left, negated, what), pid))) == []
  {
    hide Tokens, FilterDoc, LeftDoc, OperatorDoc, ParamsOf;
    TestReads(left, negated, what, pid);
    LeftNoParams(left);
    OperatorNoParams(Tested(negated, what));
    ParamsConcat(Tokens(LeftDoc(left)), Tokens(OperatorDoc(Tested(negated, what))));
  }

  lemma SearchParams(field: string, config: Option<string>, query: string, pid: nat)
    requires WellFormed(Search(field, config, query))
    ensures ParamsOf(Tokens(FilterDoc(Search(field, config, query), pid))) == []
  {
    hide Tokens, FilterDoc, BareTokens, ParamsOf, ArgTokens, FilterText, Readable, Render, Last, Path;
    SearchReads(field, config, query, pid);
    BareNoParams(Path(field));
    ArgsNoParams(config, query);
    CallNoParams(BareTokens(Path(field)), ArgTokens(config, query));
  }

  lemma CallNoParams(name: seq<Token>, args: seq<Token>)
    requires (forall t :: t in name ==> !t.Param?) && forall t :: t in args ==> !t.Param?
    ensures ParamsOf(name + [Op("@@")] + [Word("to_tsquery")] + [LPar] + (args + [RPar])) == []
  {
    hide ParamsOf;
    NoParams(name + [Op("@@")] + [Word("to_tsquery")] + [LPar] + (args + [RPar]));
  }

  lemma ArgsNoParams(config: Option<string>, query: string)
    ensures forall t :: t in ArgTokens(config, query) ==> !t.Param?
  {
  }

  /** A filter uses the numbers from its own on, one for each of its values. */
  lemma FilterParams(f: Filter, pid: nat)
    requires WellFormed(f)
    ensures ParamsOf(Tokens(FilterDoc(f, pid))) == Range(pid, |FilterValues(f)|)
  {
    hide Tokens, FilterDoc, ParamsOf, WellFormed, ArrayLiteral.Literal, Elements;
    assert Range(pid, 1) == [pid] && Range(pid, 0) == [];
    match f
    case Compare(left, op, value) => CompareParams(left, op, value, pid);
    case Listing(left, negated, values) => ListingParams(left, negated, values, pid);
    case Quantify(left, word, elements) => QuantifyParams(left, word, elements, pid);
    case Test(left, negated, what) => TestParams(left, negated, what, pid);
    case Search(field, config, query) => SearchParams(field, config, query, pid);
  }

  // ----- WHERE -----

  function ClauseParams(cs: seq<WhereReading.Clause>): seq<nat> {
    if cs == [] then [] else ParamsOf(Tokens(cs[0].doc)) + ClauseParams(cs[1..])
  }

  lemma {:induction false} JoinParams(cs: seq<WhereReading.Clause>, word: Token)
    requires cs != [] && word.Word?
    ensures ParamsOf(WhereReading.JoinTokens(cs, word)) == ClauseParams(cs)
  {
    hide Tokens, ParamsOf;
    var first := Tokens(cs[0].doc);
    if |cs| == 1 {
      assert ParamsOf(first) + [] == ParamsOf(first);
    } else {
      var more := WhereReading.JoinTokens(cs[1..], word);
      JoinParams(cs[1..], word);
      NoParams([word]);
      ParamsConcat(first, [word] + more);
      ParamsConcat([word], more);
      assert [] + ParamsOf(more) == ParamsOf(more);
    }
  }

  /** Numbers put in front of one of two lists stand in front of all. */
  lemma SplitBetween(first: seq<nat>, x: seq<nat>, y: seq<nat>, all: seq<nat>)
    requires multiset(x) + multiset(y) == multiset(all)
    ensures multiset(first + x) + multiset(y) == multiset(first + all)
    ensures multiset(x) + multiset(first + y) == multiset(first + all)
  {
  }

  lemma {:induction false} ItemParams(reserved: set<string>, items: seq<Item>, pid: nat)
    requires forall item :: item in items ==> WellFormed(item.filter)
    ensures multiset(ClauseParams(ItemClauses(reserved, items, pid, false))) +
            multiset(ClauseParams(ItemClauses(reserved, items, pid, true))) ==
            multiset(Range(pid, |WhereValues(items, pid)|))
  {
    hide Tokens, FilterDoc, FilterValues, FilterText, ReadExpr, WellFormed, Parsable, ParamsOf, Range, ClauseParams,
      WhereValues, ItemClauses;
    if items == [] {
      NoItemClauses(reserved, pid);
      NothingUsed(pid);
    } else {
      var f, rest := items[0].filter, items[1..];
      var n := |FilterValues(f)|;
      assert items[0] in items;
      FilterParams(f, pid);
      ItemParams(reserved, rest, pid + n);
      WhereValuesHead(items, pid);
      ItemClauseParams(reserved, items, pid, false);
      ItemClauseParams(reserved, items, pid, true);
      RangeConcat(pid, n, |WhereValues(rest, pid + n)|);
      SplitBetween(Range(pid, n), ClauseParams(ItemClauses(reserved, rest, pid + n, false)),
                   ClauseParams(ItemClauses(reserved, rest, pid + n, true)), Range(pid + n, |WhereValues(rest, pid + n)|));
    }
  }

  lemma NoItemClauses(reserved: set<string>, pid: nat)
    ensures ItemClauses(reserved, [], pid, false) == [] && ItemClauses(reserved, [], pid, true) == []
  {
  }

  lemma WhereValuesHead(items: seq<Item>, pid: nat)
    requires items != []
    ensures var vs := FilterValues(items[0].filter);
      WhereValues(items, pid) == vs + WhereValues(items[1..], pid + |vs|)
  {
    hide FilterValues, FilterText;
    ValuesHead(PrintItem(items[0], pid), Print(items[1..], pid + |FilterValues(items[0].filter)|));
  }

  lemma ItemClauseParams(reserved: set<string>, items: seq<Item>, pid: nat, inOr: bool)
    requires items != []
    ensures var f := items[0].filter;
      var more := ClauseParams(ItemClauses(reserved, items[1..], pid + |FilterValues(f)|, inOr));
      ClauseParams(ItemClauses(reserved, items, pid, inOr)) ==
        if items[0].inOr == inOr then ParamsOf(Tokens(FilterDoc(f, pid))) + more else more
  {
    hide Tokens, FilterDoc, FilterValues, FilterText, FilterExpr, WellPrinted, ParamsOf, ClauseParams;
    var f := items[0].filter;
    var more := ItemClauses(reserved, items[1..], pid + |FilterValues(f)|, inOr);
    ClauseParamsHead(WhereReading.FilterClause(reserved, f, pid), more);
    assert [] + more == more;
  }

  lemma NothingUsed(pid: nat)
    ensures Range(pid, 0) == [] && ClauseParams([]) == [] && WhereValues([], pid) == []
  {
  }

  lemma ClauseParamsHead(c: WhereReading.Clause, cs: seq<WhereReading.Clause>)
    ensures ClauseParams([c] + cs) == ParamsOf(Tokens(c.doc)) + ClauseParams(cs)
  {
    assert ([c] + cs)[1..] == cs;
  }

  /** The key words the grammar itself needs reserved; any server's list contains them. */
  const GRAMMAR_WORDS: set<string> := {"is", "not", "true", "false"}

  lemma GrammarWords()
    ensures ServerWords(GRAMMAR_WORDS)
  {
    assert |"to_tsquery"| == 10 && |"is"| == 2 && |"not"| == 3 && |"true"| == 4 && |"false"| == 5;
  }

  lemma {:induction false} ClauseParamsConcat(a: seq<WhereReading.Clause>, b: seq<WhereReading.Clause>)
    ensures ClauseParams(a + b) == ClauseParams(a) + ClauseParams(b)
  {
    if a == [] {
      assert a + b == b;
    } else {
      ClauseParamsConcat(a[1..], b);
      assert a + b == [a[0]] + (a[1..] + b) && a == [a[0]] + a[1..];
      ClauseParamsHead(a[0], a[1..] + b);
      ClauseParamsHead(a[0], a[1..]);
      Associative(ParamsOf(Tokens(a[0].doc)), ClauseParams(a[1..]), ClauseParams(b));
    }
  }

  lemma {:induction false} GroupParams(cs: seq<WhereReading.Clause>)
    requires cs != [] && WhereReading.ClauseOk(GRAMMAR_WORDS, WhereReading.GroupClause(cs))
    requires forall c :: c in cs ==> WhereReading.ClauseOk(GRAMMAR_WORDS, c)
    ensures ClauseParams([WhereReading.GroupClause(cs)]) == ClauseParams(cs)
  {
    hide Tokens, Readable, Render, Last, First, WhereReading.JoinDoc, WhereReading.JoinTokens, ParamsOf, ClauseParams, WhereReading.ClauseOk;
    var inner := WhereReading.JoinTokens(cs, Word("or"));
    WhereReading.OrReads();
    assert " " + "OR" + " " == " OR ";
    WhereReading.JoinDocReads(GRAMMAR_WORDS, cs, WhereReading.OR, " OR ");
    WhereReading.Parenthesised(WhereReading.JoinDoc(cs, WhereReading.OR));
    JoinParams(cs, Word("or"));
    ParensParams(inner);
    OneClauseParams(WhereReading.GroupClause(cs));
  }

  lemma ParensParams(inner: seq<Token>)
    ensures ParamsOf([LPar] + inner + [RPar]) == ParamsOf(inner)
  {
    hide ParamsOf;
    NoParams([LPar]);
    NoParams([RPar]);
    ParamsConcat([LPar], inner);
    ParamsConcat([LPar] + inner, [RPar]);
    assert [] + ParamsOf(inner) + [] == ParamsOf(inner);
  }

  lemma OneClauseParams(c: WhereReading.Clause)
    ensures ClauseParams([c]) == ParamsOf(Tokens(c.doc))
  {
    hide ParamsOf, Tokens;
    assert [c][1..] == [] && ParamsOf(Tokens(c.doc)) + [] == ParamsOf(Tokens(c.doc));
  }

  lemma WhereClauseParams(items: seq<Item>, pid: nat)
    requires items != [] && forall item :: item in items ==> WellFormed(item.filter)
    ensures multiset(ClauseParams(WhereClauses(GRAMMAR_WORDS, items, pid))) ==
            multiset(Range(pid, |WhereValues(items, pid)|))
  {
    hide WellFormed, ItemClauses, ClauseParams, WhereReading.ClauseOk, WhereReading.GroupClause, WhereValues, Range,
      WhereReading.AllParse;
    var plain, alternatives := ItemClauses(GRAMMAR_WORDS, items, pid, false), ItemClauses(GRAMMAR_WORDS, items, pid, true);
    GrammarWords();
    ItemParams(GRAMMAR_WORDS, items, pid);
    if alternatives != [] {
      ItemClausesOk(GRAMMAR_WORDS, items, pid, true);
      WhereReading.GroupOk(GRAMMAR_WORDS, alternatives);
      GroupParams(alternatives);
      ClauseParamsConcat(plain, [WhereReading.GroupClause(alternatives)]);
    } else {
      assert plain + [] == plain;
      NothingUsed(pid);
    }
  }

  lemma WhereLexes(items: seq<Item>, pid: nat)
    requires items != [] && forall item :: item in items ==> WellFormed(item.filter)
    ensures WhereClauses(GRAMMAR_WORDS, items, pid) != []
    ensures Lex(WhereText(items, pid)) == Some(WhereReading.JoinTokens(WhereClauses(GRAMMAR_WORDS, items, pid), Word("and")))
  {
    hide Tokens, Readable, Render, Last, First, WhereReading.JoinDoc, WhereReading.JoinTokens, WellFormed, Lex, WellPrinted,
      WhereClauses, WhereReading.ClauseOk, WhereText, WhereReading.ClauseTexts, WhereReading.ClauseExprs, Exprs, Grouped;
    var cs := WhereClauses(GRAMMAR_WORDS, items, pid);
    GrammarWords();
    WhereClausesOk(GRAMMAR_WORDS, items, pid);
    WhereReading.OrReads();
    assert " " + "AND" + " " == " AND ";
    WhereReading.JoinDocReads(GRAMMAR_WORDS, cs, WhereReading.AND, " AND ");
    LexRender(WhereReading.JoinDoc(cs, WhereReading.AND));
  }

  /** The WHERE text uses each number from `pid` on exactly once, one for each value. */
  lemma WhereParams(items: seq<Item>, pid: nat)
    requires forall item :: item in items ==> WellFormed(item.filter)
    ensures var ts := Lex(WhereText(items, pid));
      ts.Some? && multiset(ParamsOf(ts.value)) == multiset(Range(pid, |WhereValues(items, pid)|))
  {
    hide Tokens, WhereReading.JoinTokens, ParamsOf, WellFormed, Lex, WhereClauses, ClauseParams, WhereText, WhereValues,
      Range;
    if items == [] {
      PrintNothing(pid);
      NothingUsed(pid);
      LexNothing();
    } else {
      WhereLexes(items, pid);
      JoinParams(WhereClauses(GRAMMAR_WORDS, items, pid), Word("and"));
      WhereClauseParams(items, pid);
    }
  }

  lemma LexNothing()
    ensures Lex("") == Some([]) && ParamsOf([]) == []
  {
  }

  // ----- UPDATE: the SET list numbers from 1, the WHERE clause goes on after it -----

  datatype UpdateError = SetFailed(SetError) | WhereFailed(Error)
  datatype Update = Update(assignments: string, condition: string, values: seq<string>)

  function UpdateOf(config: Config, req: Request, body: seq<Member>): Result<Update, UpdateError> {
    if body == [] then Err(SetFailed(BodyEmpty))
    else if !ValidKeys(body) then Err(SetFailed(BadColumn))
    else
      match Items(config, req)
      case Err(e) => Err(WhereFailed(e))
      case Ok(items) =>
        var pid := |body| + 1;
        Ok(Update(SetText(body, 1), WhereText(items, pid), BoundValues(body) + WhereValues(items, pid)))
  }

  method UpdateTable(config: Config, req: Request, body: seq<Member>) returns (r: Result<Update, UpdateError>)
    ensures r == UpdateOf(config, req, body)
  {
    hide Items, SetText, WhereText, WhereValues, ValidKeys;
    var set_ := SetByRequest(body, 1);
    if set_.Err? {
      return Err(SetFailed(set_.error));
    }
    var (setSyntax, values) := set_.value;
    var pid := |values| + 1;
    var filter := WhereByRequest(config, req, pid);
    if filter.Err? {
      return Err(WhereFailed(filter.error));
    }
    var (condition, whereValues) := filter.value;
    if condition != "" {
      values := values + whereValues;
    } else {
      ghost var items := Items(config, req).value;
      if items != [] {
        WhereNotEmpty(items, pid);
      }
      PrintNothing(pid);
      assert values + [] == values;
    }
    return Ok(Update(setSyntax, condition, values));
  }

  lemma SetUses(body: seq<Member>, pid: nat)
    requires body != [] && ValidKeys(body)
    ensures var ts := Lex(SetText(body, pid)); ts.Some? && ParamsOf(ts.value) == Range(pid, |body|)
  {
    hide SetDoc, SetTokens, SetText, Lex, ParamsOf, Range, IsValid;
    SetDocReads(body, pid);
    LexRender(SetDoc(body, pid));
    SetParams(body, pid);
  }

  /** The SET list and the condition of an UPDATE together use each of `$1` to `$n` once, n
      being the number of values, and an empty condition brings no values. */
  lemma UpdateAligned(config: Config, req: Request, body: seq<Member>)
    requires UpdateOf(config, req, body).Ok?
    ensures var u := UpdateOf(config, req, body).value;
      var setTokens, whereTokens := Lex(u.assignments), Lex(u.condition);
      && setTokens.Some? && whereTokens.Some?
      && multiset(ParamsOf(setTokens.value) + ParamsOf(whereTokens.value)) == multiset(Range(1, |u.values|))
      && (u.condition == "" ==> |u.values| == |body|)
  {
    hide Items, SetText, WhereText, WhereValues, IsValid, Lex, ParamsOf, Range, WellFormed;
    var items, n := Items(config, req).value, |body|;
    SetUses(body, 1);
    ItemsWellFormed(config, req);
    WhereParams(items, n + 1);
    RangeConcat(1, n, |WhereValues(items, n + 1)|);
    if items == [] {
      PrintNothing(n + 1);
    } else {
      WhereNotEmpty(items, n + 1);
    }
  }

  /** Each field of an UPDATE is set to its own value. */
  lemma UpdateAssigns(config: Config, req: Request, body: seq<Member>)
    requires UpdateOf(config, req, body).Ok?
    ensures var u := UpdateOf(config, req, body).value;
      var ts := Lex(u.assignments);
      && ts.Some? && ReadSet(ts.value) == Some(Targets(body, 1))
      && forall i :: 0 <= i < |body| ==>
           Targets(body, 1)[i].0 == Path(body[i].key) && u.values[Targets(body, 1)[i].1 - 1] == body[i].bound
  {
    hide Items, WhereText, WhereValues, Lex, ReadSet, SetText, Path, IsValid;
    SetReads(body, 1);
  }

  /** The condition of an UPDATE, bound to the statement's whole list of values, is the one
      the request asks for. */
  lemma UpdateCondition(reserved: set<string>, config: Config, req: Request, body: seq<Member>)
    requires ServerWords(reserved) && UpdateOf(config, req, body).Ok? && Items(config, req).value != []
    requires forall item :: item in Items(config, req).value ==> WellPrinted(item.filter, reserved)
    ensures var u := UpdateOf(config, req, body).value;
      var parsed := ParseCondition(reserved, u.condition);
      parsed.Some? && Bind(parsed.value, 1, u.values) == IntendedWhere(Items(config, req).value)
  {
    hide Items, SetText, WhereText, WhereValues, WellPrinted, ParseCondition, Bind, IntendedWhere, WhereExpr;
    var u, items, n := UpdateOf(config, req, body).value, Items(config, req).value, |body|;
    ItemsWellFormed(config, req);
    WhereReadsIff(reserved, items, n + 1);
    assert u.values[n..n + |WhereValues(items, n + 1)|] == WhereValues(items, n + 1);
    WhereBindsWithin(items, n + 1, 1, u.values);
  }

  /** Binding also works in a longer list of values. */
  lemma WhereBindsWithin(items: seq<Item>, pid: nat, initial: nat, values: seq<string>)
    requires items != [] && (forall item :: item in items ==> WellFormed(item.filter))
    requires Stands(WhereValues(items, pid), pid, initial, values)
    ensures Bind(WhereExpr(items, pid), initial, values) == IntendedWhere(items)
  {
    hide WellFormed, Exprs, Meanings, Print, Bind, Conjunction, Grouped, Stands;
    BindExprs(items, pid, false, initial, values);
    BindExprs(items, pid, true, initial, values);
    SomeExpr(items, pid);
    BindGrouped(Exprs(items, pid, false), Exprs(items, pid, true), initial, values);
  }
}
