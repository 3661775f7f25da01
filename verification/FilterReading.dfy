/** Each printed filter, read with PostgreSQL's precedence, is the condition that was asked
    for: column, operator and placeholders in their places, whatever follows it. */
module FilterReading {
  import opened Text
  import opened Ident
  import opened SqlLexer
  import opened SqlCondition
  import opened Filter
  import opened FilterTokens
  import ArrayLiteral

  /** The condition a filter asks for, its values still placeholders numbered from `pid`. */
  function FilterExpr(f: Filter, pid: nat): Expr {
    match f
    case Compare(left, op, _) => Comparing(left, op, Placeholder(pid))
    case Listing(left, negated, values) => Member(negated, LeftExpr(left), Placeholders(pid, |values|))
    case Quantify(left, word, _) => Quantified("=", word, LeftExpr(left), Placeholder(pid))
    case Test(left, negated, what) => Is(negated, LeftExpr(left), what)
    case Search(field, config, query) => SearchExpr(Path(field), config, query)
  }

  /** The condition a filter asks for. */
  function Meaning(f: Filter): Expr {
    match f
    case Compare(left, op, value) => Comparing(left, op, Value(value))
    case Listing(left, negated, values) => Member(negated, LeftExpr(left), ValuesOf(values))
    case Quantify(left, word, elements) =>
      Quantified("=", word, LeftExpr(left), Value(ArrayLiteral.Literal(Elements(elements))))
    case Test(left, negated, what) => Is(negated, LeftExpr(left), what)
    case Search(field, config, query) => SearchExpr(Path(field), config, query)
  }

  function LeftExpr(left: Left): Expr {
    match left
    case Field(name) => Column(Path(name))
    case JsonField(column, attribute) => Binary("->>", Column(Path(column)), Text(attribute))
  }

  function Comparing(left: Left, op: Operator, right: Expr): Expr {
    match op
    case Relation(s) => Binary(s, LeftExpr(left), right)
    case Matching(negated, caseless) => Like(negated, caseless, LeftExpr(left), right)
    case _ => right
  }

  function Placeholders(pid: nat, n: nat): (r: seq<Expr>)
    ensures |r| == n && forall i :: 0 <= i < n ==> r[i] == Placeholder(pid + i)
  {
    seq(n, i requires 0 <= i < n => Placeholder(pid + i))
  }

  function ValuesOf(values: seq<string>): (r: seq<Expr>)
    ensures |r| == |values| && forall i :: 0 <= i < |values| ==> r[i] == Value(values[i])
  {
    seq(|values|, i requires 0 <= i < |values| => Value(values[i]))
  }

  function SearchExpr(path: seq<string>, config: Option<string>, query: string): Expr {
    Binary("@@", Column(path), Call("to_tsquery", ArgExprs(config, query)))
  }

  function ArgExprs(config: Option<string>, query: string): seq<Expr> {
    match config case None => [Text(query)] case Some(c) => [Text(c), Text(query)]
  }

  /** The key words that matter here, as the server has them. */
  predicate ServerWords(reserved: set<string>) {
    "is" in reserved && "not" in reserved && "true" in reserved && "false" in reserved && "to_tsquery" !in reserved
  }

  /** A filter that PostgreSQL reads as it was meant. Configured columns must be identifiers,
      and a text-search field, which is printed bare, must survive folding to lower case
      and must not begin with a reserved word. */
  predicate WellPrinted(f: Filter, reserved: set<string>) {
    match f
    case Search(field, _, _) => LowerPath(Path(field)) == Path(field) && Path(field)[0] !in reserved
    case _ => LeftValid(f.left)
  }

  /** A filter that PostgreSQL reads as some condition, if not the one that was meant. */
  predicate Parsable(f: Filter, reserved: set<string>) {
    match f
    case Search(field, _, _) =>
      var path := Path(field);
      Lower(path[0]) !in reserved || (|path| == 1 && (Lower(path[0]) == "true" || Lower(path[0]) == "false"))
    case _ => LeftValid(f.left)
  }

  /** What a bare field is read as: a column, folded to lower case, or a constant. */
  function BareExpr(path: seq<string>, reserved: set<string>): Expr
    requires path != []
  {
    if Lower(path[0]) in reserved then Constant(Lower(path[0]) == "true") else Column(LowerPath(path))
  }

  function SearchRead(field: string, config: Option<string>, query: string, reserved: set<string>): Expr {
    Binary("@@", BareExpr(Path(field), reserved), Call("to_tsquery", ArgExprs(config, query)))
  }

  /** The condition a parsable filter is read as, its values still placeholders. */
  function ReadExpr(f: Filter, pid: nat, reserved: set<string>): Expr {
    match f case Search(field, config, query) => SearchRead(field, config, query, reserved) case _ => FilterExpr(f, pid)
  }

  /** The same with its values. */
  function ReadMeaning(f: Filter, reserved: set<string>): Expr {
    match f case Search(field, config, query) => SearchRead(field, config, query, reserved) case _ => Meaning(f)
  }

  /** Well printed is: read, and as what was meant. */
  lemma WellPrintedIff(f: Filter, pid: nat, reserved: set<string>)
    requires ServerWords(reserved)
    ensures WellPrinted(f, reserved) <==> Parsable(f, reserved) && ReadExpr(f, pid, reserved) == FilterExpr(f, pid)
    ensures WellPrinted(f, reserved) ==> ReadMeaning(f, reserved) == Meaning(f)
  {
    if f.Search? {
      var path := Path(f.field);
      assert LowerPath(path)[0] == Lower(path[0]);
    }
  }

  function LowerPath(path: seq<string>): (r: seq<string>)
    ensures |r| == |path| && forall i :: 0 <= i < |path| ==> r[i] == Lower(path[i])
  {
    if path == [] then [] else [Lower(path[0])] + LowerPath(path[1..])
  }

  /** What may follow a complete condition. */
  predicate Closes(ts: seq<Token>) {
    ts == [] || ts[0] == Word("and") || ts[0] == Word("or") || ts[0] == RPar || ts[0] == Comma
  }

  // ----- Operands -----

  function DotTokens(path: seq<string>): seq<Token> {
    if path == [] then [] else [Dot, Quoted(path[0])] + DotTokens(path[1..])
  }

  lemma {:induction false} PathTokensAre(path: seq<string>)
    requires path != []
    ensures PathTokens(path) == [Quoted(path[0])] + DotTokens(path[1..])
  {
    if |path| > 1 {
      PathTokensAre(path[1..]);
    }
  }

  lemma ColumnStep(before: seq<string>, segment: string, t: Token, rest: seq<Token>)
    requires t == Quoted(segment) || t == Word(segment)
    ensures ColumnPath(before, [Dot, t] + rest) == ColumnPath(before + [segment], rest)
  {
    assert ([Dot, t] + rest)[2..] == rest;
  }

  lemma {:induction false} ColumnReads(before: seq<string>, path: seq<string>, rest: seq<Token>)
    requires !Starts(rest, Dot)
    ensures ColumnPath(before, DotTokens(path) + rest) == Done(Column(before + path), rest)
    decreases path
  {
    if path == [] {
      assert [] + rest == rest && before + path == before;
    } else {
      var more := DotTokens(path[1..]) + rest;
      ColumnReads(before + [path[0]], path[1..], rest);
      Associative([Dot, Quoted(path[0])], DotTokens(path[1..]), rest);
      ColumnStep(before, path[0], Quoted(path[0]), more);
      assert before + [path[0]] + path[1..] == before + path;
    }
  }

  lemma PrimaryPath(reserved: set<string>, path: seq<string>, rest: seq<Token>)
    requires path != [] && !Starts(rest, Dot)
    ensures ParsePrimary(reserved, PathTokens(path) + rest) == Done(Column(path), rest)
  {
    var more := DotTokens(path[1..]) + rest;
    PathTokensAre(path);
    ColumnReads([path[0]], path[1..], rest);
    Associative([Quoted(path[0])], DotTokens(path[1..]), rest);
    assert ([Quoted(path[0])] + more)[1..] == more;
    assert [path[0]] + path[1..] == path;
  }

  function LeftTokens(left: Left): (ts: seq<Token>)
    ensures LeftValid(left) ==> ts != [] && ts[0].Quoted?
  {
    match left
    case Field(name) => if IsValid(name) then PathTokens(Path(name)) else []
    case JsonField(column, attribute) => PathTokens(Path(column)) + ([Op("->>")] + [Str(attribute)])
  }

  lemma LeftDocTokens(left: Left)
    requires left.JsonField? ==> LeftValid(left)
    ensures Tokens(LeftDoc(left)) == LeftTokens(left)
  {
    match left
    case Field(name) =>
      if IsValid(name) {
        PathDocReads(Path(name));
      }
    case JsonField(column, attribute) =>
      PathDocReads(Path(column));
      JsonTail(PathDoc(Path(column)), attribute);
      Associative(PathTokens(Path(column)), [Op("->>")], [Str(attribute)]);
  }

  /** After the left operand, operators are looked for. */
  lemma LeftReads(reserved: set<string>, left: Left, rest: seq<Token>)
    requires LeftValid(left) && !Starts(rest, Dot)
    ensures ParseOperators(reserved, LeftTokens(left) + rest) == MoreOperators(reserved, LeftExpr(left), rest)
  {
    hide IsValid, PathTokens, ParsePrimary, MoreOperators;
    match left
    case Field(name) =>
      PrimaryPath(reserved, Path(name), rest);
    case JsonField(column, attribute) =>
      var more := [Str(attribute)] + rest;
      Associative(PathTokens(Path(column)), [Op("->>")] + [Str(attribute)], rest);
      Associative([Op("->>")], [Str(attribute)], rest);
      PrimaryPath(reserved, Path(column), [Op("->>")] + more);
      OperatorStep(reserved, Column(Path(column)), "->>", Str(attribute), Text(attribute), rest);
  }

  /** One operator with a constant or placeholder to its right. */
  lemma OperatorStep(reserved: set<string>, left: Expr, symbol: string, t: Token, right: Expr, rest: seq<Token>)
    requires !Comparison(symbol) && (t.Param? || t.Str?)
    requires right == if t.Param? then Placeholder(t.id) else Text(t.text)
    ensures MoreOperators(reserved, left, [Op(symbol)] + ([t] + rest)) ==
            MoreOperators(reserved, Binary(symbol, left, right), rest)
  {
    var more := [t] + rest;
    assert ([Op(symbol)] + more)[1..] == more && more[1..] == rest;
    assert ParsePrimary(reserved, more) == Done(right, rest);
  }

  lemma ParamReads(reserved: set<string>, pid: nat, rest: seq<Token>)
    requires Closes(rest)
    ensures ParseOperators(reserved, [Param(pid)] + rest) == Done(Placeholder(pid), rest)
    ensures ParseMatch(reserved, [Param(pid)] + rest) == Done(Placeholder(pid), rest)
  {
    assert ([Param(pid)] + rest)[1..] == rest;
    assert ParsePrimary(reserved, [Param(pid)] + rest) == Done(Placeholder(pid), rest);
  }

  /** An operand alone in a list. */
  lemma OperandAlone(reserved: set<string>, t: Token, e: Expr, rest: seq<Token>)
    requires t.Param? || t.Str?
    requires e == if t.Param? then Placeholder(t.id) else Text(t.text)
    requires rest != [] && (rest[0] == RPar || rest[0] == Comma)
    ensures ParseOr(reserved, [t] + rest) == Done(e, rest)
  {
    var ts := [t] + rest;
    assert ts[1..] == rest;
    assert ParsePrimary(reserved, ts) == Done(e, rest);
    assert ParseOperators(reserved, ts) == Done(e, rest);
    assert ParseMatch(reserved, ts) == Done(e, rest);
    assert ParseComparison(reserved, ts) == Done(e, rest);
    assert ParseNot(reserved, ts) == Done(e, rest);
    assert ParseAndList(reserved, ts) == Done([e], rest);
    assert ParseAnd(reserved, ts) == Done(e, rest);
    assert ParseOrList(reserved, ts) == Done([e], rest);
  }

  lemma {:induction false} ParamListReads(reserved: set<string>, pid: nat, n: nat, rest: seq<Token>)
    requires n > 0
    ensures ParseItems(reserved, ParamTokens(pid, n) + ([RPar] + rest)) == Done(Placeholders(pid, n), [RPar] + rest)
    decreases n
  {
    hide ParseOr, ParseItems;
    var end := [RPar] + rest;
    if n == 1 {
      OperandAlone(reserved, Param(pid), Placeholder(pid), end);
      ItemAlone(reserved, [Param(pid)] + end, Placeholder(pid), end);
      assert Placeholders(pid, 1) == [Placeholder(pid)];
    } else {
      var more := ParamTokens(pid + 1, n - 1) + end;
      ParamListReads(reserved, pid + 1, n - 1, rest);
      OperandAlone(reserved, Param(pid), Placeholder(pid), [Comma] + more);
      assert ParamTokens(pid, n) + end == [Param(pid)] + ([Comma] + more);
      ItemThen(reserved, [Param(pid)] + ([Comma] + more), Placeholder(pid), more);
      assert Placeholders(pid, n) == [Placeholder(pid)] + Placeholders(pid + 1, n - 1);
    }
  }

  lemma ItemAlone(reserved: set<string>, ts: seq<Token>, e: Expr, rest: seq<Token>)
    requires ParseOr(reserved, ts) == Done(e, rest) && !Starts(rest, Comma)
    ensures ParseItems(reserved, ts) == Done([e], rest)
  {
  }

  lemma ItemThen(reserved: set<string>, ts: seq<Token>, e: Expr, more: seq<Token>)
    requires ParseOr(reserved, ts) == Done(e, [Comma] + more) && ParseItems(reserved, more).Done?
    ensures ParseItems(reserved, ts) == Done([e] + ParseItems(reserved, more).value, ParseItems(reserved, more).rest)
  {
    assert ([Comma] + more)[1..] == more;
  }

  // ----- From the operand up to NOT -----

  lemma MatchReads(reserved: set<string>, ts: seq<Token>, e: Expr, rest: seq<Token>)
    requires ts != [] && ts[0] != Word("not") && ParseMatch(reserved, ts) == Done(e, rest) && Closes(rest)
    ensures ParseNot(reserved, ts) == Done(e, rest)
  {
    assert ParseComparison(reserved, ts) == Done(e, rest);
  }

  lemma OperatorsRead(reserved: set<string>, ts: seq<Token>, e: Expr, rest: seq<Token>)
    requires ts != [] && ts[0] != Word("not") && ParseOperators(reserved, ts) == Done(e, rest) && Closes(rest)
    ensures ParseNot(reserved, ts) == Done(e, rest)
  {
    assert ParseMatch(reserved, ts) == Done(e, rest);
    MatchReads(reserved, ts, e, rest);
  }

  // ----- One lemma for each kind of filter: `ts` has `left` before the operator -----

  predicate HasLeft(reserved: set<string>, ts: seq<Token>, left: Expr, after: seq<Token>) {
    ts != [] && ts[0] != Word("not") && ParseOperators(reserved, ts) == MoreOperators(reserved, left, after)
  }

  lemma RelationReads(reserved: set<string>, ts: seq<Token>, left: Expr, symbol: string, pid: nat, rest: seq<Token>)
    requires HasLeft(reserved, ts, left, [Op(symbol)] + ([Param(pid)] + rest))
    requires Known(Relation(symbol)) && Closes(rest)
    ensures ParseNot(reserved, ts) == Done(Binary(symbol, left, Placeholder(pid)), rest)
  {
    var more := [Param(pid)] + rest;
    var after := [Op(symbol)] + more;
    if Comparison(symbol) {
      assert ParseMatch(reserved, ts) == Done(left, after);
      ParamReads(reserved, pid, rest);
      assert after[1..] == more;
      assert ParseComparison(reserved, ts) == Done(Binary(symbol, left, Placeholder(pid)), rest);
    } else {
      OperatorStep(reserved, left, symbol, Param(pid), Placeholder(pid), rest);
      OperatorsRead(reserved, ts, Binary(symbol, left, Placeholder(pid)), rest);
    }
  }

  /** What stands before IN, LIKE, ILIKE, and after IS. */
  function Negation(negated: bool): seq<Token> { if negated then [Word("not")] else [] }

  lemma NegationOf(negated: bool, rest: seq<Token>)
    requires !Starts(rest, Word("not"))
    ensures Starts(Negation(negated) + rest, Word("not")) <==> negated
    ensures (if negated then (Negation(negated) + rest)[1..] else Negation(negated) + rest) == rest
  {
    assert [] + rest == rest && ([Word("not")] + rest)[1..] == rest;
  }

  lemma MatchingReads(reserved: set<string>, ts: seq<Token>, left: Expr, negated: bool, caseless: bool, pid: nat,
                      rest: seq<Token>)
    requires HasLeft(reserved, ts, left,
                     Negation(negated) + ([Word(if caseless then "ilike" else "like")] + ([Param(pid)] + rest)))
    requires Closes(rest)
    ensures ParseNot(reserved, ts) == Done(Like(negated, caseless, left, Placeholder(pid)), rest)
  {
    var more := [Param(pid)] + rest;
    var like := [Word(if caseless then "ilike" else "like")] + more;
    NegationOf(negated, like);
    ParamReads(reserved, pid, rest);
    assert like[1..] == more;
    assert ParseMatch(reserved, ts) == Done(Like(negated, caseless, left, Placeholder(pid)), rest);
    MatchReads(reserved, ts, Like(negated, caseless, left, Placeholder(pid)), rest);
  }

  lemma MemberReads(reserved: set<string>, ts: seq<Token>, left: Expr, negated: bool, n: nat, pid: nat, rest: seq<Token>)
    requires HasLeft(reserved, ts, left,
                     Negation(negated) + ([Word("in"), LPar] + (ParamTokens(pid, n) + ([RPar] + rest))))
    requires n > 0 && Closes(rest)
    ensures ParseNot(reserved, ts) == Done(Member(negated, left, Placeholders(pid, n)), rest)
  {
    hide ParseItems, ParseOperators, ParseComparison, ParseNot, ParamTokens;
    var more := ParamTokens(pid, n) + ([RPar] + rest);
    var listed := [Word("in"), LPar] + more;
    NegationOf(negated, listed);
    ParamListReads(reserved, pid, n, rest);
    assert listed[2..] == more && listed[1] == LPar && ([RPar] + rest)[1..] == rest;
    assert ParseMatch(reserved, ts) == Done(Member(negated, left, Placeholders(pid, n)), rest);
    MatchReads(reserved, ts, Member(negated, left, Placeholders(pid, n)), rest);
  }

  lemma QuantifierReads(reserved: set<string>, ts: seq<Token>, left: Expr, word: string, pid: nat, rest: seq<Token>)
    requires HasLeft(reserved, ts, left, [Op("="), Word(word), LPar] + ([Param(pid)] + ([RPar] + rest)))
    requires Known(Quantifier(word)) && Closes(rest)
    ensures ParseNot(reserved, ts) == Done(Quantified("=", word, left, Placeholder(pid)), rest)
  {
    var more := [Param(pid)] + ([RPar] + rest);
    var after := [Op("="), Word(word), LPar] + more;
    assert ParseMatch(reserved, ts) == Done(left, after);
    assert after[3..] == more && ([RPar] + rest)[1..] == rest;
    OperandAlone(reserved, Param(pid), Placeholder(pid), [RPar] + rest);
    assert ParseComparison(reserved, ts) == Done(Quantified("=", word, left, Placeholder(pid)), rest);
  }

  lemma IsReads(reserved: set<string>, ts: seq<Token>, left: Expr, negated: bool, what: string, rest: seq<Token>)
    requires HasLeft(reserved, ts, left, [Word("is")] + (Negation(negated) + ([Word(what)] + rest)))
    requires Known(Tested(negated, what)) && Closes(rest)
    ensures ParseNot(reserved, ts) == Done(Is(negated, left, what), rest)
  {
    var after := [Word("is")] + (Negation(negated) + ([Word(what)] + rest));
    assert ParseMatch(reserved, ts) == Done(left, after);
    assert ParseComparison(reserved, ts) == Done(left, after);
    IsTestReads(left, negated, what, rest);
  }

  lemma IsTestReads(left: Expr, negated: bool, what: string, rest: seq<Token>)
    requires Known(Tested(negated, what)) && !Starts(rest, Word("is"))
    ensures IsTests(left, [Word("is")] + (Negation(negated) + ([Word(what)] + rest))) == Done(Is(negated, left, what), rest)
  {
    var end := [Word(what)] + rest;
    var tested := Negation(negated) + end;
    var after := [Word("is")] + tested;
    NegationOf(negated, end);
    assert after[1..] == tested && end[1..] == rest;
    assert negated ==> after[2..] == end;
    assert IsTests(left, after) == IsTests(Is(negated, left, what), rest);
  }

  /** The tokens of a filter up to where the next clause begins. */
  function FilterTail(f: Filter, pid: nat, rest: seq<Token>): seq<Token> {
    match f
    case Compare(_, op, _) =>
      (match op
       case Relation(s) => [Op(s)] + ([Param(pid)] + rest)
       case Matching(negated, caseless) =>
         Negation(negated) + ([Word(if caseless then "ilike" else "like")] + ([Param(pid)] + rest))
       case _ => [])
    case Listing(_, negated, values) =>
      Negation(negated) + ([Word("in"), LPar] + (ParamTokens(pid, |values|) + ([RPar] + rest)))
    case Quantify(_, word, _) => [Op("="), Word(word), LPar] + ([Param(pid)] + ([RPar] + rest))
    case Test(_, negated, what) => [Word("is")] + (Negation(negated) + ([Word(what)] + rest))
    case Search(_, config, query) =>
      [Op("@@")] + ([Word("to_tsquery"), LPar] + (ArgTokens(config, query) + ([RPar] + rest)))
  }

  lemma FilterReads(reserved: set<string>, f: Filter, pid: nat, rest: seq<Token>)
    requires WellFormed(f) && !f.Search? && LeftValid(f.left) && Closes(rest)
    ensures ParseNot(reserved, LeftTokens(f.left) + FilterTail(f, pid, rest)) == Done(FilterExpr(f, pid), rest)
  {
    var tail := FilterTail(f, pid, rest);
    var ts := LeftTokens(f.left) + tail;
    var left := LeftExpr(f.left);
    LeftReads(reserved, f.left, tail);
    assert ts[0] == LeftTokens(f.left)[0];
    match f
    case Compare(_, op, _) =>
      if op.Relation? {
        RelationReads(reserved, ts, left, op.symbol, pid, rest);
      } else {
        MatchingReads(reserved, ts, left, op.negated, op.caseless, pid, rest);
      }
    case Listing(_, negated, values) => MemberReads(reserved, ts, left, negated, |values|, pid, rest);
    case Quantify(_, word, _) => QuantifierReads(reserved, ts, left, word, pid, rest);
    case Test(_, negated, what) => IsReads(reserved, ts, left, negated, what, rest);
  }

  // ----- Text search, and the filters PostgreSQL does not read as meant -----

  lemma ArgsReadAs(reserved: set<string>, config: Option<string>, query: string, rest: seq<Token>)
    ensures ParseItems(reserved, ArgTokens(config, query) + ([RPar] + rest)) == Done(ArgExprs(config, query), [RPar] + rest)
  {
    var end := [RPar] + rest;
    var last := [Str(query)] + end;
    OperandAlone(reserved, Str(query), Text(query), end);
    assert ParseItems(reserved, last) == Done([Text(query)], end);
    if config.Some? {
      var c := config.value;
      OperandAlone(reserved, Str(c), Text(c), [Comma] + last);
      assert ArgTokens(config, query) + end == [Str(c)] + ([Comma] + last);
      assert ([Comma] + last)[1..] == last;
      assert [Text(c)] + [Text(query)] == ArgExprs(config, query);
    }
  }

  lemma NoPrimary(reserved: set<string>, ts: seq<Token>)
    requires ParsePrimary(reserved, ts) == Fail && !Starts(ts, Word("not"))
    ensures ParseNot(reserved, ts) == Fail
  {
    assert ParseOperators(reserved, ts) == Fail;
    assert ParseMatch(reserved, ts) == Fail;
    assert ParseComparison(reserved, ts) == Fail;
  }

  /** A constant before a dot: reading stops there. */
  lemma StopsAtDot(reserved: set<string>, ts: seq<Token>, e: Expr, rest: seq<Token>)
    requires ParsePrimary(reserved, ts) == Done(e, rest) && !Starts(ts, Word("not")) && Starts(rest, Dot)
    ensures ParseNot(reserved, ts) == Done(e, rest)
  {
    assert ParseOperators(reserved, ts) == Done(e, rest);
    assert ParseMatch(reserved, ts) == Done(e, rest);
    assert ParseComparison(reserved, ts) == Done(e, rest);
  }

  lemma CallReads(reserved: set<string>, left: Expr, config: Option<string>, query: string, rest: seq<Token>)
    requires ServerWords(reserved) && Closes(rest)
    ensures MoreOperators(reserved, left, FilterTail(Search("", config, query), 0, rest)) ==
            Done(Binary("@@", left, Call("to_tsquery", ArgExprs(config, query))), rest)
  {
    var call := [Word("to_tsquery"), LPar] + (ArgTokens(config, query) + ([RPar] + rest));
    CallPrimary(reserved, config, query, rest);
    assert ([Op("@@")] + call)[1..] == call;
  }

  lemma CallPrimary(reserved: set<string>, config: Option<string>, query: string, rest: seq<Token>)
    requires ServerWords(reserved)
    ensures ParsePrimary(reserved, [Word("to_tsquery"), LPar] + (ArgTokens(config, query) + ([RPar] + rest))) ==
            Done(Call("to_tsquery", ArgExprs(config, query)), rest)
  {
    hide ParseItems, ArgTokens, ArgExprs;
    var args := ArgTokens(config, query) + ([RPar] + rest);
    var call := [Word("to_tsquery"), LPar] + args;
    ArgsReadAs(reserved, config, query, rest);
    assert call[2..] == args && ([RPar] + rest)[1..] == rest;
    assert call[1..] == [LPar] + args;
  }

  function BareDots(path: seq<string>): seq<Token> {
    if path == [] then [] else [Dot, Word(Lower(path[0]))] + BareDots(path[1..])
  }

  lemma {:induction false} BareTokensAre(path: seq<string>)
    requires path != []
    ensures BareTokens(path) == [Word(Lower(path[0]))] + BareDots(path[1..])
  {
    hide Lower;
    if |path| > 1 {
      BareTokensAre(path[1..]);
    }
  }

  lemma {:induction false} BareReadsAs(before: seq<string>, path: seq<string>, rest: seq<Token>)
    requires !Starts(rest, Dot)
    ensures ColumnPath(before, BareDots(path) + rest) == Done(Column(before + LowerPath(path)), rest)
    decreases path
  {
    if path == [] {
      assert [] + rest == rest && before + LowerPath(path) == before;
    } else {
      var name := Lower(path[0]);
      BareReadsAs(before + [name], path[1..], rest);
      Associative([Dot, Word(name)], BareDots(path[1..]), rest);
      ColumnStep(before, name, Word(name), BareDots(path[1..]) + rest);
      assert before + [name] + LowerPath(path[1..]) == before + LowerPath(path);
    }
  }

  /** No condition is read, or one that stops at a dot. */
  predicate NotRead(r: Parsed<Expr>) { r.Fail? || Starts(r.rest, Dot) }

  /** A bare name that is not reserved is read as a column, folded to lower case. */
  lemma BareLeft(reserved: set<string>, path: seq<string>, tail: seq<Token>)
    requires ServerWords(reserved) && path != [] && Lower(path[0]) !in reserved && tail != [] && tail[0].Op?
    ensures HasLeft(reserved, BareTokens(path) + tail, Column(LowerPath(path)), tail)
  {
    var w := Lower(path[0]);
    var ts := BareTokens(path) + tail;
    var more := BareDots(path[1..]) + tail;
    BareTokensAre(path);
    Associative([Word(w)], BareDots(path[1..]), tail);
    assert ts[1..] == more && !Starts(more, LPar);
    BareReadsAs([w], path[1..], tail);
    assert [w] + LowerPath(path[1..]) == LowerPath(path);
  }

  /** A bare name that begins with a reserved word is not read, unless it is a constant. */
  lemma ReservedReads(reserved: set<string>, path: seq<string>, config: Option<string>, query: string, rest: seq<Token>)
    requires ServerWords(reserved) && path != [] && Lower(path[0]) in reserved && Closes(rest)
    ensures var w := Lower(path[0]);
      var r := ParseNot(reserved, BareTokens(path) + FilterTail(Search("", config, query), 0, rest));
      if |path| == 1 && (w == "true" || w == "false")
      then r == Done(Binary("@@", Constant(w == "true"), Call("to_tsquery", ArgExprs(config, query))), rest)
      else NotRead(r)
  {
    hide ParseNot, ParsePrimary, FilterTail, BareTokens, BareDots;
    var w := Lower(path[0]);
    var tail := FilterTail(Search("", config, query), 0, rest);
    var ts := BareTokens(path) + tail;
    assert tail != [] && tail[0] == Op("@@") by { TailStarts(config, query, rest); }
    BareSplit(path, tail);
    if w == "not" {
      NotReads(reserved, ts);
    } else if w == "true" || w == "false" {
      ReservedPrimary(reserved, ts, w);
      ConstantReads(reserved, ts, Constant(w == "true"), ts[1..], config, query, rest);
    } else {
      ReservedPrimary(reserved, ts, w);
      NoPrimary(reserved, ts);
    }
  }

  lemma TailStarts(config: Option<string>, query: string, rest: seq<Token>)
    ensures var tail := FilterTail(Search("", config, query), 0, rest); tail != [] && tail[0] == Op("@@")
  {
  }

  /** A bare path is its first word, then either a dot or what follows the path. */
  lemma BareSplit(path: seq<string>, tail: seq<Token>)
    requires path != [] && tail != []
    ensures var ts := BareTokens(path) + tail;
      && ts[0] == Word(Lower(path[0])) && ts[1..] != []
      && (if |path| == 1 then ts[1..] == tail else ts[1] == Dot)
  {
    BareTokensAre(path);
    Associative([Word(Lower(path[0]))], BareDots(path[1..]), tail);
    assert |path| == 1 ==> BareDots(path[1..]) + tail == tail;
  }

  lemma NotReads(reserved: set<string>, ts: seq<Token>)
    requires |ts| > 1 && ts[0] == Word("not") && (ts[1] == Dot || ts[1] == Op("@@"))
    ensures ParseNot(reserved, ts) == Fail
  {
    assert ts[1..][0] == ts[1];
    assert ParsePrimary(reserved, ts[1..]) == Fail;
    NoPrimary(reserved, ts[1..]);
  }

  lemma ReservedPrimary(reserved: set<string>, ts: seq<Token>, w: string)
    requires ts != [] && ts[0] == Word(w) && w in reserved
    ensures ParsePrimary(reserved, ts) == if w == "true" || w == "false" then Done(Constant(w == "true"), ts[1..]) else Fail
  {
  }

  lemma ConstantReads(reserved: set<string>, ts: seq<Token>, c: Expr, more: seq<Token>, config: Option<string>,
                      query: string, rest: seq<Token>)
    requires ServerWords(reserved) && Closes(rest)
    requires c.Constant? && ts != [] && ts[0] != Word("not") && ParsePrimary(reserved, ts) == Done(c, more)
    requires Starts(more, Dot) || more == FilterTail(Search("", config, query), 0, rest)
    ensures if Starts(more, Dot) then NotRead(ParseNot(reserved, ts))
            else ParseNot(reserved, ts) == Done(Binary("@@", c, Call("to_tsquery", ArgExprs(config, query))), rest)
  {
    hide ParsePrimary, FilterTail;
    if Starts(more, Dot) {
      StopsAtDot(reserved, ts, c, more);
    } else {
      CallReads(reserved, c, config, query, rest);
      OperatorsRead(reserved, ts, Binary("@@", c, Call("to_tsquery", ArgExprs(config, query))), rest);
    }
  }

  /** What the reading of a filter comes to. */
  predicate Outcome(r: Parsed<Expr>, e: Expr, rest: seq<Token>, parses: bool) {
    if parses then r == Done(e, rest) else NotRead(r)
  }

  lemma SearchReadsAs(reserved: set<string>, f: Filter, pid: nat, rest: seq<Token>)
    requires f.Search? && ServerWords(reserved) && Closes(rest)
    ensures Outcome(ParseNot(reserved, BareTokens(Path(f.field)) + FilterTail(f, pid, rest)), ReadExpr(f, pid, reserved), rest,
                    Parsable(f, reserved))
  {
    var path := Path(f.field);
    var tail := FilterTail(f, pid, rest);
    if Lower(path[0]) in reserved {
      ReservedReads(reserved, path, f.config, f.query, rest);
    } else {
      BareLeft(reserved, path, tail);
      CallReads(reserved, Column(LowerPath(path)), f.config, f.query, rest);
      OperatorsRead(reserved, BareTokens(path) + tail, SearchExpr(LowerPath(path), f.config, f.query), rest);
    }
  }

  function FilterStart(f: Filter): seq<Token> {
    if f.Search? then BareTokens(Path(f.field)) else LeftTokens(f.left)
  }

  /** What every filter is read as, wherever it stands. */
  lemma FilterReadsAs(reserved: set<string>, f: Filter, pid: nat, rest: seq<Token>)
    requires WellFormed(f) && ServerWords(reserved) && Closes(rest)
    ensures Outcome(ParseNot(reserved, FilterStart(f) + FilterTail(f, pid, rest)), ReadExpr(f, pid, reserved), rest,
                    Parsable(f, reserved))
  {
    if f.Search? {
      SearchReadsAs(reserved, f, pid, rest);
    } else if LeftValid(f.left) {
      FilterReads(reserved, f, pid, rest);
    } else {
      var tail := FilterTail(f, pid, rest);
      assert FilterStart(f) + tail == tail;
      NoPrimary(reserved, tail);
    }
  }

  /** Every filter is read as meant exactly when it is well printed. */
  lemma FilterReadsIff(reserved: set<string>, f: Filter, pid: nat, rest: seq<Token>)
    requires WellFormed(f) && ServerWords(reserved) && Closes(rest)
    ensures ParseNot(reserved, FilterStart(f) + FilterTail(f, pid, rest)) == Done(FilterExpr(f, pid), rest) <==>
            WellPrinted(f, reserved)
  {
    hide ParseNot, FilterStart, FilterTail, WellPrinted, Parsable, ReadExpr, FilterExpr;
    FilterReadsAs(reserved, f, pid, rest);
    WellPrintedIff(f, pid, reserved);
  }
}
