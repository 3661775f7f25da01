/** The whole WHERE text, read as PostgreSQL reads it, is the condition the request asked for. */
module WhereReading {
  import opened Text
  import opened SqlLexer
  import opened SqlCondition
  import opened Filter
  import opened FilterTokens
  import opened FilterReading
  import Ident

  /** A printed clause, whether it is read as a condition, and as which. */
  datatype Clause = Clause(doc: Doc, text: string, expr: Expr, parses: bool)

  ghost predicate Parses(reserved: set<string>, c: Clause) {
    forall rest :: Closes(rest) ==> Outcome(ParseNot(reserved, Tokens(c.doc) + rest), c.expr, rest, c.parses)
  }

  ghost predicate ClauseOk(reserved: set<string>, c: Clause) {
    Reads(c.doc, c.text, Tokens(c.doc)) && Parses(reserved, c)
  }

  function FilterClause(reserved: set<string>, f: Filter, pid: nat): Clause {
    Clause(FilterDoc(f, pid), FilterText(f, pid), ReadExpr(f, pid, reserved), Parsable(f, reserved))
  }

  lemma NegatedTokens(negated: bool, word: Doc)
    requires word.Lexeme?
    ensures Tokens(if negated then Cat(Cat(NOT, Gap), word) else word) == Negation(negated) + [word.token]
  {
    CatFacts(Cat(NOT, Gap), word);
    CatFacts(NOT, Gap);
  }

  lemma TestedTokens(negated: bool, w: string)
    ensures Tokens(OperatorDoc(Tested(negated, w))) == [Word("is")] + Negation(negated) + [Word(w)]
  {
    CatFacts(Cat(Cat(IS, Gap), NOT), Gap);
    CatFacts(Cat(IS, Gap), NOT);
    CatFacts(IS, Gap);
    CatFacts(Cat(if negated then Cat(Cat(IS, Gap), NOT) else IS, Gap), UpperDoc(w));
  }

  /** The tokens of an operator, as the reading lemmas split them. */
  lemma OperatorTokens(op: Operator)
    requires Known(op)
    ensures Tokens(OperatorDoc(op)) ==
            match op
            case Relation(s) => [Op(s)]
            case Matching(negated, caseless) => Negation(negated) + [Word(if caseless then "ilike" else "like")]
            case Listed(negated) => Negation(negated) + [Word("in")]
            case Quantifier(w) => [Word(w)]
            case Tested(negated, w) => [Word("is")] + Negation(negated) + [Word(w)]
  {
    hide Known;
    match op
    case Matching(negated, caseless) => NegatedTokens(negated, if caseless then ILIKE else LIKE);
    case Listed(negated) => NegatedTokens(negated, IN);
    case Tested(negated, w) => TestedTokens(negated, w);
    case _ =>
  }

  lemma Split3<T>(a: seq<T>, b: seq<T>, c: seq<T>, rest: seq<T>)
    ensures a + b + c + rest == a + (b + (c + rest))
  {
  }

  lemma Split5<T>(a: seq<T>, b: seq<T>, c: seq<T>, d: seq<T>, e: seq<T>, rest: seq<T>)
    ensures a + b + c + d + e + rest == a + (b + (c + (d + (e + rest))))
  {
  }

  lemma CompareTokens(left: Left, op: Operator, value: string, pid: nat, rest: seq<Token>)
    requires WellFormed(Compare(left, op, value))
    ensures Tokens(FilterDoc(Compare(left, op, value), pid)) + rest ==
            LeftTokens(left) + FilterTail(Compare(left, op, value), pid, rest)
  {
    CompareReads(left, op, value, pid);
    LeftDocTokens(left);
    OperatorTokens(op);
    Split3(LeftTokens(left), Tokens(OperatorDoc(op)), [Param(pid)], rest);
    if op.Matching? {
      Associative(Negation(op.negated), [Word(if op.caseless then "ilike" else "like")], [Param(pid)] + rest);
    }
  }

  lemma ListShape<T>(l: seq<T>, neg: seq<T>, word: seq<T>, open: seq<T>, params: seq<T>, close: seq<T>, rest: seq<T>)
    ensures l + (neg + word) + open + params + close + rest == l + (neg + ((word + open) + (params + (close + rest))))
  {
    Split5(l, neg + word, open, params, close, rest);
    var more := params + (close + rest);
    Associative(neg, word, open + more);
    Associative(word, open, more);
  }

  lemma ListingTokens(left: Left, negated: bool, values: seq<string>, pid: nat, rest: seq<Token>)
    requires WellFormed(Listing(left, negated, values))
    ensures Tokens(FilterDoc(Listing(left, negated, values), pid)) + rest ==
            LeftTokens(left) + FilterTail(Listing(left, negated, values), pid, rest)
  {
    hide Tokens, FilterDoc, LeftDoc, OperatorDoc, ParamTokens, LeftTokens, Negation, FilterText, Readable, Render, Last;
    ListingReads(left, negated, values, pid);
    LeftDocTokens(left);
    OperatorTokens(Listed(negated));
    ListShape(LeftTokens(left), Negation(negated), [Word("in")], [LPar], ParamTokens(pid, |values|), [RPar], rest);
    assert [Word("in")] + [LPar] == [Word("in"), LPar];
  }

  lemma QuantifyShape<T>(l: seq<T>, eq: seq<T>, word: seq<T>, open: seq<T>, param: seq<T>, close: seq<T>, rest: seq<T>)
    ensures l + eq + word + open + param + close + rest == l + ((eq + word + open) + (param + (close + rest)))
  {
    Split5(l + eq, word, open, param, close, rest);
    var more := param + (close + rest);
    Associative(l, eq, word + (open + more));
    Split3(eq, word, open, more);
  }

  lemma QuantifyTokens(left: Left, word: string, elements: seq<string>, pid: nat, rest: seq<Token>)
    requires WellFormed(Quantify(left, word, elements))
    ensures Tokens(FilterDoc(Quantify(left, word, elements), pid)) + rest ==
            LeftTokens(left) + FilterTail(Quantify(left, word, elements), pid, rest)
  {
    hide Tokens, FilterDoc, LeftDoc, LeftTokens, FilterText, Readable, Render, Last;
    QuantifyReads(left, word, elements, pid);
    LeftDocTokens(left);
    QuantifyShape(LeftTokens(left), [Op("=")], [Word(word)], [LPar], [Param(pid)], [RPar], rest);
    assert [Op("=")] + [Word(word)] + [LPar] == [Op("="), Word(word), LPar];
  }

  lemma TestTokens(left: Left, negated: bool, what: string, pid: nat, rest: seq<Token>)
    requires WellFormed(Test(left, negated, what))
    ensures Tokens(FilterDoc(Test(left, negated, what), pid)) + rest ==
            LeftTokens(left) + FilterTail(Test(left, negated, what), pid, rest)
  {
    hide Tokens, FilterDoc, LeftDoc, OperatorDoc, LeftTokens, Negation, FilterText, Readable, Render, Last;
    TestReads(left, negated, what, pid);
    LeftDocTokens(left);
    OperatorTokens(Tested(negated, what));
    Associative(LeftTokens(left), Tokens(OperatorDoc(Tested(negated, what))), rest);
    Split3([Word("is")], Negation(negated), [Word(what)], rest);
  }

  lemma SearchShape<T>(n: seq<T>, op: seq<T>, call: seq<T>, open: seq<T>, args: seq<T>, close: seq<T>, rest: seq<T>)
    ensures n + op + call + open + (args + close) + rest == n + (op + ((call + open) + (args + (close + rest))))
  {
    Split5(n, op, call, open, args + close, rest);
    Associative(args, close, rest);
    Associative(call, open, args + (close + rest));
  }

  lemma SearchTokens(field: string, config: Option<string>, query: string, pid: nat, rest: seq<Token>)
    requires WellFormed(Search(field, config, query))
    ensures Tokens(FilterDoc(Search(field, config, query), pid)) + rest ==
            BareTokens(Ident.Path(field)) + FilterTail(Search(field, config, query), pid, rest)
  {
    hide Tokens, FilterDoc, BareTokens, ArgTokens, FilterText, Readable, Render, Last;
    SearchReads(field, config, query, pid);
    SearchShape(BareTokens(Ident.Path(field)), [Op("@@")], [Word("to_tsquery")], [LPar], ArgTokens(config, query), [RPar], rest);
    assert [Word("to_tsquery")] + [LPar] == [Word("to_tsquery"), LPar];
  }

  lemma FilterTokensAre(f: Filter, pid: nat, rest: seq<Token>)
    requires WellFormed(f)
    ensures Tokens(FilterDoc(f, pid)) + rest == FilterStart(f) + FilterTail(f, pid, rest)
  {
    hide FilterDoc, FilterTail, Tokens, LeftTokens, BareTokens;
    match f
    case Compare(left, op, value) => CompareTokens(left, op, value, pid, rest);
    case Listing(left, negated, values) => ListingTokens(left, negated, values, pid, rest);
    case Quantify(left, word, elements) => QuantifyTokens(left, word, elements, pid, rest);
    case Test(left, negated, what) => TestTokens(left, negated, what, pid, rest);
    case Search(field, config, query) => SearchTokens(field, config, query, pid, rest);
  }

  lemma FilterDocReads(f: Filter, pid: nat)
    requires WellFormed(f)
    ensures Reads(FilterDoc(f, pid), FilterText(f, pid), Tokens(FilterDoc(f, pid)))
  {
    hide FilterDoc, FilterText, Tokens;
    match f
    case Compare(left, op, value) => CompareReads(left, op, value, pid);
    case Listing(left, negated, values) => ListingReads(left, negated, values, pid);
    case Quantify(left, word, elements) => QuantifyReads(left, word, elements, pid);
    case Test(left, negated, what) => TestReads(left, negated, what, pid);
    case Search(field, config, query) => SearchReads(field, config, query, pid);
  }

  lemma FilterClauseOk(reserved: set<string>, f: Filter, pid: nat)
    requires WellFormed(f) && ServerWords(reserved)
    ensures ClauseOk(reserved, FilterClause(reserved, f, pid))
  {
    hide FilterDoc, FilterText, ReadExpr, FilterTail, FilterStart, Parsable, Tokens, ParseNot;
    FilterDocReads(f, pid);
    forall rest | Closes(rest)
      ensures Outcome(ParseNot(reserved, Tokens(FilterDoc(f, pid)) + rest), ReadExpr(f, pid, reserved), rest, Parsable(f, reserved))
    {
      FilterTokensAre(f, pid, rest);
      FilterReadsAs(reserved, f, pid, rest);
    }
  }

  // ----- Clauses joined by a key word -----

  const AND := Lexeme("AND", Word("and"))
  const OR := Lexeme("OR", Word("or"))

  function JoinDoc(cs: seq<Clause>, word: Doc): Doc
    requires cs != []
  {
    if |cs| == 1 then cs[0].doc else Cat(Cat(Cat(Cat(cs[0].doc, Gap), word), Gap), JoinDoc(cs[1..], word))
  }

  function ClauseTexts(cs: seq<Clause>): (r: seq<string>)
    ensures |r| == |cs|
  {
    if cs == [] then [] else [cs[0].text] + ClauseTexts(cs[1..])
  }

  function ClauseExprs(cs: seq<Clause>): (r: seq<Expr>)
    ensures |r| == |cs|
  {
    if cs == [] then [] else [cs[0].expr] + ClauseExprs(cs[1..])
  }

  function JoinTokens(cs: seq<Clause>, word: Token): seq<Token>
    requires cs != []
  {
    if |cs| == 1 then Tokens(cs[0].doc) else Tokens(cs[0].doc) + ([word] + JoinTokens(cs[1..], word))
  }

  predicate AllParse(cs: seq<Clause>) { forall c :: c in cs ==> c.parses }

  /** One clause, a key word, and more. */
  lemma {:induction false} JoinTwo(a: Doc, word: Doc, more: Doc, gapped: string)
    requires Reads(a, Render(a), Tokens(a)) && word.Lexeme? && word.token.Word? && Readable(word)
    requires Reads(more, Render(more), Tokens(more)) && gapped == " " + word.text + " "
    ensures var d := Cat(Cat(Cat(Cat(a, Gap), word), Gap), more);
      Reads(d, Render(a) + gapped + Render(more), Tokens(a) + ([word.token] + Tokens(more)))
  {
    LeafFacts(word);
    Spaced(a, word);
    Spaced(Cat(Cat(a, Gap), word), more);
    Split3(Render(a), " ", word.text, " ");
    assert " " + (word.text + " ") == gapped;
    Associative(Tokens(a), [word.token], Tokens(more));
  }

  lemma {:induction false} JoinDocReads(reserved: set<string>, cs: seq<Clause>, word: Doc, gapped: string)
    requires cs != [] && forall c :: c in cs ==> ClauseOk(reserved, c)
    requires word.Lexeme? && word.token.Word? && Readable(word) && gapped == " " + word.text + " "
    ensures Reads(JoinDoc(cs, word), Join(ClauseTexts(cs), gapped), JoinTokens(cs, word.token))
  {
    hide Readable, Render, Last, First, Tokens;
    assert cs[0] in cs;
    if |cs| > 1 {
      JoinDocReads(reserved, cs[1..], word, gapped);
      JoinTwo(cs[0].doc, word, JoinDoc(cs[1..], word), gapped);
      assert ClauseTexts(cs)[1..] == ClauseTexts(cs[1..]);
    }
  }

  /** A list read from clauses: all the conditions, or nothing, or a stop at a dot. */
  predicate ListOutcome(r: Parsed<seq<Expr>>, es: seq<Expr>, rest: seq<Token>, parses: bool) {
    if parses then r == Done(es, rest) else r.Fail? || Starts(r.rest, Dot)
  }

  lemma AllParseSplit(cs: seq<Clause>)
    requires cs != []
    ensures AllParse(cs) <==> cs[0].parses && AllParse(cs[1..])
  {
    assert cs == [cs[0]] + cs[1..];
  }

  lemma {:induction false} AndListReads(reserved: set<string>, cs: seq<Clause>, rest: seq<Token>)
    requires cs != [] && forall c :: c in cs ==> Parses(reserved, c)
    requires Closes(rest) && !Starts(rest, Word("and"))
    ensures ListOutcome(ParseAndList(reserved, JoinTokens(cs, Word("and")) + rest), ClauseExprs(cs), rest, AllParse(cs))
  {
    hide ParseNot, Tokens;
    var c := cs[0];
    assert c in cs;
    AllParseSplit(cs);
    if |cs| == 1 {
      assert Outcome(ParseNot(reserved, Tokens(c.doc) + rest), c.expr, rest, c.parses);
      assert ClauseExprs(cs) == [c.expr];
    } else {
      var more := JoinTokens(cs[1..], Word("and")) + rest;
      var mid := [Word("and")] + more;
      AndListReads(reserved, cs[1..], rest);
      assert Outcome(ParseNot(reserved, Tokens(c.doc) + mid), c.expr, mid, c.parses);
      assert JoinTokens(cs, Word("and")) + rest == Tokens(c.doc) + mid by {
        Split3(Tokens(c.doc), [Word("and")], JoinTokens(cs[1..], Word("and")), rest);
        Associative(Tokens(c.doc), [Word("and")], JoinTokens(cs[1..], Word("and")));
      }
      assert mid[1..] == more;
    }
  }

  /** A clause alone between the ORs. */
  lemma AndAlone(reserved: set<string>, c: Clause, rest: seq<Token>)
    requires Parses(reserved, c) && Closes(rest) && !Starts(rest, Word("and"))
    ensures Outcome(ParseAnd(reserved, Tokens(c.doc) + rest), c.expr, rest, c.parses)
  {
    hide ParseNot, Tokens;
    assert Outcome(ParseNot(reserved, Tokens(c.doc) + rest), c.expr, rest, c.parses);
  }

  lemma {:induction false} OrListReads(reserved: set<string>, cs: seq<Clause>, rest: seq<Token>)
    requires cs != [] && forall c :: c in cs ==> Parses(reserved, c)
    requires Closes(rest) && !Starts(rest, Word("and")) && !Starts(rest, Word("or"))
    ensures ListOutcome(ParseOrList(reserved, JoinTokens(cs, Word("or")) + rest), ClauseExprs(cs), rest, AllParse(cs))
  {
    hide ParseAnd, Tokens;
    var c := cs[0];
    assert c in cs;
    AllParseSplit(cs);
    if |cs| == 1 {
      AndAlone(reserved, c, rest);
      assert ClauseExprs(cs) == [c.expr];
    } else {
      var more := JoinTokens(cs[1..], Word("or")) + rest;
      var mid := [Word("or")] + more;
      OrListReads(reserved, cs[1..], rest);
      AndAlone(reserved, c, mid);
      assert JoinTokens(cs, Word("or")) + rest == Tokens(c.doc) + mid by {
        Split3(Tokens(c.doc), [Word("or")], JoinTokens(cs[1..], Word("or")), rest);
        Associative(Tokens(c.doc), [Word("or")], JoinTokens(cs[1..], Word("or")));
      }
      assert mid[1..] == more;
    }
  }

  // ----- The parenthesised group -----

  function GroupClause(cs: seq<Clause>): Clause
    requires cs != []
  {
    Clause(Cat(Cat(OPEN, JoinDoc(cs, OR)), CLOSE), "(" + Join(ClauseTexts(cs), " OR ") + ")",
           Disjunction(ClauseExprs(cs)), AllParse(cs))
  }

  lemma {:induction false} Parenthesised(inner: Doc)
    requires Reads(inner, Render(inner), Tokens(inner))
    ensures Reads(Cat(Cat(OPEN, inner), CLOSE), "(" + Render(inner) + ")", [LPar] + Tokens(inner) + [RPar])
  {
    LeafFacts(OPEN);
    LeafFacts(CLOSE);
    CatFacts(OPEN, inner);
    CatFacts(Cat(OPEN, inner), CLOSE);
  }

  lemma DisjunctionInjective(a: seq<Expr>, b: seq<Expr>)
    requires |a| == |b| && a != b && a != []
    ensures Disjunction(a) != Disjunction(b) && Conjunction(a) != Conjunction(b)
  {
    if |a| == 1 {
      assert a == [a[0]] && b == [b[0]];
    }
  }

  lemma GroupParses(reserved: set<string>, cs: seq<Clause>, rest: seq<Token>)
    requires cs != [] && (forall c :: c in cs ==> Parses(reserved, c)) && Closes(rest)
    ensures Outcome(ParseNot(reserved, [LPar] + (JoinTokens(cs, Word("or")) + ([RPar] + rest))),
                    Disjunction(ClauseExprs(cs)), rest, AllParse(cs))
  {
    hide Tokens, ParseOrList;
    var end := [RPar] + rest;
    var inner := JoinTokens(cs, Word("or")) + end;
    var ts := [LPar] + inner;
    OrListReads(reserved, cs, end);
    assert ts[1..] == inner && end[1..] == rest;
    var list := ParseOrList(reserved, inner);
    if AllParse(cs) {
      var e := Disjunction(list.value);
      assert ParseOr(reserved, inner) == Done(e, end);
      assert ParsePrimary(reserved, ts) == Done(e, rest);
      assert ParseOperators(reserved, ts) == Done(e, rest);
      OperatorsRead(reserved, ts, e, rest);
    } else {
      assert ParsePrimary(reserved, ts) == Fail;
      NoPrimary(reserved, ts);
    }
  }

  lemma GroupOk(reserved: set<string>, cs: seq<Clause>)
    requires cs != [] && forall c :: c in cs ==> ClauseOk(reserved, c)
    ensures ClauseOk(reserved, GroupClause(cs))
  {
    hide Tokens, Readable, Render, Last, First, JoinDoc, JoinTokens;
    assert Readable(OR) by { OrReads(); }
    assert " " + "OR" + " " == " OR ";
    JoinDocReads(reserved, cs, OR, " OR ");
    Parenthesised(JoinDoc(cs, OR));
    forall rest | Closes(rest)
      ensures Outcome(ParseNot(reserved, Tokens(GroupClause(cs).doc) + rest), GroupClause(cs).expr, rest, AllParse(cs))
    {
      GroupParses(reserved, cs, rest);
      Split3([LPar], JoinTokens(cs, Word("or")), [RPar], rest);
    }
  }

  lemma {:induction false} OrReads()
    ensures Readable(OR) && Readable(AND)
  {
    assert Lower("OR") == "or" && Lower("AND") == "and";
  }

  /** Clauses joined by AND, as a whole text, are read as the conjunction of what each is read
      as, and not at all if one of them is not. */
  lemma ConditionReads(reserved: set<string>, cs: seq<Clause>)
    requires cs != [] && forall c :: c in cs ==> ClauseOk(reserved, c)
    ensures ParseCondition(reserved, Join(ClauseTexts(cs), " AND ")) ==
            if AllParse(cs) then Some(Conjunction(ClauseExprs(cs))) else None
  {
    hide Tokens, Readable, Render, Last, First, JoinDoc, JoinTokens, ParseAndList;
    var text, ts := Join(ClauseTexts(cs), " AND "), JoinTokens(cs, Word("and"));
    OrReads();
    assert " " + "AND" + " " == " AND ";
    JoinDocReads(reserved, cs, AND, " AND ");
    LexRender(JoinDoc(cs, AND));
    AndListReads(reserved, cs, []);
    assert ts + [] == ts;
    var list := ParseAndList(reserved, ts);
    if list.Done? {
      var e := Conjunction(list.value);
      assert ParseAnd(reserved, ts) == Done(e, list.rest);
      assert ParseOrList(reserved, ts) == Done([e], list.rest);
      assert ParseOr(reserved, ts) == Done(e, list.rest);
    } else {
      assert ParseAnd(reserved, ts) == Fail;
      assert ParseOr(reserved, ts) == Fail;
    }
  }
}
