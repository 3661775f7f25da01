/** The printed form of one filter as a tree of spelled tokens. */
module FilterTokens {
  import opened Text
  import opened Ident
  import opened SqlLexer
  import opened SqlCondition
  import opened Filter

  const NOT := Lexeme("NOT", Word("not"))
  const IS := Lexeme("IS", Word("is"))
  const IN := Lexeme("IN", Word("in"))
  const LIKE := Lexeme("LIKE", Word("like"))
  const ILIKE := Lexeme("ILIKE", Word("ilike"))
  const TO_TSQUERY := Lexeme("to_tsquery", Word("to_tsquery"))
  const OPEN := Lexeme("(", LPar)
  const CLOSE := Lexeme(")", RPar)
  const COMMA := Lexeme(",", Comma)

  function SymbolDoc(symbol: string): Doc { Lexeme(symbol, Op(symbol)) }
  function ParamDoc(pid: nat): Doc { Lexeme("$" + Decimal(pid), Param(pid)) }
  function StrDoc(text: string): Doc { Lexeme(StrText(text), Str(text)) }
  function UpperDoc(word: string): Doc { Lexeme(Upper(word), Word(word)) }
  function NameDoc(name: string): Doc { Lexeme(name, Word(Lower(name))) }

  lemma {:induction false} KeywordsRead()
    ensures Readable(NOT) && Readable(IS) && Readable(IN) && Readable(LIKE) && Readable(ILIKE)
    ensures Readable(OPEN) && Readable(CLOSE) && Readable(COMMA)
  {
    LikesRead();
    assert Lower("NOT") == "not";
    assert Lower("IS") == "is";
    assert Lower("IN") == "in";
  }

  lemma LikesRead()
    ensures Readable(LIKE) && Readable(ILIKE)
  {
    assert Lower("LIKE") == "like";
    assert Lower("ILIKE") == "ilike";
  }

  lemma FunctionReads()
    ensures Readable(TO_TSQUERY)
  {
    assert Lower("to_tsquery") == "to_tsquery";
  }

  lemma UpperReads(word: string)
    requires Known(Quantifier(word)) || Known(Tested(false, word))
    ensures Readable(UpperDoc(word))
  {
    assert Lower(Upper(word)) == word;
  }

  // ----- The printed form as a tree -----

  function LeftDoc(left: Left): Doc {
    match left
    case Field(name) => if IsValid(name) then PathDoc(Path(name)) else Empty
    case JsonField(column, attribute) => Cat(Cat(PathDoc(Path(column)), SymbolDoc("->>")), StrDoc(attribute))
  }

  function OperatorDoc(op: Operator): Doc {
    match op
    case Relation(s) => SymbolDoc(s)
    case Matching(negated, caseless) =>
      var like := if caseless then ILIKE else LIKE;
      if negated then Cat(Cat(NOT, Gap), like) else like
    case Listed(negated) => if negated then Cat(Cat(NOT, Gap), IN) else IN
    case Quantifier(w) => UpperDoc(w)
    case Tested(negated, w) => Cat(Cat(if negated then Cat(Cat(IS, Gap), NOT) else IS, Gap), UpperDoc(w))
  }

  function ParamsDoc(pid: nat, n: nat): Doc
    decreases n
  {
    if n == 0 then Empty
    else if n == 1 then ParamDoc(pid)
    else Cat(Cat(ParamDoc(pid), COMMA), ParamsDoc(pid + 1, n - 1))
  }

  /** A bare dotted name. */
  function BareDoc(path: seq<string>): Doc {
    if path == [] then Empty
    else if |path| == 1 then NameDoc(path[0])
    else Cat(Cat(NameDoc(path[0]), DOT), BareDoc(path[1..]))
  }

  function ArgsDoc(config: Option<string>, query: string): Doc {
    match config
    case None => StrDoc(query)
    case Some(c) => Cat(Cat(Cat(StrDoc(c), COMMA), Gap), StrDoc(query))
  }

  function FilterDoc(f: Filter, pid: nat): Doc {
    match f
    case Compare(left, op, _) => Cat(Cat(Cat(Cat(LeftDoc(left), Gap), OperatorDoc(op)), Gap), ParamDoc(pid))
    case Listing(left, negated, values) =>
      Cat(Cat(Cat(Cat(LeftDoc(left), Gap), OperatorDoc(Listed(negated))), Cat(Gap, OPEN)),
          Cat(ParamsDoc(pid, |values|), CLOSE))
    case Quantify(left, word, _) =>
      Cat(Cat(Cat(Cat(Cat(Cat(LeftDoc(left), Gap), SymbolDoc("=")), Gap), UpperDoc(word)), Cat(Gap, OPEN)),
          Cat(ParamDoc(pid), CLOSE))
    case Test(left, negated, what) => Cat(Cat(LeftDoc(left), Gap), OperatorDoc(Tested(negated, what)))
    case Search(field, config, query) =>
      Cat(Cat(Cat(Cat(Cat(Cat(BareDoc(Path(field)), Gap), SymbolDoc("@@")), Gap), TO_TSQUERY), OPEN),
          Cat(ArgsDoc(config, query), CLOSE))
  }

  predicate LeftValid(left: Left) {
    match left
    case Field(name) => IsValid(name)
    case JsonField(column, attribute) => IsValid(column) && IsValid(attribute)
  }

  /** What compiling a parameter, or adding a scope, can produce. */
  predicate WellFormed(f: Filter) {
    match f
    case Compare(left, op, _) =>
      (op.Relation? || op.Matching?) && Known(op) && (LeftValid(left) || (left.Field? && op == Relation("=")))
    case Listing(left, _, values) => LeftValid(left) && values != []
    case Quantify(left, word, _) => LeftValid(left) && Known(Quantifier(word))
    case Test(left, negated, what) => Known(Tested(negated, what)) && (LeftValid(left) || (left.Field? && !negated))
    case Search(field, config, _) => IsValid(field) && (config.Some? ==> IsValid(config.value))
  }

  lemma BuildWellFormed(left: Left, op: Operator, value: string)
    requires LeftValid(left) && Known(op)
    ensures WellFormed(Build(left, op, value))
  {
  }

  lemma CompileWellFormed(rawKey: string, v: string)
    ensures Compile(rawKey, v).Ok? ==> WellFormed(Compile(rawKey, v).value)
    ensures Compile(rawKey, v).Ok? && !Compile(rawKey, v).value.Search? ==> LeftValid(Compile(rawKey, v).value.left)
  {
    if Compile(rawKey, v).Ok? {
      var text := ReplaceChar(FindOperator(v), '.', "");
      OperatorKnown(if text == "" then "$eq" else text);
      var op, value, keyInfo := OperatorOf(v).value, RemoveOperators(v), Split(rawKey, ":");
      if |keyInfo| == 1 {
        BuildWellFormed(Field(rawKey), op, value);
      } else if keyInfo[1] == "jsonb" {
        var jsonField := Split(keyInfo[0], "->>");
        BuildWellFormed(JsonField(jsonField[0], jsonField[1]), op, value);
      }
    }
  }

  // ----- The tree prints the text -----

  lemma LeftRenders(left: Left)
    requires left.JsonField? ==> LeftValid(left)
    ensures Render(LeftDoc(left)) == LeftText(left) && Readable(LeftDoc(left))
  {
    match left
    case Field(name) =>
      if IsValid(name) {
        PathDocReads(Path(name));
      }
    case JsonField(column, attribute) =>
      PathDocReads(Path(column));
      JsonTail(PathDoc(Path(column)), attribute);
      JsonText(QuotedPath(Path(column)), attribute);
  }

  lemma JsonText(p: string, attribute: string)
    ensures p + "->>" + StrText(attribute) == p + "->>'" + ReplaceChar(attribute, '\'', "''") + "'"
  {
    ArrowText(p, "->>", "'", ReplaceChar(attribute, '\'', "''"));
    assert "->>" + "'" == "->>'";
  }

  lemma {:induction false} JsonTail(p: Doc, attribute: string)
    requires Readable(p)
    ensures var d := Cat(Cat(p, SymbolDoc("->>")), StrDoc(attribute));
      && (Last(p).Lexeme? && Last(p).token.Quoted? ==> Readable(d)) && Last(d) == StrDoc(attribute)
      && Render(d) == Render(p) + "->>" + StrText(attribute)
      && Tokens(d) == Tokens(p) + [Op("->>")] + [Str(attribute)]
  {
    var arrow, str := SymbolDoc("->>"), StrDoc(attribute);
    assert Faithful("->>", Op("->>"));
    LeafFacts(arrow);
    LeafFacts(str);
    CatFacts(p, arrow);
    CatFacts(Cat(p, arrow), str);
  }

  lemma ArrowText(p: string, arrow: string, q: string, s: string)
    ensures p + arrow + (q + s + q) == p + (arrow + q) + s + q
  {
  }

  /** Two words and the space between them. */
  lemma {:induction false} TwoWords(a: Doc, b: Doc)
    requires Readable(a) && Readable(b) && a.Lexeme? && b.Lexeme?
    ensures var d := Cat(Cat(a, Gap), b); Readable(d) && Render(d) == a.text + " " + b.text && Last(d) == b
  {
    LeafFacts(a);
    LeafFacts(b);
    LeafFacts(Gap);
    CatFacts(a, Gap);
    CatFacts(Cat(a, Gap), b);
  }

  lemma {:induction false} TestRenders(negated: bool, w: string)
    requires Known(Tested(negated, w))
    ensures var op := Tested(negated, w);
      Render(OperatorDoc(op)) == OperatorText(op) && Readable(OperatorDoc(op)) && Last(OperatorDoc(op)) == UpperDoc(w)
  {
    hide Render, Readable, Tokens, Last, First, Upper, Lower;
    KeywordsRead();
    UpperReads(w);
    TwoWords(IS, NOT);
    LeafFacts(IS);
    LeafFacts(UpperDoc(w));
    Spaced(if negated then Cat(Cat(IS, Gap), NOT) else IS, UpperDoc(w));
    assert "IS" + " " + "NOT" + " " == "IS NOT " && "IS" + " " == "IS ";
  }

  lemma {:induction false} OperatorRenders(op: Operator)
    requires Known(op)
    ensures Render(OperatorDoc(op)) == OperatorText(op) && Readable(OperatorDoc(op))
    ensures Last(OperatorDoc(op)).Lexeme? && (Last(OperatorDoc(op)).token.Op? || Last(OperatorDoc(op)).token.Word?)
  {
    hide Upper, Lower;
    match op
    case Relation(s) =>
      assert Faithful(s, Op(s));
    case Matching(negated, caseless) =>
      KeywordsRead();
      TwoWords(NOT, if caseless then ILIKE else LIKE);
      assert "NOT" + " " == "NOT ";
    case Listed(negated) =>
      ListedReads(negated);
    case Quantifier(w) =>
      UpperReads(w);
    case Tested(negated, w) =>
      TestRenders(negated, w);
  }

  function ParamTokens(pid: nat, n: nat): (ts: seq<Token>)
    ensures n > 0 ==> ts != [] && ts[0] == Param(pid)
    decreases n
  {
    if n == 0 then [] else if n == 1 then [Param(pid)] else [Param(pid)] + [Comma] + ParamTokens(pid + 1, n - 1)
  }

  lemma {:induction false} ParamComma(pid: nat, rest: Doc)
    requires Readable(rest) && Last(rest).Lexeme?
    ensures var d := Cat(Cat(ParamDoc(pid), COMMA), rest);
      && Readable(d) && Last(d) == Last(rest)
      && Render(d) == "$" + Decimal(pid) + "," + Render(rest) && Tokens(d) == [Param(pid)] + [Comma] + Tokens(rest)
  {
    LeafFacts(ParamDoc(pid));
    LeafFacts(COMMA);
    CatFacts(ParamDoc(pid), COMMA);
    CatFacts(Cat(ParamDoc(pid), COMMA), rest);
  }

  lemma {:induction false} ParamsRead(pid: nat, n: nat)
    requires n > 0
    ensures Render(ParamsDoc(pid, n)) == Join(ParamTexts(pid, n), ",") && Readable(ParamsDoc(pid, n))
    ensures Last(ParamsDoc(pid, n)).Lexeme? && Last(ParamsDoc(pid, n)).token.Param?
    ensures Tokens(ParamsDoc(pid, n)) == ParamTokens(pid, n)
    decreases n
  {
    if n > 1 {
      ParamsRead(pid + 1, n - 1);
      assert ParamTexts(pid, n)[1..] == ParamTexts(pid + 1, n - 1);
      ParamComma(pid, ParamsDoc(pid + 1, n - 1));
    }
  }

  lemma NameReads(name: string)
    requires Segment(name)
    ensures Readable(NameDoc(name)) && Readable(Cat(NameDoc(name), DOT)) && Render(Cat(NameDoc(name), DOT)) == name + "."
    ensures Last(Cat(NameDoc(name), DOT)) == DOT && Tokens(Cat(NameDoc(name), DOT)) == [Word(Lower(name)), Dot]
  {
    assert Faithful(name, Word(Lower(name)));
    LeafFacts(NameDoc(name));
    LeafFacts(DOT);
    CatFacts(NameDoc(name), DOT);
  }

  function BareTokens(path: seq<string>): (ts: seq<Token>)
    ensures path != [] ==> ts != [] && ts[0] == Word(Lower(path[0]))
  {
    if path == [] then []
    else if |path| == 1 then [Word(Lower(path[0]))]
    else [Word(Lower(path[0])), Dot] + BareTokens(path[1..])
  }

  lemma {:induction false} BareReads(path: seq<string>)
    requires path != [] && forall part :: part in path ==> Segment(part)
    ensures Render(BareDoc(path)) == Join(path, ".") && Readable(BareDoc(path))
    ensures Last(BareDoc(path)).Lexeme? && Last(BareDoc(path)).token.Word?
    ensures Tokens(BareDoc(path)) == BareTokens(path)
  {
    NameReads(path[0]);
    if |path| > 1 {
      BareReads(path[1..]);
      CatFacts(Cat(NameDoc(path[0]), DOT), BareDoc(path[1..]));
    }
  }

  /** The tree spells the text in these tokens, and neither a bracket nor a space can continue it. */
  predicate Reads(d: Doc, text: string, tokens: seq<Token>) {
    && Readable(d) && Render(d) == text && Tokens(d) == tokens && Last(d).Lexeme?
    && (Last(d).token.Word? || Last(d).token.Param? || Last(d).token.RPar?)
  }

  lemma {:induction false} WithGap(d: Doc)
    requires Readable(d)
    ensures Readable(Cat(d, Gap)) && Last(Cat(d, Gap)) == Gap
    ensures Render(Cat(d, Gap)) == Render(d) + " " && Tokens(Cat(d, Gap)) == Tokens(d)
  {
    LeafFacts(Gap);
    CatFacts(d, Gap);
  }

  lemma {:induction false} Spaced(l: Doc, o: Doc)
    requires Readable(l) && Readable(o) && Last(o).Lexeme?
    ensures var d := Cat(Cat(l, Gap), o);
      Readable(d) && Last(d) == Last(o) && Render(d) == Render(l) + " " + Render(o) && Tokens(d) == Tokens(l) + Tokens(o)
  {
    WithGap(l);
    CatFacts(Cat(l, Gap), o);
  }

  lemma {:induction false} GapParam(d: Doc, pid: nat)
    requires Readable(d)
    ensures var r := Cat(Cat(d, Gap), ParamDoc(pid));
      Reads(r, Render(d) + " $" + Decimal(pid), Tokens(d) + [Param(pid)])
  {
    LeafFacts(ParamDoc(pid));
    Spaced(d, ParamDoc(pid));
    assert " " + "$" == " $";
    GapText(Render(d), "$", Decimal(pid), " $");
  }

  lemma GapText(a: string, b: string, c: string, gap: string)
    requires gap == " " + b
    ensures a + " " + (b + c) == a + gap + c
  {
  }

  lemma {:induction false} CompareReads(left: Left, op: Operator, value: string, pid: nat)
    requires WellFormed(Compare(left, op, value))
    ensures Reads(FilterDoc(Compare(left, op, value), pid), FilterText(Compare(left, op, value), pid),
                  Tokens(LeftDoc(left)) + Tokens(OperatorDoc(op)) + [Param(pid)])
  {
    LeftRenders(left);
    OperatorRenders(op);
    Spaced(LeftDoc(left), OperatorDoc(op));
    GapParam(Cat(Cat(LeftDoc(left), Gap), OperatorDoc(op)), pid);
  }

  lemma {:induction false} Opened(d: Doc)
    requires Readable(d) && Last(d).Lexeme? && Last(d).token.Word?
    ensures var r := Cat(d, Cat(Gap, OPEN));
      Readable(r) && Last(r) == OPEN && Render(r) == Render(d) + " (" && Tokens(r) == Tokens(d) + [LPar]
  {
    LeafFacts(OPEN);
    LeafFacts(Gap);
    CatFacts(Gap, OPEN);
    CatFacts(d, Cat(Gap, OPEN));
    assert " " + "(" == " (" && [] + [LPar] == [LPar];
  }

  lemma {:induction false} Closed(inner: Doc)
    requires Readable(inner) && Last(inner).Lexeme? && (Last(inner).token.Param? || Last(inner).token.Str?)
    ensures var r := Cat(inner, CLOSE);
      Readable(r) && Last(r) == CLOSE && Render(r) == Render(inner) + ")" && Tokens(r) == Tokens(inner) + [RPar]
  {
    LeafFacts(CLOSE);
    CatFacts(inner, CLOSE);
  }

  /** A list that ends in a closing bracket, after an opening bracket. */
  lemma {:induction false} Enclosed(d: Doc, inner: Doc)
    requires Readable(d) && Last(d) == OPEN && Readable(inner) && Last(inner) == CLOSE
    ensures Reads(Cat(d, inner), Render(d) + Render(inner), Tokens(d) + Tokens(inner))
  {
    CatFacts(d, inner);
  }

  /** A bracketed list after a word. */
  lemma {:induction false} Bracketed(d: Doc, inner: Doc)
    requires Readable(d) && Last(d).Lexeme? && Last(d).token.Word?
    requires Readable(inner) && Last(inner).Lexeme? && (Last(inner).token.Param? || Last(inner).token.Str?)
    ensures var r := Cat(Cat(d, Cat(Gap, OPEN)), Cat(inner, CLOSE));
      Reads(r, Render(d) + " (" + Render(inner) + ")", Tokens(d) + [LPar] + Tokens(inner) + [RPar])
  {
    Opened(d);
    Closed(inner);
    Enclosed(Cat(d, Cat(Gap, OPEN)), Cat(inner, CLOSE));
    Associative(Render(d) + " (", Render(inner), ")");
    Associative(Tokens(d) + [LPar], Tokens(inner), [RPar]);
  }

  lemma {:induction false} ListedReads(negated: bool)
    ensures var o := OperatorDoc(Listed(negated));
      Readable(o) && Last(o) == IN && Render(o) == OperatorText(Listed(negated))
  {
    KeywordsRead();
    TwoWords(NOT, IN);
    assert "NOT" + " " + "IN" == "NOT IN";
  }

  lemma {:induction false} ListingShape(l: Doc, o: Doc, params: Doc)
    requires Readable(l) && Readable(o) && Last(o) == IN
    requires Readable(params) && Last(params).Lexeme? && Last(params).token.Param?
    ensures Reads(Cat(Cat(Cat(Cat(l, Gap), o), Cat(Gap, OPEN)), Cat(params, CLOSE)),
                  Render(l) + " " + Render(o) + " (" + Render(params) + ")",
                  Tokens(l) + Tokens(o) + [LPar] + Tokens(params) + [RPar])
  {
    Spaced(l, o);
    Bracketed(Cat(Cat(l, Gap), o), params);
  }

  lemma {:induction false} ListingReads(left: Left, negated: bool, values: seq<string>, pid: nat)
    requires WellFormed(Listing(left, negated, values))
    ensures Reads(FilterDoc(Listing(left, negated, values), pid), FilterText(Listing(left, negated, values), pid),
                  Tokens(LeftDoc(left)) + Tokens(OperatorDoc(Listed(negated))) + [LPar] + ParamTokens(pid, |values|) + [RPar])
  {
    LeftRenders(left);
    ListedReads(negated);
    ParamsRead(pid, |values|);
    ListingShape(LeftDoc(left), OperatorDoc(Listed(negated)), ParamsDoc(pid, |values|));
  }

  lemma {:induction false} QuantifyHead(l: Doc, word: string)
    requires Readable(l) && Known(Quantifier(word))
    ensures var r := Cat(Cat(Cat(Cat(l, Gap), SymbolDoc("=")), Gap), UpperDoc(word));
      && Readable(r) && Last(r) == UpperDoc(word)
      && Render(r) == Render(l) + " " + "=" + " " + Upper(word) && Tokens(r) == Tokens(l) + [Op("=")] + [Word(word)]
  {
    var eq, w := SymbolDoc("="), UpperDoc(word);
    UpperReads(word);
    assert Faithful("=", Op("="));
    LeafFacts(eq);
    LeafFacts(w);
    Spaced(l, eq);
    Spaced(Cat(Cat(l, Gap), eq), w);
  }

  lemma {:induction false} QuantifyReads(left: Left, word: string, elements: seq<string>, pid: nat)
    requires WellFormed(Quantify(left, word, elements))
    ensures Reads(FilterDoc(Quantify(left, word, elements), pid), FilterText(Quantify(left, word, elements), pid),
                  Tokens(LeftDoc(left)) + [Op("=")] + [Word(word)] + [LPar] + [Param(pid)] + [RPar])
  {
    var l := LeftDoc(left);
    LeftRenders(left);
    QuantifyHead(l, word);
    LeafFacts(ParamDoc(pid));
    Bracketed(Cat(Cat(Cat(Cat(l, Gap), SymbolDoc("=")), Gap), UpperDoc(word)), ParamDoc(pid));
    QuantifyTextIs(LeftText(left), Upper(word), Decimal(pid));
  }

  lemma QuantifyTextIs(l: string, w: string, n: string)
    ensures l + " " + "=" + " " + w + " (" + ("$" + n) + ")" == l + " = " + w + " ($" + n + ")"
  {
    QuantifyText(l, w, n, "=", " ", " (", "$", ")");
    assert " " + "=" + " " == " = " && " (" + "$" == " ($";
  }

  lemma QuantifyText(l: string, w: string, n: string, eq: string, gap: string, open: string, d: string, close: string)
    ensures l + gap + eq + gap + w + open + (d + n) + close == l + (gap + eq + gap) + w + (open + d) + n + close
  {
    assert l + gap + eq + gap == l + (gap + eq + gap);
    Associative(l + gap + eq + gap + w, open, d);
    Associative(l + gap + eq + gap + w + open, d, n);
  }

  lemma {:induction false} TestReads(left: Left, negated: bool, what: string, pid: nat)
    requires WellFormed(Test(left, negated, what))
    ensures Reads(FilterDoc(Test(left, negated, what), pid), FilterText(Test(left, negated, what), pid),
                  Tokens(LeftDoc(left)) + Tokens(OperatorDoc(Tested(negated, what))))
  {
    LeftRenders(left);
    TestRenders(negated, what);
    Spaced(LeftDoc(left), OperatorDoc(Tested(negated, what)));
  }

  function ArgTokens(config: Option<string>, query: string): seq<Token> {
    match config case None => [Str(query)] case Some(c) => [Str(c), Comma, Str(query)]
  }

  function ArgText(config: Option<string>, query: string): string {
    match config
    case None => StrText(query)
    case Some(c) => StrText(c) + "," + " " + StrText(query)
  }

  lemma {:induction false} ArgsRead(config: Option<string>, query: string)
    ensures var d := ArgsDoc(config, query);
      && Readable(d) && Render(d) == ArgText(config, query) && Tokens(d) == ArgTokens(config, query)
      && Last(d) == StrDoc(query)
  {
    LeafFacts(StrDoc(query));
    if config.Some? {
      var c := StrDoc(config.value);
      LeafFacts(c);
      LeafFacts(COMMA);
      CatFacts(c, COMMA);
      Spaced(Cat(c, COMMA), StrDoc(query));
    }
  }

  lemma {:induction false} SearchHead(name: Doc)
    requires Readable(name)
    ensures var r := Cat(Cat(Cat(Cat(Cat(name, Gap), SymbolDoc("@@")), Gap), TO_TSQUERY), OPEN);
      && Readable(r) && Last(r) == OPEN
      && Render(r) == Render(name) + " " + "@@" + " " + "to_tsquery" + "("
      && Tokens(r) == Tokens(name) + [Op("@@")] + [Word("to_tsquery")] + [LPar]
  {
    var sign := SymbolDoc("@@");
    FunctionReads();
    assert Faithful("@@", Op("@@"));
    LeafFacts(sign);
    LeafFacts(TO_TSQUERY);
    LeafFacts(OPEN);
    Spaced(name, sign);
    Spaced(Cat(Cat(name, Gap), sign), TO_TSQUERY);
    CatFacts(Cat(Cat(Cat(Cat(name, Gap), sign), Gap), TO_TSQUERY), OPEN);
  }

  lemma CallText(f: string)
    ensures f + " " + "@@" + " " + "to_tsquery" + "(" == f + " @@ to_tsquery("
  {
    SearchCallText(f, " ", "@@", "to_tsquery", "(");
    assert " " + "@@" + " " + "to_tsquery" + "(" == " @@ to_tsquery(";
  }

  lemma SearchCallText(f: string, gap: string, sign: string, call: string, open: string)
    ensures f + gap + sign + gap + call + open == f + (gap + sign + gap + call + open)
  {
  }

  lemma SearchTextIs(field: string, config: Option<string>, query: string)
    ensures field + " @@ to_tsquery(" + (ArgText(config, query) + ")") == SearchText(field, config, query)
  {
    var q := ReplaceChar(query, '\'', "''");
    assert " @@ to_tsquery(" + "'" == " @@ to_tsquery('" && "'" + ")" == "')";
    match config
    case None =>
      OneArgText(field, " @@ to_tsquery(", "'", q, ")");
    case Some(c) =>
      assert "'" + "," + " " + "'" == "', '";
      TwoArgText(field, " @@ to_tsquery(", "'", ReplaceChar(c, '\'', "''"), ",", " ", q, ")");
  }

  lemma OneArgText(f: string, call: string, q: string, x: string, close: string)
    ensures f + call + (q + x + q + close) == f + (call + q) + x + (q + close)
  {
  }

  lemma TwoArgText(f: string, call: string, q: string, x: string, comma: string, gap: string, y: string, close: string)
    ensures f + call + (q + x + q + comma + gap + (q + y + q) + close) ==
            f + (call + q) + x + (q + comma + gap + q) + y + (q + close)
  {
    var a := q + x + q + comma + gap;
    assert a + (q + y + q) + close == a + q + y + q + close;
    assert a + q == q + x + (q + comma + gap + q);
    assert a + q + y + q + close == q + x + (q + comma + gap + q) + y + (q + close);
    assert f + call + (q + x + (q + comma + gap + q) + y + (q + close)) ==
           f + (call + q) + x + (q + comma + gap + q) + y + (q + close);
  }

  lemma {:induction false} SearchReads(field: string, config: Option<string>, query: string, pid: nat)
    requires WellFormed(Search(field, config, query))
    ensures Reads(FilterDoc(Search(field, config, query), pid), FilterText(Search(field, config, query), pid),
                  BareTokens(Path(field)) + [Op("@@")] + [Word("to_tsquery")] + [LPar] + (ArgTokens(config, query) + [RPar]))
  {
    ValidExactly(field);
    JoinSplit(field, '.');
    BareReads(Path(field));
    ArgsRead(config, query);
    SearchHead(BareDoc(Path(field)));
    Closed(ArgsDoc(config, query));
    Enclosed(Cat(Cat(Cat(Cat(Cat(BareDoc(Path(field)), Gap), SymbolDoc("@@")), Gap), TO_TSQUERY), OPEN),
             Cat(ArgsDoc(config, query), CLOSE));
    CallText(field);
    SearchTextIs(field, config, query);
  }
}
