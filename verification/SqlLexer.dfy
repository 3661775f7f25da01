/** The part of PostgreSQL's lexical rules (manual section 4.1) that the generated text
    uses: delimited and bare identifiers, string constants with standard conforming
    strings, numbers, positional parameters, operators and punctuation. Comments are
    not part of this model. */
module SqlLexer {
  import opened Text

  datatype Token =
    | Quoted(name: string)    // "name"
    | Word(word: string)      // key word or bare identifier, folded to lower case
    | Str(text: string)       // 'text'
    | Param(id: nat)          // $id
    | Num(value: nat)
    | Op(symbol: string)
    | LPar | RPar | Comma | Dot

  datatype CharKind = Digits | WordChars | OpChars

  predicate In(c: char, kind: CharKind) {
    match kind
    case Digits => IsDigit(c)
    case WordChars => IsLower(c) || IsUpper(c) || IsDigit(c) || c == '_' || c == '$'
    case OpChars =>
      || c == '+' || c == '-' || c == '*' || c == '/' || c == '<' || c == '>' || c == '=' || c == '~' || c == '!'
      || c == '@' || c == '#' || c == '%' || c == '^' || c == '&' || c == '|' || c == '`' || c == '?'
  }

  predicate StartsWord(c: char) { IsLower(c) || IsUpper(c) || c == '_' }

  /** Length of the longest prefix of `s` made of characters of `kind`. */
  function Run(s: string, kind: CharKind): (n: nat)
    ensures n <= |s| && forall i :: 0 <= i < n ==> In(s[i], kind)
    ensures n < |s| ==> !In(s[n], kind)
  {
    if s != "" && In(s[0], kind) then 1 + Run(s[1..], kind) else 0
  }

  /** What follows an opening `quote`: the content, with doubled quotes undone, and the
      text after the closing quote. */
  function Delimited(s: string, quote: char): (r: Option<(string, string)>)
    ensures r.Some? ==> |r.value.1| < |s|
    decreases |s|
  {
    if s == "" then None
    else if s[0] == quote then
      if |s| > 1 && s[1] == quote then
        match Delimited(s[2..], quote)
        case None => None
        case Some(r) => Some(([quote] + r.0, r.1))
      else Some(("", s[1..]))
    else
      match Delimited(s[1..], quote)
      case None => None
      case Some(r) => Some(([s[0]] + r.0, r.1))
  }

  function Prepend(t: Token, rest: Option<seq<Token>>): Option<seq<Token>> {
    match rest
    case None => None
    case Some(ts) => Some([t] + ts)
  }

  function Lex(s: string): Option<seq<Token>>
    decreases |s|
  {
    if s == "" then Some([])
    else
      var c := s[0];
      if IsSpace(c) then Lex(s[1..])
      else if c == '"' then
        match Delimited(s[1..], '"')
        case None => None
        case Some(r) => Prepend(Quoted(r.0), Lex(r.1))
      else if c == '\'' then
        match Delimited(s[1..], '\'')
        case None => None
        case Some(r) => Prepend(Str(r.0), Lex(r.1))
      else if c == '$' then
        var n := Run(s[1..], Digits);
        if n == 0 then None else Prepend(Param(DigitsValue(s[1..1 + n])), Lex(s[1 + n..]))
      else if IsDigit(c) then
        var n := Run(s, Digits);
        Prepend(Num(DigitsValue(s[..n])), Lex(s[n..]))
      else if StartsWord(c) then
        var n := Run(s, WordChars);
        Prepend(Word(Lower(s[..n])), Lex(s[n..]))
      else if c == '(' then Prepend(LPar, Lex(s[1..]))
      else if c == ')' then Prepend(RPar, Lex(s[1..]))
      else if c == ',' then Prepend(Comma, Lex(s[1..]))
      else if c == '.' then Prepend(Dot, Lex(s[1..]))
      else if In(c, OpChars) then
        var n := Run(s, OpChars);
        Prepend(Op(s[..n]), Lex(s[n..]))
      else None
  }

  // ----- Printed text as a tree of pieces, each a space or the spelling of one token -----

  datatype Doc = Empty | Gap | Lexeme(text: string, token: Token) | Cat(left: Doc, right: Doc)

  /** A string constant. */
  function StrText(text: string): string { "'" + ReplaceChar(text, '\'', "''") + "'" }

  /** The text spells the token. */
  predicate Faithful(text: string, token: Token) {
    match token
    case Quoted(s) => text == "\"" + ReplaceChar(s, '"', "\"\"") + "\""
    case Str(s) => text == StrText(s)
    case Param(n) => text == "$" + Decimal(n)
    case Num(n) => text == Decimal(n)
    case Word(w) => text != "" && StartsWord(text[0]) && (forall c :: c in text ==> In(c, WordChars)) && w == Lower(text)
    case Op(o) => text == o && o != "" && forall c :: c in o ==> In(c, OpChars)
    case LPar => text == "("
    case RPar => text == ")"
    case Comma => text == ","
    case Dot => text == "."
  }

  /** A token of this kind cannot be continued by `rest`. */
  predicate Stops(t: Token, rest: string) {
    rest == "" ||
    match t
    case Quoted(_) => rest[0] != '"'
    case Str(_) => rest[0] != '\''
    case Param(_) => !IsDigit(rest[0])
    case Num(_) => !IsDigit(rest[0])
    case Word(_) => !In(rest[0], WordChars)
    case Op(_) => !In(rest[0], OpChars)
    case _ => true
  }

  function Render(d: Doc): string {
    match d
    case Empty => ""
    case Gap => " "
    case Lexeme(text, _) => text
    case Cat(a, b) => Render(a) + Render(b)
  }

  function Tokens(d: Doc): seq<Token> {
    match d
    case Lexeme(_, t) => [t]
    case Cat(a, b) => Tokens(a) + Tokens(b)
    case _ => []
  }

  /** The first and the last piece; `Empty` if there is none. */
  function First(d: Doc): (r: Doc)
    ensures !r.Cat?
  {
    match d
    case Cat(a, b) => if First(a) == Empty then First(b) else First(a)
    case _ => d
  }

  function Last(d: Doc): (r: Doc)
    ensures !r.Cat?
  {
    match d
    case Cat(a, b) => if Last(b) == Empty then Last(a) else Last(b)
    case _ => d
  }

  predicate CanAbut(p: Doc, q: Doc) {
    p.Lexeme? && q.Lexeme? ==> Stops(p.token, q.text)
  }

  /** Every piece spells its token and no two neighbours run together. */
  predicate Readable(d: Doc) {
    match d
    case Lexeme(text, t) => Faithful(text, t)
    case Cat(a, b) => Readable(a) && Readable(b) && CanAbut(Last(a), First(b))
    case _ => true
  }

  lemma {:induction false} CatFacts(a: Doc, b: Doc)
    ensures Render(Cat(a, b)) == Render(a) + Render(b) && Tokens(Cat(a, b)) == Tokens(a) + Tokens(b)
    ensures First(Cat(a, b)) == if First(a) == Empty then First(b) else First(a)
    ensures Last(Cat(a, b)) == if Last(b) == Empty then Last(a) else Last(b)
    ensures Readable(Cat(a, b)) <==> Readable(a) && Readable(b) && CanAbut(Last(a), First(b))
  {
  }

  lemma {:induction false} LeafFacts(d: Doc)
    requires !d.Cat?
    ensures First(d) == d && Last(d) == d
    ensures Render(d) == (match d case Gap => " " case Lexeme(text, _) => text case _ => "")
    ensures Tokens(d) == (match d case Lexeme(_, t) => [t] case _ => [])
    ensures Readable(d) <==> d.Lexeme? ==> Faithful(d.text, d.token)
  {
  }

  lemma {:induction false} RunExact(text: string, rest: string, kind: CharKind)
    requires forall c :: c in text ==> In(c, kind)
    requires rest == "" || !In(rest[0], kind)
    ensures Run(text + rest, kind) == |text|
  {
    if text == "" {
      assert text + rest == rest;
    } else {
      RunExact(text[1..], rest, kind);
      assert (text + rest)[1..] == text[1..] + rest;
    }
  }

  lemma {:induction false} DelimitedDoubled(content: string, quote: char, rest: string)
    requires rest == "" || rest[0] != quote
    ensures Delimited(ReplaceChar(content, quote, [quote, quote]) + [quote] + rest, quote) == Some((content, rest))
    decreases |content|
  {
    var doubled := ReplaceChar(content, quote, [quote, quote]);
    var s := doubled + [quote] + rest;
    if content == "" {
      assert s == [quote] + rest;
    } else {
      DelimitedDoubled(content[1..], quote, rest);
      var tail := ReplaceChar(content[1..], quote, [quote, quote]) + [quote] + rest;
      assert content == [content[0]] + content[1..];
      if content[0] == quote {
        assert s == [quote, quote] + tail;
        assert s[2..] == tail;
      } else {
        assert s == [content[0]] + tail;
        assert s[1..] == tail;
      }
    }
  }

  lemma LexQuoted(name: string, rest: string)
    requires Stops(Quoted(name), rest)
    ensures Lex("\"" + ReplaceChar(name, '"', "\"\"") + "\"" + rest) == Prepend(Quoted(name), Lex(rest))
  {
    var body := ReplaceChar(name, '"', "\"\"") + ['"'] + rest;
    DelimitedDoubled(name, '"', rest);
    assert "\"" + ReplaceChar(name, '"', "\"\"") + "\"" + rest == ['"'] + body;
    assert (['"'] + body)[1..] == body;
  }

  lemma LexStr(text: string, rest: string)
    requires Stops(Str(text), rest)
    ensures Lex(StrText(text) + rest) == Prepend(Str(text), Lex(rest))
  {
    var body := ReplaceChar(text, '\'', "''") + ['\''] + rest;
    DelimitedDoubled(text, '\'', rest);
    assert "'" + ReplaceChar(text, '\'', "''") + "'" + rest == ['\''] + body;
    assert (['\''] + body)[1..] == body;
  }

  lemma LexParam(n: nat, rest: string)
    requires Stops(Param(n), rest)
    ensures Lex("$" + Decimal(n) + rest) == Prepend(Param(n), Lex(rest))
  {
    var digits := Decimal(n);
    var s := "$" + digits + rest;
    RunExact(digits, rest, Digits);
    DecimalValue(n);
    assert s[0] == '$' && s[1..] == digits + rest;
    assert s[1..1 + |digits|] == digits && s[1 + |digits|..] == rest;
  }

  lemma LexNum(n: nat, rest: string)
    requires Stops(Num(n), rest)
    ensures Lex(Decimal(n) + rest) == Prepend(Num(n), Lex(rest))
  {
    var digits := Decimal(n);
    var s := digits + rest;
    RunExact(digits, rest, Digits);
    DecimalValue(n);
    assert s[0] in digits;
    assert s[..|digits|] == digits && s[|digits|..] == rest;
  }

  lemma LexWord(text: string, rest: string)
    requires text != "" && StartsWord(text[0]) && forall c :: c in text ==> In(c, WordChars)
    requires Stops(Word(Lower(text)), rest)
    ensures Lex(text + rest) == Prepend(Word(Lower(text)), Lex(rest))
  {
    var s := text + rest;
    RunExact(text, rest, WordChars);
    assert s[..|text|] == text && s[|text|..] == rest;
  }

  lemma LexOp(symbol: string, rest: string)
    requires symbol != "" && forall c :: c in symbol ==> In(c, OpChars)
    requires Stops(Op(symbol), rest)
    ensures Lex(symbol + rest) == Prepend(Op(symbol), Lex(rest))
  {
    hide Run, Delimited, DigitsValue, Lower;
    var s := symbol + rest;
    RunExact(symbol, rest, OpChars);
    assert s[0] == symbol[0] && In(symbol[0], OpChars);
    assert s[..|symbol|] == symbol && s[|symbol|..] == rest;
  }

  lemma LexMark(t: Token, c: char, rest: string)
    requires (t == LPar && c == '(') || (t == RPar && c == ')') || (t == Comma && c == ',') || (t == Dot && c == '.')
    ensures Lex([c] + rest) == Prepend(t, Lex(rest))
  {
    assert ([c] + rest)[1..] == rest;
  }

  /** One spelled token is read back, and reading goes on after it. */
  lemma LexLexeme(text: string, t: Token, rest: string)
    requires Faithful(text, t) && Stops(t, rest)
    ensures Lex(text + rest) == Prepend(t, Lex(rest))
    ensures text != ""
  {
    match t
    case Quoted(name) => LexQuoted(name, rest);
    case Str(content) => LexStr(content, rest);
    case Param(n) => LexParam(n, rest);
    case Num(n) => LexNum(n, rest);
    case Word(w) => LexWord(text, rest);
    case Op(o) => LexOp(o, rest);
    case LPar => LexMark(LPar, '(', rest);
    case RPar => LexMark(RPar, ')', rest);
    case Comma => LexMark(Comma, ',', rest);
    case Dot => LexMark(Dot, '.', rest);
  }

  function PrependAll(ts: seq<Token>, rest: Option<seq<Token>>): Option<seq<Token>> {
    match rest
    case None => None
    case Some(us) => Some(ts + us)
  }

  lemma {:induction false} RenderFirst(d: Doc)
    requires Readable(d)
    ensures First(d) == Empty <==> Render(d) == ""
    ensures First(d).Gap? ==> Render(d) != "" && Render(d)[0] == ' '
    ensures First(d).Lexeme? ==> First(d).text != "" && Render(d) != "" && Render(d)[0] == First(d).text[0]
    ensures First(d) == Empty <==> Last(d) == Empty
    ensures First(d) == Empty ==> Tokens(d) == []
  {
    match d
    case Cat(a, b) =>
      RenderFirst(a);
      RenderFirst(b);
    case Lexeme(text, t) =>
      LexLexeme(text, t, "");
    case _ =>
  }

  /** Readable text lexes to exactly its tokens, and reading goes on after it. */
  lemma {:induction false} LexDoc(d: Doc, rest: string)
    requires Readable(d) && (Last(d).Lexeme? ==> Stops(Last(d).token, rest))
    ensures Lex(Render(d) + rest) == PrependAll(Tokens(d), Lex(rest))
    decreases d, 1
  {
    match d
    case Empty =>
      assert "" + rest == rest;
      PrependNothing(Lex(rest));
    case Gap =>
      assert (" " + rest)[1..] == rest;
      PrependNothing(Lex(rest));
    case Lexeme(text, t) =>
      LexLexeme(text, t, rest);
    case Cat(a, b) =>
      LexCat(a, b, rest);
  }

  lemma PrependNothing(r: Option<seq<Token>>)
    ensures PrependAll([], r) == r
  {
    if r.Some? {
      assert [] + r.value == r.value;
    }
  }

  lemma PrependTwice(ts: seq<Token>, us: seq<Token>, r: Option<seq<Token>>)
    ensures PrependAll(ts, PrependAll(us, r)) == PrependAll(ts + us, r)
  {
    if r.Some? {
      Associative(ts, us, r.value);
    }
  }

  lemma {:induction false} LexCat(a: Doc, b: Doc, rest: string)
    requires Readable(Cat(a, b)) && (Last(Cat(a, b)).Lexeme? ==> Stops(Last(Cat(a, b)).token, rest))
    ensures Lex(Render(a) + Render(b) + rest) == PrependAll(Tokens(a) + Tokens(b), Lex(rest))
    decreases Cat(a, b), 0
  {
    RenderFirst(b);
    if First(b) == Empty {
      assert Render(a) + Render(b) == Render(a) && Tokens(a) + Tokens(b) == Tokens(a);
      LexDoc(a, rest);
    } else {
      var tail := Render(b) + rest;
      assert tail[0] == Render(b)[0];
      LexDoc(b, rest);
      LexDoc(a, tail);
      Associative(Render(a), Render(b), rest);
      PrependTwice(Tokens(a), Tokens(b), Lex(rest));
    }
  }

  lemma LexRender(d: Doc)
    requires Readable(d)
    ensures Lex(Render(d)) == Some(Tokens(d))
  {
    LexDoc(d, "");
    assert Render(d) + "" == Render(d) && Tokens(d) + [] == Tokens(d);
  }
}
