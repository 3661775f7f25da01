/** Conditions as PostgreSQL reads them: a parser with the operator precedence of manual
    section 4.1.6 over the expressions the generated text uses, and their three-valued
    meaning (section 9.1). Conjunctions and disjunctions are kept as lists, since both
    connectives are associative. */
module SqlCondition {
  import opened Text
  import opened SqlLexer

  datatype Expr =
    | Column(path: seq<string>)
    | Text(text: string)                // a string constant
    | Placeholder(id: nat)              // $id
    | Value(value: string)              // a placeholder after binding
    | Constant(holds: bool)             // TRUE, FALSE
    | Call(function_: string, args: seq<Expr>)
    | Binary(op: string, left: Expr, right: Expr)
    | Quantified(op: string, quantifier: string, left: Expr, array_: Expr)
    | Member(negated: bool, left: Expr, items: seq<Expr>)
    | Like(negated: bool, caseless: bool, left: Expr, pattern: Expr)
    | Is(negated: bool, left: Expr, what: string)
    | Not(arg: Expr)
    | And(args_: seq<Expr>)
    | Or(args_: seq<Expr>)

  // ----- Three-valued meaning -----

  datatype Truth = True | False | Unknown

  function Not3(t: Truth): Truth {
    match t case True => False case False => True case Unknown => Unknown
  }

  function And3(a: Truth, b: Truth): Truth {
    if a == False || b == False then False else if a == Unknown || b == Unknown then Unknown else True
  }

  function Or3(a: Truth, b: Truth): Truth {
    if a == True || b == True then True else if a == Unknown || b == Unknown then Unknown else False
  }

  function All3(ts: seq<Truth>): Truth { if ts == [] then True else And3(ts[0], All3(ts[1..])) }
  function Any3(ts: seq<Truth>): Truth { if ts == [] then False else Or3(ts[0], Any3(ts[1..])) }

  function Negate(negated: bool, t: Truth): Truth { if negated then Not3(t) else t }

  /** The truth of a condition on one row, given the truth of the comparisons in it. */
  function Eval(e: Expr, holds: Expr -> Truth): Truth {
    match e
    case And(args) => All3(EvalAll(args, holds))
    case Or(args) => Any3(EvalAll(args, holds))
    case Not(arg) => Not3(Eval(arg, holds))
    case Constant(b) => if b then True else False
    case Member(negated, left, items) =>
      Negate(negated, Any3(seq(|items|, i requires 0 <= i < |items| => holds(Binary("=", left, items[i])))))
    case Like(negated, caseless, left, pattern) => Negate(negated, holds(Like(false, caseless, left, pattern)))
    case Is(negated, left, what) => Negate(negated, holds(Is(false, left, what)))
    case _ => holds(e)
  }

  function EvalAll(es: seq<Expr>, holds: Expr -> Truth): (ts: seq<Truth>)
    ensures |ts| == |es| && forall i :: 0 <= i < |es| ==> ts[i] == Eval(es[i], holds)
  {
    if es == [] then [] else [Eval(es[0], holds)] + EvalAll(es[1..], holds)
  }

  lemma {:induction false} All3Is(ts: seq<Truth>)
    ensures All3(ts) == if False in ts then False else if Unknown in ts then Unknown else True
  {
    if ts != [] {
      All3Is(ts[1..]);
      assert forall t :: t in ts <==> t == ts[0] || t in ts[1..];
    }
  }

  lemma {:induction false} Any3Is(ts: seq<Truth>)
    ensures Any3(ts) == if True in ts then True else if Unknown in ts then Unknown else False
  {
    if ts != [] {
      Any3Is(ts[1..]);
      assert forall t :: t in ts <==> t == ts[0] || t in ts[1..];
    }
  }

  lemma {:induction false} All3Concat(a: seq<Truth>, b: seq<Truth>)
    ensures All3(a + b) == And3(All3(a), All3(b))
  {
    All3Is(a);
    All3Is(b);
    All3Is(a + b);
  }

  // ----- Parser -----

  datatype Parsed<+T> = Fail | Done(value: T, rest: seq<Token>)

  predicate Starts(ts: seq<Token>, t: Token) { ts != [] && ts[0] == t }

  function Conjunction(es: seq<Expr>): Expr { if |es| == 1 then es[0] else And(es) }
  function Disjunction(es: seq<Expr>): Expr { if |es| == 1 then es[0] else Or(es) }

  /** Operators of the comparison level; every other symbol binds tighter. */
  predicate Comparison(op: string) {
    op == "=" || op == "!=" || op == "<>" || op == "<" || op == ">" || op == "<=" || op == ">="
  }

  predicate StartsOperator(ts: seq<Token>) { ts != [] && ts[0].Op? && !Comparison(ts[0].symbol) }
  predicate StartsComparison(ts: seq<Token>) { ts != [] && ts[0].Op? && Comparison(ts[0].symbol) }

  predicate IsQuantifier(t: Token) { t == Word("any") || t == Word("some") || t == Word("all") }

  /** Lowest level: OR. `reserved` is the server's list of reserved key words. */
  function ParseOr(reserved: set<string>, ts: seq<Token>): (r: Parsed<Expr>)
    ensures r.Done? ==> |r.rest| < |ts|
    decreases |ts|, 9
  {
    match ParseOrList(reserved, ts)
    case Fail => Fail
    case Done(es, rest) => Done(Disjunction(es), rest)
  }

  function ParseOrList(reserved: set<string>, ts: seq<Token>): (r: Parsed<seq<Expr>>)
    ensures r.Done? ==> |r.rest| < |ts| && r.value != []
    decreases |ts|, 8
  {
    match ParseAnd(reserved, ts)
    case Fail => Fail
    case Done(e, rest) =>
      if Starts(rest, Word("or")) then
        match ParseOrList(reserved, rest[1..])
        case Fail => Fail
        case Done(es, rest') => Done([e] + es, rest')
      else Done([e], rest)
  }

  function ParseAnd(reserved: set<string>, ts: seq<Token>): (r: Parsed<Expr>)
    ensures r.Done? ==> |r.rest| < |ts|
    decreases |ts|, 7
  {
    match ParseAndList(reserved, ts)
    case Fail => Fail
    case Done(es, rest) => Done(Conjunction(es), rest)
  }

  function ParseAndList(reserved: set<string>, ts: seq<Token>): (r: Parsed<seq<Expr>>)
    ensures r.Done? ==> |r.rest| < |ts| && r.value != []
    decreases |ts|, 6
  {
    match ParseNot(reserved, ts)
    case Fail => Fail
    case Done(e, rest) =>
      if Starts(rest, Word("and")) then
        match ParseAndList(reserved, rest[1..])
        case Fail => Fail
        case Done(es, rest') => Done([e] + es, rest')
      else Done([e], rest)
  }

  function ParseNot(reserved: set<string>, ts: seq<Token>): (r: Parsed<Expr>)
    ensures r.Done? ==> |r.rest| < |ts|
    decreases |ts|, 5
  {
    if Starts(ts, Word("not")) then
      match ParseNot(reserved, ts[1..])
      case Fail => Fail
      case Done(e, rest) => Done(Not(e), rest)
    else
      match ParseComparison(reserved, ts)
      case Fail => Fail
      case Done(e, rest) => IsTests(e, rest)
  }

  /** Postfix IS [NOT] NULL, TRUE, FALSE. */
  function IsTests(e: Expr, ts: seq<Token>): (r: Parsed<Expr>)
    ensures r.Done? ==> |r.rest| <= |ts|
    decreases |ts|
  {
    if !Starts(ts, Word("is")) then Done(e, ts)
    else
      var negated := Starts(ts[1..], Word("not"));
      var after := if negated then ts[2..] else ts[1..];
      if after != [] && (after[0] == Word("null") || after[0] == Word("true") || after[0] == Word("false")) then
        IsTests(Is(negated, e, after[0].word), after[1..])
      else Fail
  }

  /** Comparison operators do not associate. */
  function ParseComparison(reserved: set<string>, ts: seq<Token>): (r: Parsed<Expr>)
    ensures r.Done? ==> |r.rest| < |ts|
    decreases |ts|, 4
  {
    match ParseMatch(reserved, ts)
    case Fail => Fail
    case Done(left, rest) =>
      if !StartsComparison(rest) then Done(left, rest)
      else if |rest| > 2 && IsQuantifier(rest[1]) && rest[2] == LPar then
        match ParseOr(reserved, rest[3..])
        case Fail => Fail
        case Done(array_, rest') =>
          if Starts(rest', RPar) then
            Done(Quantified(rest[0].symbol, rest[1].word, left, array_), rest'[1..])
          else Fail
      else
        match ParseMatch(reserved, rest[1..])
        case Fail => Fail
        case Done(right, rest') => Done(Binary(rest[0].symbol, left, right), rest')
  }

  /** [NOT] IN, LIKE and ILIKE. */
  function ParseMatch(reserved: set<string>, ts: seq<Token>): (r: Parsed<Expr>)
    ensures r.Done? ==> |r.rest| < |ts|
    decreases |ts|, 3
  {
    match ParseOperators(reserved, ts)
    case Fail => Fail
    case Done(left, rest) =>
      var negated := Starts(rest, Word("not"));
      var after := if negated then rest[1..] else rest;
      if Starts(after, Word("in")) && Starts(after[1..], LPar) then
        match ParseItems(reserved, after[2..])
        case Fail => Fail
        case Done(items, rest') =>
          if Starts(rest', RPar) then Done(Member(negated, left, items), rest'[1..]) else Fail
      else if Starts(after, Word("like")) || Starts(after, Word("ilike")) then
        match ParseOperators(reserved, after[1..])
        case Fail => Fail
        case Done(pattern, rest') => Done(Like(negated, after[0].word == "ilike", left, pattern), rest')
      else if negated then Fail
      else Done(left, rest)
  }

  function ParseOperators(reserved: set<string>, ts: seq<Token>): (r: Parsed<Expr>)
    ensures r.Done? ==> |r.rest| < |ts|
    decreases |ts|, 2
  {
    match ParsePrimary(reserved, ts)
    case Fail => Fail
    case Done(e, rest) => MoreOperators(reserved, e, rest)
  }

  /** All other operators, associating to the left. */
  function MoreOperators(reserved: set<string>, left: Expr, ts: seq<Token>): (r: Parsed<Expr>)
    ensures r.Done? ==> |r.rest| <= |ts|
    decreases |ts|, 2
  {
    if !StartsOperator(ts) then Done(left, ts)
    else
      match ParsePrimary(reserved, ts[1..])
      case Fail => Fail
      case Done(right, rest) => MoreOperators(reserved, Binary(ts[0].symbol, left, right), rest)
  }

  function ParsePrimary(reserved: set<string>, ts: seq<Token>): (r: Parsed<Expr>)
    ensures r.Done? ==> |r.rest| < |ts|
    decreases |ts|, 1
  {
    if ts == [] then Fail
    else match ts[0]
      case Quoted(name) => ColumnPath([name], ts[1..])
      case Str(text) => Done(Text(text), ts[1..])
      case Param(id) => Done(Placeholder(id), ts[1..])
      case LPar =>
        (match ParseOr(reserved, ts[1..])
         case Fail => Fail
         case Done(e, rest) => if Starts(rest, RPar) then Done(e, rest[1..]) else Fail)
      case Word(w) =>
        if w == "true" || w == "false" then Done(Constant(w == "true"), ts[1..])
        else if w in reserved then Fail
        else if Starts(ts[1..], LPar) then
          match ParseItems(reserved, ts[2..])
          case Fail => Fail
          case Done(args, rest) => if Starts(rest, RPar) then Done(Call(w, args), rest[1..]) else Fail
        else ColumnPath([w], ts[1..])
      case _ => Fail
  }

  /** The rest of a dotted column path; after a dot any word may stand. */
  function ColumnPath(path: seq<string>, ts: seq<Token>): (r: Parsed<Expr>)
    ensures r.Done? ==> |r.rest| <= |ts|
    decreases |ts|
  {
    if !Starts(ts, Dot) then Done(Column(path), ts)
    else if |ts| > 1 && ts[1].Quoted? then ColumnPath(path + [ts[1].name], ts[2..])
    else if |ts| > 1 && ts[1].Word? then ColumnPath(path + [ts[1].word], ts[2..])
    else Fail
  }

  function ParseItems(reserved: set<string>, ts: seq<Token>): (r: Parsed<seq<Expr>>)
    ensures r.Done? ==> |r.rest| < |ts|
    decreases |ts|, 10
  {
    match ParseOr(reserved, ts)
    case Fail => Fail
    case Done(e, rest) =>
      if Starts(rest, Comma) then
        match ParseItems(reserved, rest[1..])
        case Fail => Fail
        case Done(es, rest') => Done([e] + es, rest')
      else Done([e], rest)
  }

  /** A whole text as one condition. */
  function ParseCondition(reserved: set<string>, text: string): Option<Expr> {
    match Lex(text)
    case None => None
    case Some(ts) =>
      match ParseOr(reserved, ts)
      case Fail => None
      case Done(e, rest) => if rest == [] then Some(e) else None
  }

  /** The condition with `$n` standing for `values[n - initial]`. */
  function Bind(e: Expr, initial: nat, values: seq<string>): Expr {
    match e
    case Placeholder(n) => if initial <= n < initial + |values| then Value(values[n - initial]) else e
    case Call(f, args) => Call(f, BindAll(args, initial, values))
    case Binary(op, l, r) => Binary(op, Bind(l, initial, values), Bind(r, initial, values))
    case Quantified(op, q, l, a) => Quantified(op, q, Bind(l, initial, values), Bind(a, initial, values))
    case Member(negated, l, items) => Member(negated, Bind(l, initial, values), BindAll(items, initial, values))
    case Like(negated, caseless, l, p) => Like(negated, caseless, Bind(l, initial, values), Bind(p, initial, values))
    case Is(negated, l, what) => Is(negated, Bind(l, initial, values), what)
    case Not(arg) => Not(Bind(arg, initial, values))
    case And(args) => And(BindAll(args, initial, values))
    case Or(args) => Or(BindAll(args, initial, values))
    case _ => e
  }

  function BindAll(es: seq<Expr>, initial: nat, values: seq<string>): (r: seq<Expr>)
    ensures |r| == |es| && forall i :: 0 <= i < |es| ==> r[i] == Bind(es[i], initial, values)
  {
    if es == [] then [] else [Bind(es[0], initial, values)] + BindAll(es[1..], initial, values)
  }
}
