/** What a request's WHERE clause means: the identity scope, and every plain filter, and one
    disjunction of all `_or` parts, in three-valued logic, on every row. */
module WhereMeaning {
  import opened Text
  import opened SqlCondition
  import opened Filter
  import opened FilterTokens
  import opened FilterReading
  import opened Scope
  import opened Where
  import WhereReading
  import ArrayLiteral
  import Ident

  // ----- Reading -----

  function Exprs(items: seq<Item>, pid: nat, inOr: bool): seq<Expr> {
    if items == [] then []
    else
      (if items[0].inOr == inOr then [FilterExpr(items[0].filter, pid)] else []) +
      Exprs(items[1..], pid + |FilterValues(items[0].filter)|, inOr)
  }

  function Grouped(plain: seq<Expr>, alternatives: seq<Expr>): seq<Expr> {
    plain + if alternatives == [] then [] else [Disjunction(alternatives)]
  }

  /** The condition of the printed text, its values still placeholders. */
  function WhereExpr(items: seq<Item>, pid: nat): Expr {
    Conjunction(Grouped(Exprs(items, pid, false), Exprs(items, pid, true)))
  }

  /** What the filters are read as. */
  function ReadExprs(reserved: set<string>, items: seq<Item>, pid: nat, inOr: bool): seq<Expr> {
    if items == [] then []
    else
      (if items[0].inOr == inOr then [ReadExpr(items[0].filter, pid, reserved)] else []) +
      ReadExprs(reserved, items[1..], pid + |FilterValues(items[0].filter)|, inOr)
  }

  /** The condition the printed text is read as, if it is read at all. */
  function ReadWhere(reserved: set<string>, items: seq<Item>, pid: nat): Expr {
    Conjunction(Grouped(ReadExprs(reserved, items, pid, false), ReadExprs(reserved, items, pid, true)))
  }

  predicate AllParsable(items: seq<Item>, reserved: set<string>) {
    forall item :: item in items ==> Parsable(item.filter, reserved)
  }

  function ItemClauses(reserved: set<string>, items: seq<Item>, pid: nat, inOr: bool): seq<WhereReading.Clause> {
    if items == [] then []
    else
      (if items[0].inOr == inOr then [WhereReading.FilterClause(reserved, items[0].filter, pid)] else []) +
      ItemClauses(reserved, items[1..], pid + |FilterValues(items[0].filter)|, inOr)
  }

  lemma {:induction false} ClausesHead(c: WhereReading.Clause, cs: seq<WhereReading.Clause>)
    ensures WhereReading.ClauseTexts([c] + cs) == [c.text] + WhereReading.ClauseTexts(cs)
    ensures WhereReading.ClauseExprs([c] + cs) == [c.expr] + WhereReading.ClauseExprs(cs)
  {
    assert ([c] + cs)[1..] == cs;
  }

  lemma TextsHead(p: Printed, ps: seq<Printed>, inOr: bool)
    ensures Texts([p] + ps, inOr) == (if p.inOr == inOr then [p.text] else []) + Texts(ps, inOr)
  {
    assert ([p] + ps)[1..] == ps;
  }

  lemma {:induction false} ItemClausesPrint(reserved: set<string>, items: seq<Item>, pid: nat, inOr: bool)
    ensures WhereReading.ClauseTexts(ItemClauses(reserved, items, pid, inOr)) == Texts(Print(items, pid), inOr)
    ensures WhereReading.ClauseExprs(ItemClauses(reserved, items, pid, inOr)) == ReadExprs(reserved, items, pid, inOr)
  {
    hide FilterText, FilterValues, ReadExpr, Parsable, FilterDoc, WhereReading.ClauseTexts, WhereReading.ClauseExprs;
    ClausesNone();
    if items != [] {
      var item, rest := items[0], items[1..];
      var next := pid + |FilterValues(item.filter)|;
      var c, more := WhereReading.FilterClause(reserved, item.filter, pid), ItemClauses(reserved, rest, next, inOr);
      ItemClausesPrint(reserved, rest, next, inOr);
      ClausesHead(c, more);
      TextsHead(PrintItem(item, pid), Print(rest, next), inOr);
      assert Print(items, pid) == [PrintItem(item, pid)] + Print(rest, next);
      assert [] + more == more && [] + ReadExprs(reserved, rest, next, inOr) == ReadExprs(reserved, rest, next, inOr);
    }
  }

  lemma {:induction false} ItemClausesOk(reserved: set<string>, items: seq<Item>, pid: nat, inOr: bool)
    requires ServerWords(reserved) && forall item :: item in items ==> WellFormed(item.filter)
    ensures forall c :: c in ItemClauses(reserved, items, pid, inOr) ==> WhereReading.ClauseOk(reserved, c)
    ensures WhereReading.AllParse(ItemClauses(reserved, items, pid, inOr)) <==>
            forall item :: item in items && item.inOr == inOr ==> Parsable(item.filter, reserved)
  {
    hide FilterText, FilterValues, ReadExpr, WhereReading.ClauseOk, Parsable, WellFormed, FilterDoc;
    if items != [] {
      var item, rest := items[0], items[1..];
      var next := pid + |FilterValues(item.filter)|;
      var more := ItemClauses(reserved, rest, next, inOr);
      var c := WhereReading.FilterClause(reserved, item.filter, pid);
      assert item in items && forall x :: x in items <==> x == item || x in rest;
      WhereReading.FilterClauseOk(reserved, item.filter, pid);
      ItemClausesOk(reserved, rest, next, inOr);
      assert forall x :: x in [c] + more <==> x == c || x in more;
    }
  }

  /** The clauses of a WHERE text: the plain filters and the group. */
  function WhereClauses(reserved: set<string>, items: seq<Item>, pid: nat): seq<WhereReading.Clause> {
    var plain := ItemClauses(reserved, items, pid, false);
    var alternatives := ItemClauses(reserved, items, pid, true);
    plain + if alternatives == [] then [] else [WhereReading.GroupClause(alternatives)]
  }

  lemma WhereClausesOk(reserved: set<string>, items: seq<Item>, pid: nat)
    requires ServerWords(reserved) && items != [] && forall item :: item in items ==> WellFormed(item.filter)
    ensures var cs := WhereClauses(reserved, items, pid);
      && cs != [] && (forall c :: c in cs ==> WhereReading.ClauseOk(reserved, c))
      && Join(WhereReading.ClauseTexts(cs), " AND ") == WhereText(items, pid)
      && WhereReading.ClauseExprs(cs) == Grouped(ReadExprs(reserved, items, pid, false), ReadExprs(reserved, items, pid, true))
      && (WhereReading.AllParse(cs) <==> AllParsable(items, reserved))
  {
    hide Parsable, WellFormed, ItemClauses, ReadExprs, Print, WhereReading.ClauseOk, WhereReading.ClauseTexts,
      WhereReading.ClauseExprs;
    var plain, alternatives := ItemClauses(reserved, items, pid, false), ItemClauses(reserved, items, pid, true);
    ItemClausesPrint(reserved, items, pid, false);
    ItemClausesPrint(reserved, items, pid, true);
    ItemClausesOk(reserved, items, pid, false);
    ItemClausesOk(reserved, items, pid, true);
    NotBothEmpty(reserved, items, pid);
    ClausesNone();
    if alternatives != [] {
      var group := WhereReading.GroupClause(alternatives);
      WhereReading.GroupOk(reserved, alternatives);
      ClausesSnoc(plain, group);
      assert forall c :: c in plain + [group] <==> c in plain || c == group;
    } else {
      assert plain + [] == plain;
      assert Texts(Print(items, pid), false) + [] == Texts(Print(items, pid), false);
      assert ReadExprs(reserved, items, pid, false) + [] == ReadExprs(reserved, items, pid, false);
    }
  }

  /** What every printed text is read as: the conjunction of what the plain filters are read as
      and one disjunction of what the alternatives are read as; nothing if one is not read. */
  lemma WhereReadsAs(reserved: set<string>, items: seq<Item>, pid: nat)
    requires ServerWords(reserved) && items != [] && forall item :: item in items ==> WellFormed(item.filter)
    ensures ParseCondition(reserved, WhereText(items, pid)) ==
            if AllParsable(items, reserved) then Some(ReadWhere(reserved, items, pid)) else None
  {
    hide Parsable, WellFormed, WhereClauses, ReadExprs, ParseCondition, WhereText, WhereReading.ClauseOk,
      WhereReading.ClauseTexts, WhereReading.ClauseExprs, WhereReading.AllParse;
    WhereClausesOk(reserved, items, pid);
    WhereReading.ConditionReads(reserved, WhereClauses(reserved, items, pid));
  }

  /** The filters are read as they are meant exactly when each is well printed. */
  lemma {:induction false} ExprsReadIff(reserved: set<string>, items: seq<Item>, pid: nat, inOr: bool)
    requires ServerWords(reserved)
    requires forall item :: item in items && item.inOr == inOr ==> Parsable(item.filter, reserved)
    ensures |ReadExprs(reserved, items, pid, inOr)| == |Exprs(items, pid, inOr)|
    ensures ReadExprs(reserved, items, pid, inOr) == Exprs(items, pid, inOr) <==>
            forall item :: item in items && item.inOr == inOr ==> WellPrinted(item.filter, reserved)
  {
    hide Parsable, WellPrinted, ReadExpr, FilterExpr, FilterValues;
    if items != [] {
      var item, rest := items[0], items[1..];
      var next := pid + |FilterValues(item.filter)|;
      assert forall x :: x in items <==> x == item || x in rest;
      ExprsReadIff(reserved, rest, next, inOr);
      WellPrintedIff(item.filter, pid, reserved);
      var r, e := ReadExprs(reserved, rest, next, inOr), Exprs(rest, next, inOr);
      if item.inOr == inOr {
        HeadsEqual(ReadExpr(item.filter, pid, reserved), r, FilterExpr(item.filter, pid), e);
      } else {
        assert [] + r == r && [] + e == e;
      }
    }
  }

  lemma HeadsEqual(x: Expr, xs: seq<Expr>, y: Expr, ys: seq<Expr>)
    ensures [x] + xs == [y] + ys <==> x == y && xs == ys
  {
    assert ([x] + xs)[0] == x && ([y] + ys)[0] == y && ([x] + xs)[1..] == xs && ([y] + ys)[1..] == ys;
  }

  lemma GroupedInjective(a: seq<Expr>, b: seq<Expr>, c: seq<Expr>, d: seq<Expr>)
    requires |a| == |c| && |b| == |d|
    ensures Grouped(a, b) == Grouped(c, d) <==> a == c && b == d
  {
    assert Grouped(a, b)[..|a|] == a && Grouped(c, d)[..|c|] == c;
    if b != [] {
      assert Grouped(a, b)[|a|] == Disjunction(b) && Grouped(c, d)[|a|] == Disjunction(d);
      if b != d {
        WhereReading.DisjunctionInjective(b, d);
      }
    }
  }

  /** The printed text is read as the intended condition, with SQL's precedence, exactly when
      every clause is well printed. */
  lemma WhereReadsIff(reserved: set<string>, items: seq<Item>, pid: nat)
    requires ServerWords(reserved) && items != [] && forall item :: item in items ==> WellFormed(item.filter)
    ensures ParseCondition(reserved, WhereText(items, pid)) == Some(WhereExpr(items, pid)) <==>
            forall item :: item in items ==> WellPrinted(item.filter, reserved)
  {
    hide WellPrinted, Parsable, WellFormed, Exprs, ReadExprs, ParseCondition, WhereText, Grouped;
    WhereReadsAs(reserved, items, pid);
    GroupedReadIff(reserved, items, pid);
    if AllParsable(items, reserved) {
      var r := Grouped(ReadExprs(reserved, items, pid, false), ReadExprs(reserved, items, pid, true));
      var e := Grouped(Exprs(items, pid, false), Exprs(items, pid, true));
      if r != e {
        WhereReading.DisjunctionInjective(r, e);
      }
    }
  }

  /** The whole list of clauses is read as it is meant exactly when each filter is well printed. */
  lemma GroupedReadIff(reserved: set<string>, items: seq<Item>, pid: nat)
    requires ServerWords(reserved) && items != []
    ensures (forall item :: item in items ==> WellPrinted(item.filter, reserved)) ==> AllParsable(items, reserved)
    ensures AllParsable(items, reserved) ==>
              var r := Grouped(ReadExprs(reserved, items, pid, false), ReadExprs(reserved, items, pid, true));
              var e := Grouped(Exprs(items, pid, false), Exprs(items, pid, true));
                && |r| == |e| && r != [] && (r == e <==> forall item :: item in items ==> WellPrinted(item.filter, reserved))
  {
    hide WellPrinted, Parsable, Exprs, ReadExprs, ReadExpr, FilterExpr;
    forall item | item in items
      ensures WellPrinted(item.filter, reserved) ==> Parsable(item.filter, reserved)
    {
      WellPrintedIff(item.filter, pid, reserved);
    }
    if AllParsable(items, reserved) {
      ExprsReadIff(reserved, items, pid, false);
      ExprsReadIff(reserved, items, pid, true);
      SomeExpr(items, pid);
      GroupedInjective(ReadExprs(reserved, items, pid, false), ReadExprs(reserved, items, pid, true),
                       Exprs(items, pid, false), Exprs(items, pid, true));
    }
  }

  lemma ClausesNone()
    ensures WhereReading.ClauseTexts([]) == [] && WhereReading.ClauseExprs([]) == []
  {
  }

  lemma {:induction false} ClausesSnoc(cs: seq<WhereReading.Clause>, c: WhereReading.Clause)
    ensures WhereReading.ClauseTexts(cs + [c]) == WhereReading.ClauseTexts(cs) + [c.text]
    ensures WhereReading.ClauseExprs(cs + [c]) == WhereReading.ClauseExprs(cs) + [c.expr]
  {
    if cs == [] {
      ClausesHead(c, []);
      assert [] + [c] == [c] + [] == [c];
    } else {
      ClausesSnoc(cs[1..], c);
      assert cs == [cs[0]] + cs[1..] && cs + [c] == [cs[0]] + (cs[1..] + [c]);
      ClausesHead(cs[0], cs[1..]);
      ClausesHead(cs[0], cs[1..] + [c]);
    }
  }

  lemma NotBothEmpty(reserved: set<string>, items: seq<Item>, pid: nat)
    requires items != []
    ensures ItemClauses(reserved, items, pid, false) != [] || ItemClauses(reserved, items, pid, true) != []
  {
  }

  // ----- Binding the values -----

  function Meanings(items: seq<Item>, inOr: bool): seq<Expr> {
    if items == [] then []
    else (if items[0].inOr == inOr then [Meaning(items[0].filter)] else []) + Meanings(items[1..], inOr)
  }

  function ReadMeanings(reserved: set<string>, items: seq<Item>, inOr: bool): seq<Expr> {
    if items == [] then []
    else
      (if items[0].inOr == inOr then [ReadMeaning(items[0].filter, reserved)] else []) +
      ReadMeanings(reserved, items[1..], inOr)
  }

  /** The condition a request asks for. */
  function IntendedWhere(items: seq<Item>): Expr {
    Conjunction(Grouped(Meanings(items, false), Meanings(items, true)))
  }

  /** The values of one filter stand at its numbers. */
  predicate Stands(vs: seq<string>, pid: nat, initial: nat, values: seq<string>) {
    initial <= pid && pid - initial + |vs| <= |values| && values[pid - initial..pid - initial + |vs|] == vs
  }

  lemma BindLeft(left: Left, initial: nat, values: seq<string>)
    ensures Bind(LeftExpr(left), initial, values) == LeftExpr(left)
  {
  }

  lemma BindPlaceholders(pid: nat, vs: seq<string>, initial: nat, values: seq<string>)
    requires Stands(vs, pid, initial, values)
    ensures BindAll(Placeholders(pid, |vs|), initial, values) == ValuesOf(vs)
  {
    hide BindAll;
    var es := Placeholders(pid, |vs|);
    var bound := BindAll(es, initial, values);
    forall i | 0 <= i < |vs|
      ensures bound[i] == Value(vs[i])
    {
      assert values[pid - initial..pid - initial + |vs|][i] == values[pid + i - initial];
      assert es[i] == Placeholder(pid + i) && bound[i] == Bind(es[i], initial, values);
    }
  }

  lemma BindSingle(v: string, pid: nat, initial: nat, values: seq<string>)
    requires Stands([v], pid, initial, values)
    ensures Bind(Placeholder(pid), initial, values) == Value(v)
  {
    assert values[pid - initial..pid - initial + 1][0] == values[pid - initial];
  }

  lemma BindCompare(left: Left, op: Operator, value: string, pid: nat, initial: nat, values: seq<string>)
    requires (op.Relation? || op.Matching?) && Stands([value], pid, initial, values)
    ensures Bind(Comparing(left, op, Placeholder(pid)), initial, values) == Comparing(left, op, Value(value))
  {
    BindLeft(left, initial, values);
    BindSingle(value, pid, initial, values);
  }

  lemma BindSearch(path: seq<string>, config: Option<string>, query: string, initial: nat, values: seq<string>)
    ensures Bind(SearchExpr(path, config, query), initial, values) == SearchExpr(path, config, query)
  {
    assert BindAll(ArgExprs(config, query), initial, values) == ArgExprs(config, query);
  }

  lemma BindListing(left: Left, negated: bool, vals: seq<string>, pid: nat, initial: nat, values: seq<string>)
    requires Stands(vals, pid, initial, values)
    ensures Bind(Member(negated, LeftExpr(left), Placeholders(pid, |vals|)), initial, values) ==
            Member(negated, LeftExpr(left), ValuesOf(vals))
  {
    hide LeftExpr, Placeholders, ValuesOf, Stands;
    BindLeft(left, initial, values);
    BindPlaceholders(pid, vals, initial, values);
  }

  lemma BindQuantify(left: Left, word: string, literal: string, pid: nat, initial: nat, values: seq<string>)
    requires Stands([literal], pid, initial, values)
    ensures Bind(Quantified("=", word, LeftExpr(left), Placeholder(pid)), initial, values) ==
            Quantified("=", word, LeftExpr(left), Value(literal))
  {
    hide LeftExpr, Stands;
    BindLeft(left, initial, values);
    BindSingle(literal, pid, initial, values);
  }

  lemma BindFilter(f: Filter, pid: nat, initial: nat, values: seq<string>)
    requires WellFormed(f) && Stands(FilterValues(f), pid, initial, values)
    ensures Bind(FilterExpr(f, pid), initial, values) == Meaning(f)
  {
    hide Bind, LeftExpr, Placeholders, ValuesOf, Stands, Comparing, SearchExpr, Elements, ArrayLiteral.Literal;
    match f
    case Compare(left, op, value) => BindCompare(left, op, value, pid, initial, values);
    case Listing(left, negated, vals) => BindListing(left, negated, vals, pid, initial, values);
    case Quantify(left, word, elements) =>
      BindQuantify(left, word, ArrayLiteral.Literal(Elements(elements)), pid, initial, values);
    case Test(left, negated, what) => BindTest(left, negated, what, initial, values);
    case Search(field, config, query) => BindSearch(Ident.Path(field), config, query, initial, values);
  }

  lemma BindRead(f: Filter, pid: nat, initial: nat, values: seq<string>, reserved: set<string>)
    requires WellFormed(f) && Stands(FilterValues(f), pid, initial, values)
    ensures Bind(ReadExpr(f, pid, reserved), initial, values) == ReadMeaning(f, reserved)
  {
    if f.Search? {
      assert BindAll(ArgExprs(f.config, f.query), initial, values) == ArgExprs(f.config, f.query);
    } else {
      BindFilter(f, pid, initial, values);
    }
  }

  lemma BindTest(left: Left, negated: bool, what: string, initial: nat, values: seq<string>)
    ensures Bind(Is(negated, LeftExpr(left), what), initial, values) == Is(negated, LeftExpr(left), what)
  {
    BindLeft(left, initial, values);
  }

  lemma {:induction false} BindExprs(items: seq<Item>, pid: nat, inOr: bool, initial: nat, values: seq<string>)
    requires forall item :: item in items ==> WellFormed(item.filter)
    requires Stands(Values(Print(items, pid)), pid, initial, values)
    ensures BindAll(Exprs(items, pid, inOr), initial, values) == Meanings(items, inOr)
  {
    hide FilterText, FilterValues, FilterExpr, Meaning, WellFormed, Bind, BindAll, Stands, Values;
    if items == [] {
      BindNone(initial, values);
    } else {
      var item, rest := items[0], items[1..];
      var vs := FilterValues(item.filter);
      var next := pid + |vs|;
      var more := Values(Print(rest, next));
      assert item in items;
      ValuesHead(PrintItem(item, pid), Print(rest, next));
      assert Values(Print(items, pid)) == vs + more;
      StandsApart(vs, more, pid, initial, values);
      BindFilter(item.filter, pid, initial, values);
      BindHead(FilterExpr(item.filter, pid), Exprs(rest, next, inOr), initial, values);
      assert [] + Exprs(rest, next, inOr) == Exprs(rest, next, inOr);
      BindExprs(rest, next, inOr, initial, values);
      assert [] + Meanings(rest, inOr) == Meanings(rest, inOr);
    }
  }

  lemma {:induction false} BindReadExprs(reserved: set<string>, items: seq<Item>, pid: nat, inOr: bool, initial: nat, values: seq<string>)
    requires forall item :: item in items ==> WellFormed(item.filter)
    requires Stands(Values(Print(items, pid)), pid, initial, values)
    ensures BindAll(ReadExprs(reserved, items, pid, inOr), initial, values) == ReadMeanings(reserved, items, inOr)
  {
    hide FilterText, FilterValues, ReadExpr, ReadMeaning, WellFormed, Bind, BindAll, Stands, Values;
    if items == [] {
      BindNone(initial, values);
    } else {
      var item, rest := items[0], items[1..];
      var vs := FilterValues(item.filter);
      var next := pid + |vs|;
      var more := Values(Print(rest, next));
      assert item in items;
      ValuesHead(PrintItem(item, pid), Print(rest, next));
      assert Values(Print(items, pid)) == vs + more;
      StandsApart(vs, more, pid, initial, values);
      BindRead(item.filter, pid, initial, values, reserved);
      BindHead(ReadExpr(item.filter, pid, reserved), ReadExprs(reserved, rest, next, inOr), initial, values);
      assert [] + ReadExprs(reserved, rest, next, inOr) == ReadExprs(reserved, rest, next, inOr);
      BindReadExprs(reserved, rest, next, inOr, initial, values);
      assert [] + ReadMeanings(reserved, rest, inOr) == ReadMeanings(reserved, rest, inOr);
    }
  }

  lemma BindNone(initial: nat, values: seq<string>)
    ensures BindAll([], initial, values) == []
  {
  }

  lemma BindHead(e: Expr, es: seq<Expr>, initial: nat, values: seq<string>)
    ensures BindAll([e] + es, initial, values) == [Bind(e, initial, values)] + BindAll(es, initial, values)
  {
    hide Bind;
    assert ([e] + es)[1..] == es;
  }

  lemma StandsApart(a: seq<string>, b: seq<string>, pid: nat, initial: nat, values: seq<string>)
    requires Stands(a + b, pid, initial, values)
    ensures Stands(a, pid, initial, values) && Stands(b, pid + |a|, initial, values)
  {
    var from := pid - initial;
    var whole := values[from..from + |a + b|];
    assert whole[..|a|] == a && whole[|a|..] == b;
    assert values[from..from + |a|] == whole[..|a|];
    assert values[from + |a|..from + |a| + |b|] == whole[|a|..];
  }

  lemma BindGrouped(plain: seq<Expr>, alternatives: seq<Expr>, initial: nat, values: seq<string>)
    requires plain != [] || alternatives != []
    ensures Bind(Conjunction(Grouped(plain, alternatives)), initial, values) ==
            Conjunction(Grouped(BindAll(plain, initial, values), BindAll(alternatives, initial, values)))
  {
    var bound := BindAll(alternatives, initial, values);
    assert alternatives != [] ==> Bind(Disjunction(alternatives), initial, values) == Disjunction(bound);
    assert BindAll(Grouped(plain, alternatives), initial, values) == Grouped(BindAll(plain, initial, values), bound);
  }

  /** Binding `$n` to the n-th value, counted from the first number, gives the intended condition. */
  lemma WhereBinds(items: seq<Item>, initial: nat)
    requires items != [] && forall item :: item in items ==> WellFormed(item.filter)
    ensures Bind(WhereExpr(items, initial), initial, WhereValues(items, initial)) == IntendedWhere(items)
  {
    hide WellFormed, Exprs, Meanings, Print, Bind, Conjunction, Grouped;
    var values := WhereValues(items, initial);
    assert values[0..|values|] == values;
    BindExprs(items, initial, false, initial, values);
    BindExprs(items, initial, true, initial, values);
    SomeExpr(items, initial);
    BindGrouped(Exprs(items, initial, false), Exprs(items, initial, true), initial, values);
  }

  lemma SomeExpr(items: seq<Item>, pid: nat)
    requires items != []
    ensures Exprs(items, pid, false) != [] || Exprs(items, pid, true) != []
    ensures Meanings(items, false) != [] || Meanings(items, true) != []
  {
  }

  // ----- Truth on a row -----

  function Truths(items: seq<Item>, inOr: bool, holds: Expr -> Truth): seq<Truth> {
    EvalAll(Meanings(items, inOr), holds)
  }

  /** Every plain filter, and one of the alternatives if there are any. */
  function RequestTruth(items: seq<Item>, holds: Expr -> Truth): Truth {
    And3(All3(Truths(items, false, holds)),
         if Truths(items, true, holds) == [] then True else Any3(Truths(items, true, holds)))
  }

  /** The same of what the filters are read as. */
  function ReadTruths(reserved: set<string>, items: seq<Item>, inOr: bool, holds: Expr -> Truth): seq<Truth> {
    EvalAll(ReadMeanings(reserved, items, inOr), holds)
  }

  function ReadTruth(reserved: set<string>, items: seq<Item>, holds: Expr -> Truth): Truth {
    And3(All3(ReadTruths(reserved, items, false, holds)),
         if ReadTruths(reserved, items, true, holds) == [] then True else Any3(ReadTruths(reserved, items, true, holds)))
  }

  lemma SomeRead(reserved: set<string>, items: seq<Item>, pid: nat)
    requires items != []
    ensures ReadExprs(reserved, items, pid, false) != [] || ReadExprs(reserved, items, pid, true) != []
    ensures ReadMeanings(reserved, items, false) != [] || ReadMeanings(reserved, items, true) != []
  {
  }

  /** The truth of what a text is read as, its placeholders bound to the values printed with it. */
  lemma ReadWhereTruth(reserved: set<string>, items: seq<Item>, initial: nat, holds: Expr -> Truth)
    requires items != [] && forall item :: item in items ==> WellFormed(item.filter)
    ensures Eval(Bind(ReadWhere(reserved, items, initial), initial, WhereValues(items, initial)), holds) ==
            ReadTruth(reserved, items, holds)
  {
    hide WellFormed, ReadExprs, ReadMeanings, Print, Bind, Eval, Conjunction, Grouped;
    var values := WhereValues(items, initial);
    assert values[0..|values|] == values;
    BindReadExprs(reserved, items, initial, false, initial, values);
    BindReadExprs(reserved, items, initial, true, initial, values);
    SomeRead(reserved, items, initial);
    BindGrouped(ReadExprs(reserved, items, initial, false), ReadExprs(reserved, items, initial, true), initial, values);
    EvalGrouped(ReadMeanings(reserved, items, false), ReadMeanings(reserved, items, true), holds);
  }

  lemma EvalGrouped(plain: seq<Expr>, alternatives: seq<Expr>, holds: Expr -> Truth)
    requires plain != [] || alternatives != []
    ensures Eval(Conjunction(Grouped(plain, alternatives)), holds) ==
            And3(All3(EvalAll(plain, holds)), if alternatives == [] then True else Any3(EvalAll(alternatives, holds)))
  {
    var es := Grouped(plain, alternatives);
    EvalConjunction(es, holds);
    if alternatives == [] {
      assert es == plain;
    } else {
      EvalDisjunction(alternatives, holds);
      var group := [Eval(Disjunction(alternatives), holds)];
      assert EvalAll(es, holds) == EvalAll(plain, holds) + group;
      All3Concat(EvalAll(plain, holds), group);
      assert All3(group) == group[0] by { All3Is(group); }
    }
  }

  lemma EvalConjunction(es: seq<Expr>, holds: Expr -> Truth)
    requires es != []
    ensures Eval(Conjunction(es), holds) == All3(EvalAll(es, holds))
  {
    if |es| == 1 {
      assert EvalAll(es, holds) == [Eval(es[0], holds)];
      All3Is(EvalAll(es, holds));
    }
  }

  lemma EvalDisjunction(es: seq<Expr>, holds: Expr -> Truth)
    requires es != []
    ensures Eval(Disjunction(es), holds) == Any3(EvalAll(es, holds))
  {
    if |es| == 1 {
      assert EvalAll(es, holds) == [Eval(es[0], holds)];
      Any3Is(EvalAll(es, holds));
    }
  }

  lemma ItemsWellFormed(config: Config, req: Request)
    requires Items(config, req).Ok?
    ensures forall item :: item in Items(config, req).value ==> WellFormed(item.filter)
  {
    hide WellFormed, Candidates;
    CompiledWellFormed(Candidates(req.query));
    ScopeWellFormed(config, req);
  }

  lemma ScopeWellFormed(config: Config, req: Request)
    ensures forall item :: item in ScopeItems(config, req) ==> WellFormed(item.filter)
  {
    hide ResolveTenantCompat, ResolveUserIDColumn;
    var fs := ScopeFilters(config, req);
    assert forall f :: f in fs ==> WellFormed(f);
  }

  lemma {:induction false} CompiledWellFormed(cands: seq<Candidate>)
    requires CompileAll(cands).Ok?
    ensures forall item :: item in CompileAll(cands).value ==> WellFormed(item.filter)
  {
    hide Compile, WellFormed;
    if cands != [] {
      CompileWellFormed(cands[0].field, cands[0].condition);
      CompiledWellFormed(cands[1..]);
    }
  }

  /** Meaning preservation: for every request that compiles, every row and every first
      placeholder number, the printed text is read, bound and evaluated as the scope and the
      plain filters and one disjunction of the alternatives. */
  lemma WherePreservesMeaning(reserved: set<string>, config: Config, req: Request, initial: nat, holds: Expr -> Truth)
    requires ServerWords(reserved) && Items(config, req).Ok?
    requires forall item :: item in Items(config, req).value ==> WellPrinted(item.filter, reserved)
    ensures var items := Items(config, req).value;
      if items == [] then WhereText(items, initial) == "" && WhereValues(items, initial) == []
      else
        var parsed := ParseCondition(reserved, WhereText(items, initial));
        && WhereText(items, initial) != "" && parsed.Some?
        && Eval(Bind(parsed.value, initial, WhereValues(items, initial)), holds) == RequestTruth(items, holds)
  {
    hide WellPrinted, WellFormed, Exprs, Meanings, Print, Bind, Eval, Conjunction, Grouped, CompileAll, ScopeItems,
      ParseCondition;
    var items := Items(config, req).value;
    if items == [] {
      PrintNothing(initial);
    } else {
      ItemsWellFormed(config, req);
      WhereReadsIff(reserved, items, initial);
      WhereBinds(items, initial);
      SomeExpr(items, initial);
      EvalGrouped(Meanings(items, false), Meanings(items, true), holds);
      WhereNotEmpty(items, initial);
    }
  }

  lemma PrintNothing(pid: nat)
    ensures WhereText([], pid) == "" && WhereValues([], pid) == []
  {
    var none: seq<string> := [];
    assert none + none == none;
  }

  /** An empty text means that there was nothing to filter by, so there are no values either. */
  lemma WhereNotEmpty(items: seq<Item>, pid: nat)
    requires items != []
    ensures WhereText(items, pid) != ""
  {
    hide FilterText, FilterValues;
    var p := PrintItem(items[0], pid);
    var rest := Print(items[1..], pid + |p.values|);
    var plain, alternatives := Texts(Print(items, pid), false), Texts(Print(items, pid), true);
    TextsNonEmpty(items, pid, false);
    assert Print(items, pid) == [p] + rest && ([p] + rest)[1..] == rest;
    var texts := ClauseTexts(plain, alternatives);
    assert plain != [] || alternatives != [];
    assert forall t :: t in texts ==> t != "";
    JoinNonEmpty(texts, " AND ");
  }

  // ----- One filter by itself -----

  lemma OneItem(f: Filter, pid: nat)
    ensures var items := [Item(false, f)];
      && WhereText(items, pid) == FilterText(f, pid) && WhereValues(items, pid) == FilterValues(f)
      && IntendedWhere(items) == Meaning(f)
  {
    hide FilterText, FilterValues, Meaning;
    var items := [Item(false, f)];
    assert items[1..] == [];
    var p := PrintItem(items[0], pid);
    var none: seq<Printed> := [];
    assert Print(items, pid) == [p] && [p][1..] == none;
    assert Texts([p], false) == [p.text] && Texts([p], true) == [];
    assert Values([p]) == p.values;
    assert Meanings(items, false) == [Meaning(f)] && Meanings(items, true) == [];
  }

  /** The text of one filter, read and bound to its values. */
  lemma OneFilterReads(reserved: set<string>, f: Filter, pid: nat)
    requires ServerWords(reserved) && WellFormed(f) && WellPrinted(f, reserved)
    ensures var parsed := ParseCondition(reserved, FilterText(f, pid));
      parsed.Some? && Bind(parsed.value, pid, FilterValues(f)) == Meaning(f)
  {
    hide ParseCondition, FilterText, FilterValues, Bind, Meaning, FilterExpr, WellFormed, WellPrinted;
    var items := [Item(false, f)];
    WhereReadsIff(reserved, items, pid);
    WhereBinds(items, pid);
    OneItem(f, pid);
  }
}
