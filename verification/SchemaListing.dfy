/** The listing of a schema's tables: controllers/tables.go, `GetTablesByDatabaseAndSchema`.
    `$1` and `$2` are fixed, the request's own filters start at 3. */
module SchemaListing {
  import opened Text
  import opened Ident
  import opened SqlLexer
  import opened SqlCondition
  import opened Filter
  import opened FilterTokens
  import opened FilterReading
  import opened Scope
  import opened Where
  import opened WhereMeaning
  import opened Statements
  import WhereReading

  /** The fixed lines after the key word WHERE. */
  const FIXED := "\n\t" + "sc.catalog_name = $1 AND" + "\n\t" + "t.schemaname = $2"

  /** The text after the key word WHERE, `filters` being the request's own condition. */
  function SchemaCondition(filters: string): string {
    FIXED + if filters == "" then "" else " AND " + filters
  }

  function FixedExprs(): seq<Expr> {
    [Binary("=", Column(["sc", "catalog_name"]), Placeholder(1)), Binary("=", Column(["t", "schemaname"]), Placeholder(2))]
  }

  function SchemaValues(database: string, schema: string, values: seq<string>): seq<string> {
    [database, schema] + values
  }

  /** The two names the listing uses for its tables are not key words. */
  predicate ListingNames(reserved: set<string>) { "sc" !in reserved && "t" !in reserved }

  method ListSchemaTables(config: Config, req: Request, database: string, schema: string)
      returns (r: Result<(string, seq<string>), Error>)
    ensures match Items(config, req)
            case Err(e) => r == Err(e)
            case Ok(items) => r == Ok((SchemaCondition(WhereText(items, 3)), SchemaValues(database, schema, WhereValues(items, 3))))
  {
    var requestWhere := WhereByRequest(config, req, 3);
    if requestWhere.Err? {
      return Err(requestWhere.error);
    }
    var (condition, values) := requestWhere.value;
    var whereSyntax := FIXED;
    if condition != "" {
      whereSyntax := whereSyntax + (" AND " + condition);
    } else {
      assert whereSyntax + "" == whereSyntax;
    }
    var valuesAux := [database, schema];
    valuesAux := valuesAux + values;
    return Ok((whereSyntax, valuesAux));
  }

  function FixedClause(path: seq<string>, pid: nat): WhereReading.Clause
    requires path != []
  {
    var d := Cat(Cat(Cat(Cat(BareDoc(path), Gap), SymbolDoc("=")), Gap), ParamDoc(pid));
    WhereReading.Clause(d, Join(path, ".") + " " + "=" + " $" + Decimal(pid), Binary("=", Column(path), Placeholder(pid)), true)
  }

  lemma {:induction false} FixedClauseOk(reserved: set<string>, path: seq<string>, pid: nat)
    requires ServerWords(reserved) && path != [] && (forall part :: part in path ==> Segment(part))
    requires LowerPath(path) == path && path[0] !in reserved
    ensures WhereReading.ClauseOk(reserved, FixedClause(path, pid))
  {
    hide BareDoc, BareTokens, ParseNot;
    var c := FixedClause(path, pid);
    BareReads(path);
    assert Faithful("=", Op("="));
    LeafFacts(SymbolDoc("="));
    Spaced(BareDoc(path), SymbolDoc("="));
    GapParam(Cat(Cat(BareDoc(path), Gap), SymbolDoc("=")), pid);
    assert Reads(c.doc, c.text, BareTokens(path) + [Op("=")] + [Param(pid)]);
    forall rest | Closes(rest)
      ensures Outcome(ParseNot(reserved, Tokens(c.doc) + rest), c.expr, rest, true)
    {
      var tail := [Op("=")] + ([Param(pid)] + rest);
      WhereReading.Split3(BareTokens(path), [Op("=")], [Param(pid)], rest);
      Associative(BareTokens(path), [Op("=")], [Param(pid)] + rest);
      assert LowerPath(path)[0] == Lower(path[0]);
      FixedReads(reserved, path, pid, rest);
    }
  }

  lemma FixedReads(reserved: set<string>, path: seq<string>, pid: nat, rest: seq<Token>)
    requires ServerWords(reserved) && path != [] && LowerPath(path) == path && path[0] !in reserved && Closes(rest)
    ensures ParseNot(reserved, BareTokens(path) + ([Op("=")] + ([Param(pid)] + rest))) ==
            Done(Binary("=", Column(path), Placeholder(pid)), rest)
  {
    hide ParseNot, ParseOperators, MoreOperators;
    var tail := [Op("=")] + ([Param(pid)] + rest);
    assert LowerPath(path)[0] == Lower(path[0]);
    BareLeft(reserved, path, tail);
    RelationReads(reserved, BareTokens(path) + tail, Column(path), "=", pid, rest);
  }

  lemma {:induction false} LexSpaces(spaces: string, rest: string)
    requires forall c :: c in spaces ==> IsSpace(c)
    ensures Lex(spaces + rest) == Lex(rest)
  {
    if spaces == "" {
      assert spaces + rest == rest;
    } else {
      LexSpaces(spaces[1..], rest);
      assert (spaces + rest)[1..] == spaces[1..] + rest;
    }
  }

  function ListingClauses(reserved: set<string>, items: seq<Item>): seq<WhereReading.Clause> {
    [CATALOG] + ([SCHEMA] + if items == [] then [] else WhereClauses(reserved, items, 3))
  }

  /** White space between two tokens may be of any kind. */
  lemma {:induction false} SpacesAlike(head: Doc, a: string, b: string, tail: string)
    requires Readable(head) && (Last(head).Lexeme? ==> Last(head).token.Word?)
    requires (forall c :: c in a ==> IsSpace(c)) && (forall c :: c in b ==> IsSpace(c)) && a != "" && b != ""
    ensures Lex(Render(head) + (a + tail)) == Lex(Render(head) + (b + tail))
  {
    LexSpaces(a, tail);
    LexSpaces(b, tail);
    assert a[0] in a && b[0] in b;
    assert (a + tail)[0] == a[0] && (b + tail)[0] == b[0];
    LexDoc(head, a + tail);
    LexDoc(head, b + tail);
  }

  lemma {:induction false} ClauseThenAnd(reserved: set<string>, c: WhereReading.Clause)
    requires WhereReading.ClauseOk(reserved, c)
    ensures var d := Cat(Cat(c.doc, Gap), WhereReading.AND);
      Readable(d) && Last(d) == WhereReading.AND && Render(d) == c.text + " " + "AND"
  {
    hide WhereReading.Parses;
    WhereReading.OrReads();
    LeafFacts(WhereReading.AND);
    Spaced(c.doc, WhereReading.AND);
  }

  lemma FixedNames()
    ensures forall part :: part in ["sc", "catalog_name"] ==> Segment(part)
    ensures forall part :: part in ["t", "schemaname"] ==> Segment(part)
    ensures LowerPath(["sc", "catalog_name"]) == ["sc", "catalog_name"] && LowerPath(["t", "schemaname"]) == ["t", "schemaname"]
    ensures "sc" !in GRAMMAR_WORDS
  {
    assert Lower("sc") == "sc" && Lower("catalog_name") == "catalog_name";
    assert Lower("t") == "t" && Lower("schemaname") == "schemaname";
    assert "sc"[0] == 's' && "is"[0] == 'i';
  }

  lemma FixedTexts()
    ensures FixedClause(["t", "schemaname"], 2).text == "t.schemaname = $2"
    ensures FixedClause(["sc", "catalog_name"], 1).text == "sc.catalog_name = $1"
  {
    assert Decimal(1) == "1" && Decimal(2) == "2";
    assert Join(["sc", "catalog_name"], ".") == "sc" + "." + "catalog_name" == "sc.catalog_name" by {
      assert ["sc", "catalog_name"][1..] == ["catalog_name"];
    }
    assert Join(["t", "schemaname"], ".") == "t" + "." + "schemaname" == "t.schemaname" by {
      assert ["t", "schemaname"][1..] == ["schemaname"];
    }
    assert "sc.catalog_name" + " " + "=" + " $" + "1" == "sc.catalog_name = $1";
    assert "t.schemaname" + " " + "=" + " $" + "2" == "t.schemaname = $2";
  }

  const CATALOG := FixedClause(["sc", "catalog_name"], 1)
  const SCHEMA := FixedClause(["t", "schemaname"], 2)

  lemma FixedClausesOk(reserved: set<string>)
    requires ServerWords(reserved) && ListingNames(reserved)
    ensures WhereReading.ClauseOk(reserved, CATALOG) && WhereReading.ClauseOk(reserved, SCHEMA)
  {
    hide WhereReading.ClauseOk;
    FixedNames();
    FixedClauseOk(reserved, ["sc", "catalog_name"], 1);
    FixedClauseOk(reserved, ["t", "schemaname"], 2);
  }

  /** The fixed text and the joined clauses differ only in white space. */
  lemma ListingLexes(reserved: set<string>, items: seq<Item>)
    requires ServerWords(reserved) && ListingNames(reserved)
    requires forall item :: item in items ==> WellFormed(item.filter)
    ensures Lex(SchemaCondition(WhereText(items, 3))) ==
            Lex(Join(WhereReading.ClauseTexts(ListingClauses(reserved, items)), " AND "))
  {
    hide WhereReading.ClauseOk, WhereReading.ClauseTexts, WellFormed, WhereClauses, WhereText, Lex, Exprs, Render, Readable,
      Last, WellPrinted, WhereReading.AllParse, WhereReading.ClauseExprs;
    var filters := WhereText(items, 3);
    var tail := "t.schemaname = $2" + if filters == "" then "" else " AND " + filters;
    var head := Cat(Cat(CATALOG.doc, Gap), WhereReading.AND);
    var cs := if items == [] then [] else WhereClauses(reserved, items, 3);
    FixedClausesOk(reserved);
    FixedTexts();
    ClauseThenAnd(reserved, CATALOG);
    if items == [] {
      PrintNothing(3);
    } else {
      WhereClausesOk(reserved, items, 3);
      WhereNotEmpty(items, 3);
    }
    ClausesNone();
    ClausesHead(SCHEMA, cs);
    ClausesHead(CATALOG, [SCHEMA] + cs);
    TailText(SCHEMA.text, WhereReading.ClauseTexts(cs));
    assert Join(WhereReading.ClauseTexts([SCHEMA] + cs), " AND ") == tail;
    assert Join(WhereReading.ClauseTexts(ListingClauses(reserved, items)), " AND ") == CATALOG.text + " AND " + tail by {
      TailText(CATALOG.text, WhereReading.ClauseTexts([SCHEMA] + cs));
      Associative(CATALOG.text, " AND ", tail);
    }
    assert forall c :: c in "\n\t" ==> IsSpace(c);
    SpacesAlike(head, "\n\t", " ", tail);
    LexSpaces("\n\t", Render(head) + ("\n\t" + tail));
    ListingText(CATALOG.text, tail);
    FixedText(filters);
  }

  lemma TailText(first: string, more: seq<string>)
    ensures Join([first] + more, " AND ") == first + if more == [] then "" else " AND " + Join(more, " AND ")
  {
    assert ([first] + more)[1..] == more;
    if more == [] {
      assert first + "" == first;
    } else {
      Associative(first, " AND ", Join(more, " AND "));
    }
  }

  lemma ListingText(catalog: string, tail: string)
    ensures catalog + " " + "AND" + (" " + tail) == catalog + " AND " + tail
  {
    assert " AND " == " " + ("AND" + " ");
    Associative(catalog + " " + "AND", " ", tail);
    assert catalog + " " + "AND" + " " == catalog + " AND ";
  }

  lemma FixedText(filters: string)
    ensures SchemaCondition(filters) ==
            "\n\t" + ("sc.catalog_name = $1" + " " + "AND" +
                      ("\n\t" + ("t.schemaname = $2" + if filters == "" then "" else " AND " + filters)))
  {
    var more := if filters == "" then "" else " AND " + filters;
    assert "sc.catalog_name = $1 AND" == "sc.catalog_name = $1" + " " + "AND";
    PushIn("\n\t", "sc.catalog_name = $1 AND", "\n\t", "t.schemaname = $2", more);
  }

  lemma PushIn(a: string, b: string, c: string, d: string, e: string)
    ensures a + b + c + d + e == a + (b + (c + (d + e)))
  {
  }

  function ListingExpr(items: seq<Item>): Expr {
    And(FixedExprs() + if items == [] then [] else Grouped(Exprs(items, 3, false), Exprs(items, 3, true)))
  }

  /** The catalog and the schema asked for, and what the request's own filters ask for. */
  function IntendedListing(database: string, schema: string, items: seq<Item>): Expr {
    And([Binary("=", Column(["sc", "catalog_name"]), Value(database)), Binary("=", Column(["t", "schemaname"]), Value(schema))] +
        if items == [] then [] else Grouped(Meanings(items, false), Meanings(items, true)))
  }

  function ReadFilters(reserved: set<string>, items: seq<Item>): seq<Expr> {
    if items == [] then [] else Grouped(ReadExprs(reserved, items, 3, false), ReadExprs(reserved, items, 3, true))
  }

  lemma ListingClausesAre(reserved: set<string>, items: seq<Item>)
    requires ServerWords(reserved) && ListingNames(reserved)
    requires forall item :: item in items ==> WellFormed(item.filter)
    ensures var all := ListingClauses(reserved, items);
      && (forall c :: c in all ==> WhereReading.ClauseOk(reserved, c))
      && WhereReading.ClauseExprs(all) == FixedExprs() + ReadFilters(reserved, items)
      && (WhereReading.AllParse(all) <==> AllParsable(items, reserved))
  {
    hide WhereReading.ClauseOk, WhereReading.ClauseTexts, WhereReading.ClauseExprs, WellFormed, WhereClauses, WhereText, Lex,
      ReadExprs, Parsable, Grouped, FixedClause, FixedExprs, WhereReading.AllParse;
    var cs := if items == [] then [] else WhereClauses(reserved, items, 3);
    FixedClausesOk(reserved);
    FixedClausesAre(cs);
    if items != [] {
      WhereClausesOk(reserved, items, 3);
    } else {
      ClausesNone();
    }
    ClausesHead(SCHEMA, cs);
    ClausesHead(CATALOG, [SCHEMA] + cs);
    assert forall c :: c in ListingClauses(reserved, items) <==> c == CATALOG || c == SCHEMA || c in cs;
  }

  lemma FixedClausesAre(cs: seq<WhereReading.Clause>)
    ensures [CATALOG.expr] + ([SCHEMA.expr] + WhereReading.ClauseExprs(cs)) == FixedExprs() + WhereReading.ClauseExprs(cs)
    ensures WhereReading.AllParse([CATALOG] + ([SCHEMA] + cs)) <==> WhereReading.AllParse(cs)
    ensures WhereReading.AllParse([])
  {
    hide WhereReading.ClauseExprs;
    assert forall c :: c in [CATALOG] + ([SCHEMA] + cs) <==> c == CATALOG || c == SCHEMA || c in cs;
  }

  /** What the listing's condition is read as, whatever the request's own filters are. */
  lemma ListingReadsAs(reserved: set<string>, items: seq<Item>)
    requires ServerWords(reserved) && ListingNames(reserved)
    requires forall item :: item in items ==> WellFormed(item.filter)
    ensures ParseCondition(reserved, SchemaCondition(WhereText(items, 3))) ==
            if AllParsable(items, reserved) then Some(And(FixedExprs() + ReadFilters(reserved, items))) else None
  {
    hide WhereReading.ClauseOk, WhereReading.ClauseTexts, WhereReading.ClauseExprs, WhereReading.AllParse, WellFormed, WhereText,
      Lex, ParseOr, SchemaCondition, AllParsable, ReadFilters, ListingClauses;
    ListingClausesAre(reserved, items);
    ListingLexes(reserved, items);
    assert ListingClauses(reserved, items) != [] by { SomeClauses(reserved, items); }
    WhereReading.ConditionReads(reserved, ListingClauses(reserved, items));
  }

  lemma SomeClauses(reserved: set<string>, items: seq<Item>)
    ensures ListingClauses(reserved, items) != []
  {
  }

  lemma AfterFixed(a: seq<Expr>, b: seq<Expr>)
    ensures And(FixedExprs() + a) == And(FixedExprs() + b) <==> a == b
  {
    assert (FixedExprs() + a)[|FixedExprs()|..] == a && (FixedExprs() + b)[|FixedExprs()|..] == b;
  }

  /** The listing's condition is read as the two fixed comparisons and the request's own
      filters exactly when these are well printed. */
  lemma ListingReadsIff(reserved: set<string>, items: seq<Item>)
    requires ServerWords(reserved) && ListingNames(reserved)
    requires forall item :: item in items ==> WellFormed(item.filter)
    ensures ParseCondition(reserved, SchemaCondition(WhereText(items, 3))) == Some(ListingExpr(items)) <==>
            forall item :: item in items ==> WellPrinted(item.filter, reserved)
  {
    hide WellFormed, WhereText, Exprs, ReadExprs, ParseCondition, SchemaCondition, WellPrinted, Parsable, Grouped, FixedExprs;
    ListingReadsAs(reserved, items);
    if items != [] {
      GroupedReadIff(reserved, items, 3);
      AfterFixed(Grouped(ReadExprs(reserved, items, 3, false), ReadExprs(reserved, items, 3, true)),
                 Grouped(Exprs(items, 3, false), Exprs(items, 3, true)));
    }
  }

  lemma FixedBinds(database: string, schema: string, vs: seq<string>)
    ensures BindAll(FixedExprs(), 1, [database, schema] + vs) ==
            [Binary("=", Column(["sc", "catalog_name"]), Value(database)), Binary("=", Column(["t", "schemaname"]), Value(schema))]
  {
    var values := [database, schema] + vs;
    var e, f := FixedExprs()[0], FixedExprs()[1];
    assert values[0] == database && values[1] == schema;
    assert Bind(Placeholder(1), 1, values) == Value(database) && Bind(Placeholder(2), 1, values) == Value(schema);
    assert Bind(Column(["sc", "catalog_name"]), 1, values) == Column(["sc", "catalog_name"]);
    assert Bind(Column(["t", "schemaname"]), 1, values) == Column(["t", "schemaname"]);
    assert Bind(e, 1, values) == Binary("=", Column(["sc", "catalog_name"]), Value(database));
    assert Bind(f, 1, values) == Binary("=", Column(["t", "schemaname"]), Value(schema));
    assert FixedExprs()[1..] == [f];
  }

  lemma BindTwo(a: seq<Expr>, b: seq<Expr>, initial: nat, values: seq<string>)
    ensures BindAll(a + b, initial, values) == BindAll(a, initial, values) + BindAll(b, initial, values)
  {
    hide Bind;
    var whole, x, y := BindAll(a + b, initial, values), BindAll(a, initial, values), BindAll(b, initial, values);
    forall i | 0 <= i < |whole|
      ensures whole[i] == (x + y)[i]
    {
      if i < |a| {
        assert (a + b)[i] == a[i];
      } else {
        assert (a + b)[i] == b[i - |a|];
      }
    }
    assert whole == x + y;
  }

  /** Bound to the database, the schema and the filters' values, it is what was asked for. */
  lemma ListingBinds(database: string, schema: string, items: seq<Item>)
    requires forall item :: item in items ==> WellFormed(item.filter)
    ensures Bind(ListingExpr(items), 1, SchemaValues(database, schema, WhereValues(items, 3))) ==
            IntendedListing(database, schema, items)
  {
    hide WellFormed, Exprs, Meanings, WhereValues, Stands, Grouped, FixedExprs, BindAll;
    var vs := WhereValues(items, 3);
    var values := SchemaValues(database, schema, vs);
    var more := if items == [] then [] else Grouped(Exprs(items, 3, false), Exprs(items, 3, true));
    FixedBinds(database, schema, vs);
    BindTwo(FixedExprs(), more, 1, values);
    if items == [] {
      assert BindAll([], 1, values) == [];
    } else {
      ListingStands(database, schema, vs);
      ListingMore(items, values);
    }
  }

  lemma ListingStands(database: string, schema: string, vs: seq<string>)
    ensures Stands(vs, 3, 1, [database, schema] + vs)
  {
    assert ([database, schema] + vs)[2..2 + |vs|] == vs;
  }

  lemma ListingMore(items: seq<Item>, values: seq<string>)
    requires (forall item :: item in items ==> WellFormed(item.filter)) && Stands(WhereValues(items, 3), 3, 1, values)
    ensures BindAll(Grouped(Exprs(items, 3, false), Exprs(items, 3, true)), 1, values) ==
            Grouped(Meanings(items, false), Meanings(items, true))
  {
    hide WellFormed, Exprs, Meanings, Print, Stands, Grouped, BindAll;
    BindExprs(items, 3, false, 1, values);
    BindExprs(items, 3, true, 1, values);
    BindLists(Exprs(items, 3, false), Exprs(items, 3, true), 1, values);
  }

  lemma BindLists(plain: seq<Expr>, alternatives: seq<Expr>, initial: nat, values: seq<string>)
    ensures BindAll(Grouped(plain, alternatives), initial, values) ==
            Grouped(BindAll(plain, initial, values), BindAll(alternatives, initial, values))
  {
    var bound := BindAll(alternatives, initial, values);
    assert alternatives != [] ==> Bind(Disjunction(alternatives), initial, values) == Disjunction(bound);
  }

  // ----- Placeholders -----

  lemma FixedParams()
    ensures ParamsOf(Tokens(CATALOG.doc)) == [1] && ParamsOf(Tokens(SCHEMA.doc)) == [2]
  {
    hide FixedClause, ParamsOf, Tokens, LowerPath;
    FixedNames();
    FixedClauseParams(["sc", "catalog_name"], 1);
    FixedClauseParams(["t", "schemaname"], 2);
  }

  lemma FixedClauseParams(path: seq<string>, pid: nat)
    requires path != [] && forall part :: part in path ==> Segment(part)
    ensures ParamsOf(Tokens(FixedClause(path, pid).doc)) == [pid]
  {
    hide BareDoc, BareTokens, ParamsOf;
    BareReads(path);
    assert Faithful("=", Op("="));
    LeafFacts(SymbolDoc("="));
    Spaced(BareDoc(path), SymbolDoc("="));
    GapParam(Cat(Cat(BareDoc(path), Gap), SymbolDoc("=")), pid);
    var before := BareTokens(path) + [Op("=")];
    BareNoParams(path);
    NoParams(before);
    NoParams([]);
    OneParam(before, pid, []);
    assert before + [Param(pid)] + [] == before + [Param(pid)];
  }

  lemma TwoThenRange(n: nat, rest: seq<nat>)
    requires multiset(rest) == multiset(Range(3, n))
    ensures multiset([1] + ([2] + rest)) == multiset(Range(1, n + 2))
  {
    RangeConcat(1, 2, n);
    assert Range(1, 2) == [1, 2];
    assert [1] + ([2] + rest) == [1, 2] + rest;
  }

  /** The listing's text uses each of `$1` to `$n` once, n being the number of values. */
  lemma ListingAligned(database: string, schema: string, items: seq<Item>)
    requires forall item :: item in items ==> WellFormed(item.filter)
    ensures var ts := Lex(SchemaCondition(WhereText(items, 3)));
      ts.Some? &&
        multiset(ParamsOf(ts.value)) == multiset(Range(1, |SchemaValues(database, schema, WhereValues(items, 3))|))
  {
    hide WhereReading.ClauseOk, WhereReading.ClauseTexts, WhereReading.ClauseExprs, WhereReading.JoinTokens, WellFormed, WellPrinted,
      WhereClauses, WhereText, WhereValues, Lex, SchemaCondition, Tokens, Render, Readable, First, Last, ParamsOf, Range, ClauseParams,
      Exprs, WhereReading.AllParse, WhereReading.JoinDoc, Grouped, FixedClause;
    var cs := if items == [] then [] else WhereClauses(GRAMMAR_WORDS, items, 3);
    var all := ListingClauses(GRAMMAR_WORDS, items);
    GrammarWords();
    assert ListingNames(GRAMMAR_WORDS) by { ListingWords(); }
    ListingLexes(GRAMMAR_WORDS, items);
    FixedClausesOk(GRAMMAR_WORDS);
    NothingUsed(3);
    if items != [] {
      WhereClausesOk(GRAMMAR_WORDS, items, 3);
      WhereClauseParams(items, 3);
    }
    assert all == [CATALOG] + ([SCHEMA] + cs);
    assert forall c :: c in all <==> c == CATALOG || c == SCHEMA || c in cs;
    WhereReading.OrReads();
    assert " " + "AND" + " " == " AND ";
    WhereReading.JoinDocReads(GRAMMAR_WORDS, all, WhereReading.AND, " AND ");
    LexRender(WhereReading.JoinDoc(all, WhereReading.AND));
    JoinParams(all, Word("and"));
    FixedParams();
    ClauseParamsHead(CATALOG, [SCHEMA] + cs);
    ClauseParamsHead(SCHEMA, cs);
    TwoThenRange(|WhereValues(items, 3)|, ClauseParams(cs));
  }

  lemma ListingWords()
    ensures ListingNames(GRAMMAR_WORDS)
  {
    assert "sc"[0] == 's' && "is"[0] == 'i' && |"t"| == 1;
  }
}
