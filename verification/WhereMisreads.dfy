/** Requests that compile but whose text is not read as meant: concrete cases of the condition
    in `WhereMeaning.WhereReadsIff`. */
module WhereMisreads {
  import opened Text
  import opened Ident
  import opened SqlCondition
  import opened Filter
  import opened FilterTokens
  import opened FilterReading
  import opened Scope
  import opened Where
  import opened WhereMeaning

  /** The text printed for the request is not read as the condition it asks for. */
  ghost predicate Misread(reserved: set<string>, config: Config, req: Request, initial: nat) {
    && Items(config, req).Ok? && Items(config, req).value != []
    && ParseCondition(reserved, WhereText(Items(config, req).value, initial)) != Some(WhereExpr(Items(config, req).value, initial))
  }

  lemma OneMisread(reserved: set<string>, config: Config, req: Request, initial: nat, f: Filter)
    requires ServerWords(reserved) && Items(config, req) == Ok([Item(false, f)]) && !WellPrinted(f, reserved)
    ensures Misread(reserved, config, req, initial)
  {
    hide WellPrinted, WellFormed, Items, ParseCondition, WhereText, WhereExpr;
    var items := [Item(false, f)];
    ItemsWellFormed(config, req);
    assert items[0] in items;
    WhereReadsIff(reserved, items, initial);
  }

  /** A text-search request for one field, `x` being sought. */
  function SearchRequest(field: string): Request { Request("", "", "", [(field + ":tsquery", ["x"])]) }

  lemma SearchKey(field: string)
    requires ':' !in field && '$' !in field && IsValid(field)
    ensures Compile(field + ":tsquery", "x") == Ok(Search(field, None, "x"))
  {
    hide IsValid, OperatorOf, RemoveOperators, Split;
    SoughtX();
    SearchParts(field);
  }

  lemma SearchParts(field: string)
    requires ':' !in field && '$' !in field
    ensures Split(field + ":tsquery", ":") == [field, "tsquery"] && Split(field, "$") == [field]
  {
    hide Split;
    SplitPlain("tsquery", ':');
    SplitHead(field, "tsquery", ':');
    assert field + [':'] + "tsquery" == field + ":tsquery";
    assert [field] + ["tsquery"] == [field, "tsquery"];
    SplitPlain(field, '$');
  }

  lemma SoughtX()
    ensures OperatorOf("x") == Ok(Relation("=")) && RemoveOperators("x") == "x"
  {
    assert FindOperator("x") == "";
    assert RemoveOperators("x") == ['x'] + RemoveOperators("");
    assert ReplaceChar(ReplaceChar("$eq", '$', ""), ' ', "") == "eq";
  }

  lemma SearchItems(field: string)
    requires ':' !in field && '$' !in field && IsValid(field) && field != "" && field[0] != '_'
    ensures Items(Config([], []), SearchRequest(field)) == Ok([Item(false, Search(field, None, "x"))])
  {
    hide Compile, IsValid, ScopeFilters;
    var req := SearchRequest(field);
    var key := field + ":tsquery";
    var f := Search(field, None, "x");
    SearchKey(field);
    assert key[0] == field[0];
    assert PlainCandidates(key, ["x"]) == [Candidate(false, key, "x")] by {
      assert ["x"][1..] == [];
    }
    assert Candidates(req.query) == [Candidate(false, key, "x")] by {
      assert req.query[1..] == [];
    }
    assert CompileAll([Candidate(false, key, "x")]) == Ok([Item(false, f)]) by {
      assert [Candidate(false, key, "x")][1..] == [] && [Item(false, f)] + [] == [Item(false, f)];
    }
    assert ScopeItems(Config([], []), req) == [] by { EmptyScope(req); }
    assert [] + [Item(false, f)] == [Item(false, f)];
  }

  lemma EmptyScope(req: Request)
    requires req.userId == "" && req.tenantId == ""
    ensures ScopeItems(Config([], []), req) == []
  {
    assert ResolveTenantCompat(Config([], []), req.path) == None;
  }

  lemma OneSegment(s: string)
    requires Segment(s) && |s| <= MAX_SEGMENT && '.' !in s
    ensures IsValid(s) && Path(s) == [s]
  {
    SplitPlain(s, '.');
    ValidExactly(s);
  }

  /** A field that PostgreSQL does not read as it is written. */
  lemma FieldMisread(reserved: set<string>, initial: nat, field: string)
    requires ServerWords(reserved) && Segment(field) && |field| <= MAX_SEGMENT && field[0] != '_'
    requires ':' !in field && '$' !in field && '.' !in field
    requires Lower(field) != field || field in reserved
    ensures Misread(reserved, Config([], []), SearchRequest(field), initial)
  {
    hide IsValid, Misread, Items, Segment, ServerWords, Lower;
    OneSegment(field);
    SearchItems(field);
    assert LowerPath([field])[0] == Lower(field);
    OneMisread(reserved, Config([], []), SearchRequest(field), initial, Search(field, None, "x"));
  }

  /** A field with a capital letter: it is printed bare and folded to lower case. */
  lemma CapitalFieldMisread(reserved: set<string>, initial: nat)
    requires ServerWords(reserved)
    ensures Misread(reserved, Config([], []), SearchRequest("Title"), initial)
  {
    hide Misread, Items, ServerWords;
    assert Lower("Title")[0] == 't';
    FieldMisread(reserved, initial, "Title");
  }

  /** A field named like a reserved word. */
  lemma ReservedFieldMisread(reserved: set<string>, initial: nat)
    requires ServerWords(reserved) && "user" in reserved
    ensures Misread(reserved, Config([], []), SearchRequest("user"), initial)
  {
    hide Misread, Items, ServerWords;
    FieldMisread(reserved, initial, "user");
  }

  /** A configured column that is no identifier: its quoted form is dropped and nothing stands
      left of the comparison. */
  lemma BadColumnMisread(reserved: set<string>, initial: nat)
    requires ServerWords(reserved)
    ensures Misread(reserved, Config([UserFilter("d", "", "t", "user id")], []), Request("d/s/t", "u", "", []), initial)
  {
    hide WellPrinted;
    var config := Config([UserFilter("d", "", "t", "user id")], []);
    var req := Request("d/s/t", "u", "", []);
    var f := Equals("user id", "u");
    SplitJoin(["d", "s", "t"], '/');
    assert Join(["d", "s", "t"], "/") == "d/s/t" by {
      assert ["d", "s", "t"][1..] == ["s", "t"] && ["s", "t"][1..] == ["t"];
      assert Join(["s", "t"], "/") == "s/t";
    }
    assert PathParts("d/s/t") == ["d", "s", "t"];
    assert ResolveTenantCompat(config, req.path) == None && ResolveUserIDColumn(config, req.path) == "user id";
    assert ScopeFilters(config, req) == [f];
    assert ScopeItems(config, req) == [Item(false, f)];
    assert Items(config, req) == Ok([Item(false, f)]) by {
      assert [Item(false, f)] + [] == [Item(false, f)];
    }
    assert !WellPrinted(f, reserved) by { SpaceInvalid(f, reserved); }
    OneMisread(reserved, config, req, initial, f);
  }

  lemma SpaceInvalid(f: Filter, reserved: set<string>)
    requires f == Equals("user id", "u")
    ensures !WellPrinted(f, reserved)
  {
    hide ServerWords;
    NotASegment("user id", 4);
  }

  lemma NotASegment(s: string, i: nat)
    requires i < |s| && !PartChar(s[i]) && '.' !in s
    ensures !IsValid(s)
  {
    SplitPlain(s, '.');
    ValidExactly(s);
    assert s[i] in s && s in [s];
  }
}
