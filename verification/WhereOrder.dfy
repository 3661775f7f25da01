/** A Go map yields its entries in any order; the rows a request selects do not depend on it. */
module WhereOrder {
  import opened Text
  import opened SqlCondition
  import opened Filter
  import opened FilterTokens
  import opened FilterReading
  import opened Scope
  import opened Where
  import opened WhereMeaning

  /** The same query string, its entries met in two orders. */
  ghost predicate SameQuery(req: Request, other: Request) {
    req.(query := other.query) == other && multiset(req.query) == multiset(other.query)
  }

  lemma {:induction false} CandidatesOfEntries(query: seq<(string, seq<string>)>)
    ensures forall c :: c in Candidates(query) <==> exists e :: e in query && c in EntryCandidates(e)
  {
    hide EntryCandidates;
    if query != [] {
      CandidatesOfEntries(query[1..]);
      assert forall e :: e in query <==> e == query[0] || e in query[1..];
    }
  }

  lemma {:induction false} CompiledItems(cands: seq<Candidate>)
    ensures CompileAll(cands).Ok? <==> forall c :: c in cands ==> Compile(c.field, c.condition).Ok?
    ensures CompileAll(cands).Ok? ==>
              forall item :: item in CompileAll(cands).value <==>
                             exists c :: c in cands && Compile(c.field, c.condition) == Ok(item.filter) && item.inOr == c.inOr
  {
    hide Compile;
    if cands != [] {
      var c, rest := cands[0], cands[1..];
      CompiledItems(rest);
      assert forall x :: x in cands <==> x == c || x in rest;
      if CompileAll(cands).Ok? {
        var first := Item(c.inOr, Compile(c.field, c.condition).value);
        assert CompileAll(cands).value == [first] + CompileAll(rest).value;
        assert forall item :: item in CompileAll(cands).value <==> item == first || item in CompileAll(rest).value;
      }
    }
  }

  lemma SameCandidates(req: Request, other: Request)
    requires SameQuery(req, other)
    ensures forall c :: c in Candidates(req.query) <==> c in Candidates(other.query)
  {
    CandidatesOfEntries(req.query);
    CandidatesOfEntries(other.query);
    assert forall e :: e in req.query <==> e in multiset(req.query);
    assert forall e :: e in other.query <==> e in multiset(other.query);
  }

  /** The order decides neither whether a request compiles nor which filters it has. */
  lemma SameItems(config: Config, req: Request, other: Request)
    requires SameQuery(req, other)
    ensures Items(config, req).Ok? <==> Items(config, other).Ok?
    ensures Items(config, req).Ok? ==>
              forall item :: item in Items(config, req).value <==> item in Items(config, other).value
  {
    hide Candidates, CompileAll, Compile, ScopeItems, SameQuery;
    assert ScopeItems(config, req) == ScopeItems(config, other) by { SameScope(config, req, other); }
    SameCandidates(req, other);
    CompiledItems(Candidates(req.query));
    CompiledItems(Candidates(other.query));
    if Items(config, req).Ok? {
      var a, b := CompileAll(Candidates(req.query)).value, CompileAll(Candidates(other.query)).value;
      assert forall item :: item in a <==> item in b;
    }
  }

  lemma SameScope(config: Config, req: Request, other: Request)
    requires SameQuery(req, other)
    ensures ScopeItems(config, req) == ScopeItems(config, other)
  {
    assert ScopeFilters(config, req) == ScopeFilters(config, other);
  }

  lemma {:induction false} TruthsOf(reserved: set<string>, items: seq<Item>, inOr: bool, holds: Expr -> Truth)
    ensures forall t :: t in ReadTruths(reserved, items, inOr, holds) <==>
                        exists item :: item in items && item.inOr == inOr && Eval(ReadMeaning(item.filter, reserved), holds) == t
  {
    hide ReadMeaning, Eval;
    if items != [] {
      var item, rest := items[0], items[1..];
      var t := Eval(ReadMeaning(item.filter, reserved), holds);
      TruthsOf(reserved, rest, inOr, holds);
      TruthsHead(reserved, items, inOr, holds);
      assert forall x :: x in items <==> x == item || x in rest;
      assert forall u :: u in (if item.inOr == inOr then [t] else []) + ReadTruths(reserved, rest, inOr, holds) <==>
                         (item.inOr == inOr && u == t) || u in ReadTruths(reserved, rest, inOr, holds);
    }
  }

  lemma TruthsHead(reserved: set<string>, items: seq<Item>, inOr: bool, holds: Expr -> Truth)
    requires items != []
    ensures ReadTruths(reserved, items, inOr, holds) ==
            (if items[0].inOr == inOr then [Eval(ReadMeaning(items[0].filter, reserved), holds)] else []) +
            ReadTruths(reserved, items[1..], inOr, holds)
  {
    hide ReadMeaning, Eval;
  }

  /** Truth depends only on which filters there are. */
  lemma SameTruth(reserved: set<string>, a: seq<Item>, b: seq<Item>, holds: Expr -> Truth)
    requires forall item :: item in a <==> item in b
    ensures ReadTruth(reserved, a, holds) == ReadTruth(reserved, b, holds)
  {
    hide ReadMeaning, Eval, ReadTruths;
    forall inOr: bool
      ensures forall t :: t in ReadTruths(reserved, a, inOr, holds) <==> t in ReadTruths(reserved, b, inOr, holds)
    {
      TruthsOf(reserved, a, inOr, holds);
      TruthsOf(reserved, b, inOr, holds);
    }
    All3Is(ReadTruths(reserved, a, false, holds));
    All3Is(ReadTruths(reserved, b, false, holds));
    Any3Is(ReadTruths(reserved, a, true, holds));
    Any3Is(ReadTruths(reserved, b, true, holds));
    var x, y := ReadTruths(reserved, a, true, holds), ReadTruths(reserved, b, true, holds);
    assert x == [] <==> y == [] by {
      assert x != [] ==> x[0] in y;
      assert y != [] ==> y[0] in x;
    }
  }

  /** The two texts of one query string are both read or neither is, and are true on the same rows. */
  ghost predicate SameRows(reserved: set<string>, a: seq<Item>, b: seq<Item>, initial: nat, holds: Expr -> Truth) {
    var p, q := ParseCondition(reserved, WhereText(a, initial)), ParseCondition(reserved, WhereText(b, initial));
    && (p.Some? <==> q.Some?)
    && (p.Some? ==> Eval(Bind(p.value, initial, WhereValues(a, initial)), holds) ==
                    Eval(Bind(q.value, initial, WhereValues(b, initial)), holds))
  }

  /** Whatever order the map yields its entries in, the same requests compile, and the two
      texts, although numbered differently, select the same rows; whatever the filters are. */
  lemma OrderIndependent(reserved: set<string>, config: Config, req: Request, other: Request, initial: nat,
                         holds: Expr -> Truth)
    requires SameQuery(req, other) && ServerWords(reserved)
    ensures Items(config, req).Ok? <==> Items(config, other).Ok?
    ensures Items(config, req).Ok? ==>
              var a, b := Items(config, req).value, Items(config, other).value;
                if a == [] then b == [] && WhereText(a, initial) == WhereText(b, initial) == ""
                else b != [] && SameRows(reserved, a, b, initial, holds)
  {
    hide Parsable, Eval, Bind, Items, ParseCondition, WhereText, WhereValues, ReadTruth, ReadWhere, SameQuery, WellFormed;
    SameItems(config, req, other);
    if Items(config, req).Ok? {
      var a, b := Items(config, req).value, Items(config, other).value;
      assert a != [] ==> a[0] in b;
      assert b != [] ==> b[0] in a;
      if a == [] {
        PrintNothing(initial);
      } else {
        ItemsWellFormed(config, req);
        ItemsWellFormed(config, other);
        WhereReadsAs(reserved, a, initial);
        WhereReadsAs(reserved, b, initial);
        ReadWhereTruth(reserved, a, initial, holds);
        ReadWhereTruth(reserved, b, initial, holds);
        SameTruth(reserved, a, b, holds);
      }
    }
  }
}
