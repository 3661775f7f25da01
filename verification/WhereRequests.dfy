/** Which filters a query string asks for, and what a request therefore selects:
    adapters/postgres/postgres.go, `WhereByRequest`. Everything is said of the entries of the
    query string themselves. */
module WhereRequests {
  import opened Text
  import opened SqlCondition
  import opened Filter
  import opened FilterTokens
  import opened FilterReading
  import opened Scope
  import opened Where
  import opened WhereMeaning
  import OrGroup
  import WhereOrder

  // ----- What the entries ask for -----

  /** Some value of a parameter whose name does not start with an underscore asks for the filter. */
  ghost predicate PlainAsks(req: Request, f: Filter) {
    exists e, v :: e in req.query && !("_" <= e.0) && v in e.1 && Compile(e.0, v) == Ok(f)
  }

  /** The part is field=condition, cut at its first `=`, with a field. */
  predicate IsCut(p: string, field: string, condition: string) {
    p == field + "=" + condition && field != "" && '=' !in field
  }

  /** Some part of some `_or` value asks for the filter. */
  ghost predicate OrAsks(req: Request, f: Filter) {
    exists e, v, p, field, condition ::
      e in req.query && e.0 == "_or" && v in e.1 && p in OrGroup.SplitOrGroup(Trim(v)) && IsCut(p, field, condition) &&
      Compile(field, condition) == Ok(f)
  }

  /** Everything that is asked for compiles. */
  ghost predicate AllCompile(req: Request) {
    && (forall e, v :: e in req.query && !("_" <= e.0) && v in e.1 ==> Compile(e.0, v).Ok?)
    && (forall e, v, p, field, condition ::
          e in req.query && e.0 == "_or" && v in e.1 && p in OrGroup.SplitOrGroup(Trim(v)) && IsCut(p, field, condition) ==>
          Compile(field, condition).Ok?)
  }

  // ----- The candidates are those -----

  lemma {:induction false} IndexOfIs(s: string, c: char)
    ensures IndexOf(s, c) == -1 <==> c !in s
    ensures IndexOf(s, c) >= 0 ==> s[IndexOf(s, c)] == c && c !in s[..IndexOf(s, c)]
  {
    if s != "" && s[0] != c {
      IndexOfIs(s[1..], c);
      assert s == [s[0]] + s[1..];
      var n := IndexOf(s[1..], c);
      if n >= 0 {
        assert s[..n + 1] == [s[0]] + s[1..][..n];
      }
    }
  }

  lemma {:induction false} CutIsFirst(p: string, field: string, condition: string)
    requires p == field + "=" + condition && '=' !in field
    ensures IndexOf(p, '=') == |field| && field == p[..|field|] && condition == p[|field| + 1..]
    decreases |field|
  {
    if field != "" {
      assert p[1..] == field[1..] + "=" + condition;
      CutIsFirst(p[1..], field[1..], condition);
    }
  }

  lemma CutAt(p: string)
    requires IndexOf(p, '=') > 0
    ensures var n := IndexOf(p, '='); IsCut(p, p[..n], p[n + 1..])
  {
    IndexOfIs(p, '=');
  }

  lemma CutOnly(p: string, field: string, condition: string)
    requires IsCut(p, field, condition)
    ensures var n := IndexOf(p, '='); n > 0 && field == p[..n] && condition == p[n + 1..]
  {
    CutIsFirst(p, field, condition);
  }

  lemma PartIs(p: string, c: Candidate)
    requires Trim(p) == p
    ensures c in PartCandidate(p) <==> exists field, condition :: IsCut(p, field, condition) && c == Candidate(true, field, condition)
  {
    hide Trim, IndexOf, IsCut;
    var n := IndexOf(p, '=');
    if n > 0 {
      CutAt(p);
    }
    if field, condition :| IsCut(p, field, condition) && c == Candidate(true, field, condition) {
      CutOnly(p, field, condition);
    }
  }

  lemma {:induction false} PartsAre(parts: seq<string>, c: Candidate)
    requires forall p :: p in parts ==> Trim(p) == p
    ensures c in PartCandidates(parts) <==>
            exists p, field, condition :: p in parts && IsCut(p, field, condition) && c == Candidate(true, field, condition)
  {
    hide Trim, PartCandidate, IsCut;
    if parts != [] {
      assert parts[0] in parts && forall p :: p in parts <==> p == parts[0] || p in parts[1..];
      PartIs(parts[0], c);
      PartsAre(parts[1..], c);
    }
  }

  /** The parts of a group are trimmed already. */
  lemma {:induction false} PartsTrimmed(v: string, from: nat, slices: seq<OrGroup.Slice>, parts: seq<string>)
    requires from <= |v| && OrGroup.Partition(v, from, slices, parts)
    ensures forall p :: p in parts ==> Trim(p) == p
    decreases slices
  {
    if slices != [] {
      PartsTrimmed(v, slices[0].hi, slices[1..], parts[1..]);
      var s := slices[0];
      assert parts[0][0] == v[s.lo] && parts[0][|parts[0]| - 1] == v[s.hi - 1];
      assert forall p :: p in parts <==> p == parts[0] || p in parts[1..];
    }
  }

  lemma {:induction false} OrCandidatesAre(vals: seq<string>, c: Candidate)
    ensures c in OrCandidates(vals) <==>
            exists v, p, field, condition :: v in vals && p in OrGroup.SplitOrGroup(Trim(v)) && IsCut(p, field, condition) &&
              c == Candidate(true, field, condition)
  {
    hide Trim, PartCandidates, IsCut, OrGroup.SplitOrGroup, OrGroup.Partition;
    if vals != [] {
      var t := Trim(vals[0]);
      var slices := OrGroup.SplitConserves(t);
      PartsTrimmed(t, 0, slices, OrGroup.SplitOrGroup(t));
      PartsAre(OrGroup.SplitOrGroup(t), c);
      OrCandidatesAre(vals[1..], c);
      assert forall v :: v in vals <==> v == vals[0] || v in vals[1..];
    }
  }

  lemma {:induction false} PlainCandidatesAre(key: string, vals: seq<string>, c: Candidate)
    ensures c in PlainCandidates(key, vals) <==> exists v :: v in vals && c == Candidate(false, key, v)
  {
    if vals != [] {
      PlainCandidatesAre(key, vals[1..], c);
      assert forall v :: v in vals <==> v == vals[0] || v in vals[1..];
    }
  }

  lemma CandidatesAre(req: Request, c: Candidate)
    ensures !c.inOr ==>
              (c in Candidates(req.query) <==>
               exists e, v :: e in req.query && !("_" <= e.0) && v in e.1 && c == Candidate(false, e.0, v))
    ensures c.inOr ==>
              (c in Candidates(req.query) <==>
               exists e, v, p, field, condition ::
                 e in req.query && e.0 == "_or" && v in e.1 && p in OrGroup.SplitOrGroup(Trim(v)) &&
                 IsCut(p, field, condition) && c == Candidate(true, field, condition))
  {
    hide Trim, IsCut, OrGroup.SplitOrGroup, Candidates, PlainCandidates, OrCandidates;
    WhereOrder.CandidatesOfEntries(req.query);
    forall e | e in req.query
      ensures c in EntryCandidates(e) <==>
              (if !("_" <= e.0) then exists v :: v in e.1 && c == Candidate(false, e.0, v)
               else e.0 == "_or" && (exists v, p, field, condition ::
                                       v in e.1 && p in OrGroup.SplitOrGroup(Trim(v)) && IsCut(p, field, condition) &&
                                       c == Candidate(true, field, condition)))
    {
      PlainCandidatesAre(e.0, e.1, c);
      OrCandidatesAre(e.1, c);
    }
  }

  // ----- The filters of a request -----

  /** A request compiles exactly when everything its query string asks for does. */
  lemma CompilesIff(config: Config, req: Request)
    ensures Items(config, req).Ok? <==> AllCompile(req)
  {
    hide Candidates, Compile, Trim, IsCut, OrGroup.SplitOrGroup, ScopeItems;
    WhereOrder.CompiledItems(Candidates(req.query));
    if AllCompile(req) {
      forall c | c in Candidates(req.query)
        ensures Compile(c.field, c.condition).Ok?
      {
        CandidatesAre(req, c);
      }
    }
    if Items(config, req).Ok? {
      forall e, v | e in req.query && !("_" <= e.0) && v in e.1
        ensures Compile(e.0, v).Ok?
      {
        CandidatesAre(req, Candidate(false, e.0, v));
      }
      forall e, v, p, field, condition | e in req.query && e.0 == "_or" && v in e.1 &&
          p in OrGroup.SplitOrGroup(Trim(v)) && IsCut(p, field, condition)
        ensures Compile(field, condition).Ok?
      {
        CandidatesAre(req, Candidate(true, field, condition));
      }
    }
  }

  /** The alternatives of a request are the filters that the parts of its `_or` values ask for. */
  lemma AlternativesAre(config: Config, req: Request, f: Filter)
    requires Items(config, req).Ok?
    ensures Item(true, f) in Items(config, req).value <==> OrAsks(req, f)
  {
    hide Candidates, Compile, Trim, IsCut, OrGroup.SplitOrGroup, ScopeFilters;
    OwnItems(config, req, Item(true, f));
    if c :| c in Candidates(req.query) && Compile(c.field, c.condition) == Ok(f) && c.inOr {
      CandidatesAre(req, c);
      var e, v, p, field, condition :| e in req.query && e.0 == "_or" && v in e.1 &&
          p in OrGroup.SplitOrGroup(Trim(v)) && IsCut(p, field, condition) &&
        c == Candidate(true, field, condition);
      assert OrAsks(req, f);
    }
    if OrAsks(req, f) {
      var e, v, p, field, condition :| e in req.query && e.0 == "_or" && v in e.1 &&
          p in OrGroup.SplitOrGroup(Trim(v)) && IsCut(p, field, condition) &&
        Compile(field, condition) == Ok(f);
      CandidatesAre(req, Candidate(true, field, condition));
    }
  }

  lemma OwnItems(config: Config, req: Request, item: Item)
    requires Items(config, req).Ok?
    ensures item in Items(config, req).value <==>
            (!item.inOr && item.filter in ScopeFilters(config, req)) ||
            exists c :: c in Candidates(req.query) && Compile(c.field, c.condition) == Ok(item.filter) && c.inOr == item.inOr
  {
    hide Candidates, Compile, ScopeFilters, CompileAll;
    WhereOrder.CompiledItems(Candidates(req.query));
    var scope := ScopeItems(config, req);
    assert item in scope <==> !item.inOr && item.filter in ScopeFilters(config, req) by {
      if !item.inOr && item.filter in ScopeFilters(config, req) {
        var i :| 0 <= i < |scope| && ScopeFilters(config, req)[i] == item.filter;
        assert scope[i] == item;
      }
    }
  }

  /** Its plain filters are those of the scope and those its other parameters ask for. */
  lemma PlainFiltersAre(config: Config, req: Request, f: Filter)
    requires Items(config, req).Ok?
    ensures Item(false, f) in Items(config, req).value <==> f in ScopeFilters(config, req) || PlainAsks(req, f)
  {
    hide Candidates, Compile, Trim, IsCut, OrGroup.SplitOrGroup, ScopeFilters;
    OwnItems(config, req, Item(false, f));
    if c :| c in Candidates(req.query) && Compile(c.field, c.condition) == Ok(f) && !c.inOr {
      CandidatesAre(req, c);
    }
    if PlainAsks(req, f) {
      var e, v :| e in req.query && !("_" <= e.0) && v in e.1 && Compile(e.0, v) == Ok(f);
      CandidatesAre(req, Candidate(false, e.0, v));
    }
  }

  // ----- What a request selects -----

  lemma {:induction false} TruthsAre(items: seq<Item>, inOr: bool, holds: Expr -> Truth, t: Truth)
    ensures t in Truths(items, inOr, holds) <==> exists f :: Item(inOr, f) in items && Eval(Meaning(f), holds) == t
  {
    hide Meaning, Eval;
    if items == [] {
      assert Truths(items, inOr, holds) == [];
    } else {
      TruthsAre(items[1..], inOr, holds, t);
      assert forall x :: x in items <==> x == items[0] || x in items[1..];
      var head := if items[0].inOr == inOr then [Eval(Meaning(items[0].filter), holds)] else [];
      assert Truths(items, inOr, holds) == head + Truths(items[1..], inOr, holds);
      if items[0].inOr == inOr {
        assert items[0] == Item(inOr, items[0].filter);
      }
    }
  }

  /** The row satisfies the scope and every plain filter, and some alternative if there are any. */
  ghost predicate Asks(config: Config, req: Request, holds: Expr -> Truth) {
    && (forall f :: f in ScopeFilters(config, req) || PlainAsks(req, f) ==> Eval(Meaning(f), holds) == True)
    && ((exists f :: OrAsks(req, f)) ==> exists f :: OrAsks(req, f) && Eval(Meaning(f), holds) == True)
  }

  lemma RequestTruthIs(config: Config, req: Request, holds: Expr -> Truth)
    requires Items(config, req).Ok?
    ensures RequestTruth(Items(config, req).value, holds) == True <==> Asks(config, req, holds)
  {
    hide Meaning, Eval, Items, OrAsks, PlainAsks, ScopeFilters, Truths;
    var items := Items(config, req).value;
    forall f
      ensures Item(true, f) in items <==> OrAsks(req, f)
      ensures Item(false, f) in items <==> f in ScopeFilters(config, req) || PlainAsks(req, f)
    {
      AlternativesAre(config, req, f);
      PlainFiltersAre(config, req, f);
    }
    All3Is(Truths(items, false, holds));
    Any3Is(Truths(items, true, holds));
    PlainTrue(items, holds);
    SomeTrue(items, holds);
  }

  lemma SomeTrue(items: seq<Item>, holds: Expr -> Truth)
    ensures Truths(items, true, holds) != [] <==> exists f :: Item(true, f) in items
    ensures True in Truths(items, true, holds) <==> exists f :: Item(true, f) in items && Eval(Meaning(f), holds) == True
  {
    hide Meaning, Eval, Truths;
    var ts := Truths(items, true, holds);
    TruthsAre(items, true, holds, True);
    if ts != [] {
      TruthsAre(items, true, holds, ts[0]);
    }
    if f :| Item(true, f) in items {
      TruthsAre(items, true, holds, Eval(Meaning(f), holds));
    }
  }

  lemma PlainTrue(items: seq<Item>, holds: Expr -> Truth)
    ensures (forall t :: t in Truths(items, false, holds) ==> t == True) <==>
            forall f :: Item(false, f) in items ==> Eval(Meaning(f), holds) == True
  {
    hide Meaning, Eval, Truths;
    forall f | Item(false, f) in items
      ensures Eval(Meaning(f), holds) in Truths(items, false, holds)
    {
      TruthsAre(items, false, holds, Eval(Meaning(f), holds));
    }
    forall t | t in Truths(items, false, holds)
      ensures exists f :: Item(false, f) in items && Eval(Meaning(f), holds) == t
    {
      TruthsAre(items, false, holds, t);
    }
  }

  /** The text printed for a request that compiles, read, bound and evaluated on a row, is true
      exactly where the row satisfies what the query string and the scope ask for. */
  lemma RequestSelects(reserved: set<string>, config: Config, req: Request, initial: nat, holds: Expr -> Truth)
    requires ServerWords(reserved) && Items(config, req).Ok? && Items(config, req).value != []
    requires forall item :: item in Items(config, req).value ==> WellPrinted(item.filter, reserved)
    ensures var items := Items(config, req).value;
      var parsed := ParseCondition(reserved, WhereText(items, initial));
      && parsed.Some?
      && (Eval(Bind(parsed.value, initial, WhereValues(items, initial)), holds) == True <==> Asks(config, req, holds))
  {
    hide WellPrinted, Eval, Bind, ParseCondition, WhereText, WhereValues, RequestTruth, Items, Asks;
    WherePreservesMeaning(reserved, config, req, initial, holds);
    RequestTruthIs(config, req, holds);
  }

  // ----- An `_or` value joined from its parts -----

  lemma {:induction false} GlueEnds(parts: seq<string>, seps: seq<OrGroup.Separator>)
    requires |parts| == |seps| + 1 && forall p :: p in parts ==> OrGroup.Atomic(p)
    ensures var v := OrGroup.Glue(parts, seps); v != "" && !IsSpace(v[0]) && !IsSpace(v[|v| - 1])
    decreases |seps|
  {
    hide OrGroup.Atomic;
    assert parts[0] in parts;
    OrGroup.AtomicNoCut(parts[0]);
    assert parts[0] != "" by { AtomicNotEmpty(parts[0]); }
    if seps != [] {
      assert forall p :: p in parts[1..] ==> p in parts;
      GlueEnds(parts[1..], seps[1..]);
    }
  }

  lemma AtomicNotEmpty(part: string)
    requires OrGroup.Atomic(part)
    ensures part != ""
  {
  }

  lemma TrimmedAlready(v: string)
    requires v != "" && !IsSpace(v[0]) && !IsSpace(v[|v| - 1])
    ensures Trim(v) == v
  {
  }

  /** A query string whose only parameter is an `_or` value joined from parts asks for what the
      parts ask for, each cut at its first `=`. */
  lemma GluedAlternatives(config: Config, req: Request, parts: seq<string>, seps: seq<OrGroup.Separator>, f: Filter)
    requires |parts| == |seps| + 1 && forall p :: p in parts ==> OrGroup.Atomic(p)
    requires forall i :: 0 <= i < |seps| ==> OrGroup.Joinable(parts[i], seps[i])
    requires req.query == [("_or", [OrGroup.Glue(parts, seps)])] && Items(config, req).Ok?
    ensures Item(true, f) in Items(config, req).value <==>
            exists p, field, condition :: p in parts && IsCut(p, field, condition) && Compile(field, condition) == Ok(f)
  {
    hide OrGroup.SplitOrGroup, OrGroup.Glue, OrGroup.Atomic, OrGroup.Joinable, Trim, Items, Compile, IsCut;
    var v := OrGroup.Glue(parts, seps);
    GlueEnds(parts, seps);
    TrimmedAlready(v);
    OrGroup.SplitGlued(parts, seps);
    AlternativesAre(config, req, f);
    var e := ("_or", [v]);
    assert e in req.query && forall x :: x in req.query ==> x == e;
    assert v in e.1 && forall x :: x in e.1 ==> x == v;
    if p, field, condition :| p in parts && IsCut(p, field, condition) && Compile(field, condition) == Ok(f) {
      assert OrAsks(req, f);
    }
  }
}
