/** Positional placeholders handed out while a query template is expanded:
    template/funcregistry.go, `sqlVal`, `sqlList` and `tenantScopeIn`. */
module TemplateRegistry {
  import opened Text
  import opened Ident
  import opened SqlLexer
  import opened SqlCondition
  import opened FilterTokens
  import opened FilterReading
  import opened Filter
  import opened Inserts
  import opened Statements
  import WhereMeaning

  /** A value of the template data, as far as the functions tell values apart. */
  datatype Datum = Nil | Plain(text: string) | Strings(list: seq<string>)

  type Data = map<string, Datum>

  const TENANT_IDS := "tenantIds"
  const FALSE := "FALSE"

  function ValueOf(data: Data, key: string): Datum { if key in data then data[key] else Nil }

  function Plains(list: seq<string>): (r: seq<Datum>)
    ensures |r| == |list| && forall i :: 0 <= i < |list| ==> r[i] == Plain(list[i])
  {
    seq(|list|, i requires 0 <= i < |list| => Plain(list[i]))
  }

  // ----- What a call asks for and prints -----

  datatype Call = SqlVal(key: string) | SqlList(key: string) | TenantScopeIn(column: string)

  /** The tenant ids that `tenantScopeIn` puts into its list; none if it prints FALSE. */
  function ScopeIds(data: Data, column: string): seq<string> {
    var ids := ValueOf(data, TENANT_IDS);
    if IsValid(column) && ids.Strings? then ids.list else []
  }

  /** The values that the placeholders of a call stand for, in order. */
  function Requested(data: Data, call: Call): seq<Datum> {
    match call
    case SqlVal(key) => [ValueOf(data, key)]
    case SqlList(key) => (match ValueOf(data, key) case Strings(list) => Plains(list) case value => [value])
    case TenantScopeIn(column) => Plains(ScopeIds(data, column))
  }

  /** `column IN (...)` */
  function ScopeFilter(column: string, ids: seq<string>): Filter { Listing(Field(column), false, ids) }

  /** The text a call returns when the last number handed out is `last`. */
  function Returned(data: Data, call: Call, last: nat): string {
    match call
    case SqlVal(_) => "$" + Decimal(last + 1)
    case SqlList(_) => TupleText(last + 1, |Requested(data, call)|)
    case TenantScopeIn(column) =>
      var ids := ScopeIds(data, column);
      if ids == [] then FALSE else FilterText(ScopeFilter(column, ids), last + 1)
  }

  class FuncRegistry {
    const TemplateData: Data
    var Args: seq<Datum>
    var next: nat

    constructor (data: Data)
      ensures TemplateData == data && Args == [] && Valid()
    {
      TemplateData := data;
      Args := [];
      next := 0;
    }

    predicate Valid()
      reads this
    {
      next == |Args|
    }

    method SqlVal(key: string) returns (text: string)
      requires Valid()
      modifies this
      ensures Valid() && Args == old(Args) + Requested(TemplateData, Call.SqlVal(key))
      ensures Args == old(Args) + [if key in TemplateData then TemplateData[key] else Nil]
      ensures text == Returned(TemplateData, Call.SqlVal(key), old(next))
    {
      var v := ValueOf(TemplateData, key);
      Args := Args + [v];
      next := next + 1;
      return "$" + Decimal(next);
    }

    /** One number for each element, and the texts of those numbers. */
    method TakeAll(list: seq<string>) returns (ph: seq<string>)
      requires Valid()
      modifies this
      ensures Valid() && Args == old(Args) + Plains(list) && ph == ParamTexts(old(next) + 1, |list|)
    {
      ph := [];
      var i := 0;
      while i < |list|
        invariant i <= |list| && next == old(next) + i
        invariant Args == old(Args) + Plains(list)[..i]
        invariant ph == ParamTexts(old(next) + 1, |list|)[..i]
      {
        Args := Args + [Plain(list[i])];
        next := next + 1;
        ph := ph + ["$" + Decimal(next)];
        i := i + 1;
      }
      assert Plains(list)[..i] == Plains(list);
    }

    method SqlList(key: string) returns (text: string)
      requires Valid()
      modifies this
      ensures Valid() && Args == old(Args) + Requested(TemplateData, Call.SqlList(key))
      ensures key in TemplateData && TemplateData[key].Strings? ==> Args == old(Args) + Plains(TemplateData[key].list)
      ensures key in TemplateData && !TemplateData[key].Strings? ==> Args == old(Args) + [TemplateData[key]]
      ensures key !in TemplateData ==> Args == old(Args) + [Nil]
      ensures text == Returned(TemplateData, Call.SqlList(key), old(next))
    {
      var value := ValueOf(TemplateData, key);
      if value.Strings? {
        var ph := TakeAll(value.list);
        return "(" + Join(ph, ",") + ")";
      }
      Args := Args + [value];
      next := next + 1;
      assert ParamTexts(next, 1) == ["$" + Decimal(next)];
      return "($" + Decimal(next) + ")";
    }

    method TenantScopeIn(column: string) returns (text: string)
      requires Valid()
      modifies this
      ensures Valid() && Args == old(Args) + Requested(TemplateData, Call.TenantScopeIn(column))
      ensures IsValid(column) && TENANT_IDS in TemplateData && TemplateData[TENANT_IDS].Strings? ==>
                Args == old(Args) + Plains(TemplateData[TENANT_IDS].list)
      ensures !IsValid(column) || TENANT_IDS !in TemplateData || !TemplateData[TENANT_IDS].Strings? ==>
                Args == old(Args) && text == FALSE
      ensures text == Returned(TemplateData, Call.TenantScopeIn(column), old(next))
    {
      hide IsValid, QuotedPath, Join, Path, HandQuoted;
      var quoted := Quote(column);
      if quoted.Err? {
        return FALSE;
      }
      var ids := ValueOf(TemplateData, TENANT_IDS);
      if !ids.Strings? || |ids.list| == 0 {
        return FALSE;
      }
      var placeholders := TakeAll(ids.list);
      assert quoted.value + " IN " + ("(" + Join(placeholders, ",") + ")") ==
             quoted.value + " " + "IN" + " (" + Join(placeholders, ",") + ")" by {
        ScopeText(quoted.value, Join(placeholders, ","));
      }
      HandQuotedIsQuote(column);
      return quoted.value + " IN " + ("(" + Join(placeholders, ",") + ")");
    }
  }

  lemma ScopeText(quoted: string, list: string)
    ensures quoted + " IN " + ("(" + list + ")") == quoted + " " + "IN" + " (" + list + ")"
  {
    assert " IN " + "(" == " " + "IN" + " (";
  }

  // ----- Whole runs -----

  /** What a run of calls returns, and the argument list after it. */
  function Run(data: Data, calls: seq<Call>, args: seq<Datum>): (seq<string>, seq<Datum>) {
    if calls == [] then ([], args)
    else
      var rest := Run(data, calls[1..], args + Requested(data, calls[0]));
      ([Returned(data, calls[0], |args|)] + rest.0, rest.1)
  }

  /** The numbers of the placeholders in a text, in order. */
  function NumbersOf(text: string): seq<nat> {
    match Lex(text) case None => [] case Some(ts) => ParamsOf(ts)
  }

  function AllNumbers(texts: seq<string>): seq<nat> {
    if texts == [] then [] else NumbersOf(texts[0]) + AllNumbers(texts[1..])
  }

  lemma ValueNumbers(pid: nat)
    ensures Lex("$" + Decimal(pid)) == Some([Param(pid)]) && NumbersOf("$" + Decimal(pid)) == Range(pid, 1)
  {
    assert "$" + Decimal(pid) + "" == "$" + Decimal(pid);
    LexParam(pid, "");
    assert [Param(pid)] + [] == [Param(pid)];
    assert ParamsOf([Param(pid)]) == Range(pid, 1) by {
      ParamTokensParams(pid, 1);
    }
  }

  lemma TupleNumbers(pid: nat, n: nat)
    ensures Lex(TupleText(pid, n)).Some? && NumbersOf(TupleText(pid, n)) == Range(pid, n)
  {
    hide TupleDoc, TupleText, ParamTokens, Render, Tokens, Readable, First, Last, Lex, ParamsOf, Range;
    TupleReads(pid, n);
    LexRender(TupleDoc(pid, n));
    var inner := ParamTokens(pid, n);
    ParamTokensParams(pid, n);
    NoParams([LPar]);
    NoParams([RPar]);
    ParamsConcat([LPar], inner);
    ParamsConcat([LPar] + inner, [RPar]);
    assert [] + Range(pid, n) + [] == Range(pid, n);
  }

  lemma ScopeNumbers(column: string, ids: seq<string>, pid: nat)
    requires IsValid(column) && ids != []
    ensures var text := FilterText(ScopeFilter(column, ids), pid); Lex(text).Some? && NumbersOf(text) == Range(pid, |ids|)
  {
    hide FilterDoc, FilterText, Render, Tokens, Readable, Lex, ParamsOf, Range, LeftDoc, OperatorDoc, ParamTokens, IsValid, FilterTokens.WellFormed;
    var f := ScopeFilter(column, ids);
    assert WellFormed(f) by { ScopeWellFormed(column, ids); }
    ListingReads(f.left, false, ids, pid);
    LexRender(FilterDoc(f, pid));
    FilterParams(f, pid);
    assert FilterValues(f) == ids;
  }

  lemma ScopeWellFormed(column: string, ids: seq<string>)
    requires IsValid(column) && ids != []
    ensures WellFormed(ScopeFilter(column, ids))
  {
  }

  /** A call's text is well formed and its placeholders are the next numbers, one for each
      requested value. */
  lemma CallNumbers(data: Data, call: Call, last: nat)
    ensures var text := Returned(data, call, last);
      Lex(text).Some? && NumbersOf(text) == Range(last + 1, |Requested(data, call)|)
  {
    hide Lex, NumbersOf, FilterText, TupleText, IsValid;
    match call
    case SqlVal(_) => ValueNumbers(last + 1);
    case SqlList(_) => TupleNumbers(last + 1, |Requested(data, call)|);
    case TenantScopeIn(column) =>
      var ids := ScopeIds(data, column);
      if ids == [] {
        FalseNumbers();
      } else {
        ScopeNumbers(column, ids, last + 1);
      }
  }

  lemma FalseNumbers()
    ensures Lex(FALSE) == Some([Word("false")]) && NumbersOf(FALSE) == []
  {
    assert FALSE + "" == FALSE;
    LexWord(FALSE, "");
    assert Lower(FALSE) == "false";
    assert [Word("false")] + [] == [Word("false")] && [Word("false")][1..] == [];
  }

  /** The values that are bound to some numbers. */
  function Bound(args: seq<Datum>, numbers: seq<nat>): (r: seq<Option<Datum>>)
    ensures |r| == |numbers|
    ensures forall i :: 0 <= i < |numbers| ==> r[i] == if 1 <= numbers[i] <= |args| then Some(args[numbers[i] - 1]) else None
  {
    seq(|numbers|, i requires 0 <= i < |numbers| => if 1 <= numbers[i] <= |args| then Some(args[numbers[i] - 1]) else None)
  }

  function Somes(values: seq<Datum>): (r: seq<Option<Datum>>)
    ensures |r| == |values| && forall i :: 0 <= i < |values| ==> r[i] == Some(values[i])
  {
    seq(|values|, i requires 0 <= i < |values| => Some(values[i]))
  }

  lemma {:induction false} RunFrom(data: Data, calls: seq<Call>, args: seq<Datum>)
    ensures var (texts, all) := Run(data, calls, args);
      && |texts| == |calls| && args <= all
      && AllNumbers(texts) == Range(|args| + 1, |all| - |args|)
      && forall k :: 0 <= k < |calls| ==>
           Lex(texts[k]).Some? && Bound(all, NumbersOf(texts[k])) == Somes(Requested(data, calls[k]))
    decreases |calls|
  {
    hide Lex, NumbersOf, Returned, Requested, Range;
    var (texts, all) := Run(data, calls, args);
    if calls == [] {
      assert Range(|args| + 1, 0) == [];
    } else {
      var want := Requested(data, calls[0]);
      var longer := args + want;
      var rest := Run(data, calls[1..], longer).0;
      RunFrom(data, calls[1..], longer);
      CallNumbers(data, calls[0], |args|);
      assert texts[0] == Returned(data, calls[0], |args|) && texts[1..] == rest;
      RangeConcat(|args| + 1, |want|, |all| - |longer|);
      FirstBound(args, want, all);
      forall k | 1 <= k < |calls|
        ensures Lex(texts[k]).Some? && Bound(all, NumbersOf(texts[k])) == Somes(Requested(data, calls[k]))
      {
        assert texts[k] == rest[k - 1] && calls[k] == calls[1..][k - 1];
      }
    }
  }

  lemma FirstBound(args: seq<Datum>, want: seq<Datum>, all: seq<Datum>)
    requires args + want <= all
    ensures Bound(all, Range(|args| + 1, |want|)) == Somes(want)
  {
  }

  /** In any run of calls on a fresh registry the placeholders, read in call order, are exactly
      1..|Args|, and each text's placeholders are bound to the values its call requested. */
  lemma AllocatorAligned(data: Data, calls: seq<Call>)
    ensures var (texts, all) := Run(data, calls, []);
      && |texts| == |calls| && AllNumbers(texts) == Range(1, |all|)
      && forall k :: 0 <= k < |calls| ==>
           Lex(texts[k]).Some? && Bound(all, NumbersOf(texts[k])) == Somes(Requested(data, calls[k]))
  {
    hide Run, NumbersOf, Lex, Requested;
    RunFrom(data, calls, []);
  }

  // ----- The meaning of the tenant predicate -----

  /** `holds` compares the column with a value as the row has it; no cell is NULL. */
  ghost predicate Equality(holds: Expr -> Truth, column: string, cell: Option<string>) {
    forall v :: holds(Binary("=", Column(Path(column)), Value(v))) == CellEquals(cell, v)
  }

  function CellEquals(cell: Option<string>, v: string): Truth {
    match cell case None => Unknown case Some(t) => if v == t then True else False
  }

  lemma FalseReads(reserved: set<string>)
    ensures ParseCondition(reserved, FALSE) == Some(Constant(false))
  {
    FalseNumbers();
    var ts := [Word("false")];
    assert ts[1..] == [];
    assert ParsePrimary(reserved, ts) == Done(Constant(false), []);
    assert ParseMatch(reserved, ts) == Done(Constant(false), []);
    assert ParseNot(reserved, ts) == Done(Constant(false), []);
    assert ParseAnd(reserved, ts) == Done(Constant(false), []);
  }

  lemma OneCall(data: Data, call: Call, args: seq<Datum>)
    ensures Run(data, [call], args) == ([Returned(data, call, |args|)], args + Requested(data, call))
  {
    hide Returned, Requested;
    var calls := [call];
    assert calls[1..] == [];
    assert Run(data, calls, args) == ([Returned(data, call, |args|)] + [], args + Requested(data, call));
    assert [Returned(data, call, |args|)] + [] == [Returned(data, call, |args|)];
  }

  /** `tenantScopeIn` on a valid column, where the data holds a list of tenant ids, appends exactly
      its elements, and its text with the placeholders bound to them is true on exactly the rows
      whose column is one of them, so not where it is NULL. In all other cases it appends nothing
      and is true of no row, whatever is bound. */
  lemma TenantScopeMeans(reserved: set<string>, data: Data, column: string, args: seq<Datum>, cell: Option<string>,
                         holds: Expr -> Truth, values: seq<string>)
    requires ServerWords(reserved) && Equality(holds, column, cell)
    ensures var (texts, all) := Run(data, [Call.TenantScopeIn(column)], args);
      && |texts| == 1
      && var parsed := ParseCondition(reserved, texts[0]);
        && parsed.Some?
        && (IsValid(column) && TENANT_IDS in data && data[TENANT_IDS].Strings? ==>
              var list := data[TENANT_IDS].list;
              && |all| == |args| + |list| && args <= all
              && (forall i :: 0 <= i < |list| ==> all[|args| + i] == Plain(list[i]))
              && (Eval(Bind(parsed.value, |args| + 1, list), holds) == True <==> cell.Some? && cell.value in list))
        && (!IsValid(column) || TENANT_IDS !in data || !data[TENANT_IDS].Strings? ==>
              all == args && Eval(Bind(parsed.value, |args| + 1, values), holds) == False)
  {
    hide ParseCondition, FilterText, IsValid, Run;
    var ids := ScopeIds(data, column);
    OneCall(data, Call.TenantScopeIn(column), args);
    if ids == [] {
      FalseReads(reserved);
    } else {
      ScopeReads(reserved, column, ids, |args| + 1);
      ScopeMember(column, ids, cell, holds);
    }
  }

  /** `sqlVal` appends the value under its key, nil if there is none, and returns its number. */
  lemma ValueMeans(data: Data, key: string, args: seq<Datum>)
    ensures var (texts, all) := Run(data, [Call.SqlVal(key)], args);
      && |texts| == 1 && Lex(texts[0]) == Some([Param(|all|)])
      && |all| == |args| + 1 && args <= all
      && all[|args|] == if key in data then data[key] else Nil
  {
    hide Run, Lex;
    OneCall(data, Call.SqlVal(key), args);
    ValueNumbers(|args| + 1);
  }

  /** `sqlList` appends the elements of a list of strings one by one, and any other value, nil for
      a missing key too, as a list of one; it returns the parenthesised numbers. */
  lemma ListMeans(data: Data, key: string, args: seq<Datum>)
    ensures var (texts, all) := Run(data, [Call.SqlList(key)], args);
      && |texts| == 1 && Lex(texts[0]).Some? && args <= all
      && ReadTuple(Lex(texts[0]).value) == Some((Range(|args| + 1, |all| - |args|), []))
      && (key in data && data[key].Strings? ==>
            |all| == |args| + |data[key].list| && forall i :: 0 <= i < |data[key].list| ==> all[|args| + i] == Plain(data[key].list[i]))
      && (key !in data || !data[key].Strings? ==>
            |all| == |args| + 1 && all[|args|] == if key in data then data[key] else Nil)
  {
    hide Run, Lex, TupleText, ReadTuple, Range;
    OneCall(data, Call.SqlList(key), args);
    TupleRoundTrip(|args| + 1, |Requested(data, Call.SqlList(key))|);
  }

  lemma ScopeReads(reserved: set<string>, column: string, ids: seq<string>, pid: nat)
    requires ServerWords(reserved) && IsValid(column) && ids != []
    ensures var parsed := ParseCondition(reserved, FilterText(ScopeFilter(column, ids), pid));
      parsed.Some? && Bind(parsed.value, pid, ids) == Meaning(ScopeFilter(column, ids))
  {
    hide ParseCondition, FilterText, IsValid, Bind, Meaning, FilterExpr;
    var f := ScopeFilter(column, ids);
    ScopeWellFormed(column, ids);
    assert WellPrinted(f, reserved) by { ScopeWellPrinted(reserved, column, ids); }
    WhereMeaning.OneFilterReads(reserved, f, pid);
  }

  lemma ScopeWellPrinted(reserved: set<string>, column: string, ids: seq<string>)
    requires IsValid(column)
    ensures WellPrinted(ScopeFilter(column, ids), reserved)
  {
  }

  lemma ScopeMember(column: string, ids: seq<string>, cell: Option<string>, holds: Expr -> Truth)
    requires Equality(holds, column, cell)
    ensures Eval(Meaning(ScopeFilter(column, ids)), holds) == True <==> cell.Some? && cell.value in ids
  {
    var left := Column(Path(column));
    var items := ValuesOf(ids);
    var tests := seq(|items|, i requires 0 <= i < |items| => holds(Binary("=", left, items[i])));
    Any3Is(tests);
    assert Eval(Meaning(ScopeFilter(column, ids)), holds) == Any3(tests);
    forall i | 0 <= i < |ids|
      ensures tests[i] == CellEquals(cell, ids[i])
    {
      assert items[i] == Value(ids[i]);
    }
  }
}
