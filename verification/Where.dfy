/** adapters/postgres/postgres.go, `WhereByRequest`: the condition of a request, with the
    identity scope first, one parenthesised disjunction of all `_or` parts last, and
    placeholders numbered in the order in which the filters are met. */
module Where {
  import opened Text
  import opened Ident
  import opened Filter
  import opened FilterTokens
  import opened Scope
  import OrGroup

  datatype Candidate = Candidate(inOr: bool, field: string, condition: string)
  datatype Item = Item(inOr: bool, filter: Filter)

  // ----- What the request asks for -----

  function PlainCandidates(key: string, vals: seq<string>): seq<Candidate> {
    if vals == [] then [] else [Candidate(false, key, vals[0])] + PlainCandidates(key, vals[1..])
  }

  /** strings.Index */
  function IndexOf(s: string, c: char): (n: int)
    ensures -1 <= n < |s|
  {
    if s == "" then -1
    else if s[0] == c then 0
    else var n := IndexOf(s[1..], c); if n < 0 then -1 else n + 1
  }

  /** One part of an `_or` value, field=condition; anything else is skipped. */
  function PartCandidate(part: string): seq<Candidate> {
    var p := Trim(part);
    var pos := IndexOf(p, '=');
    if pos <= 0 then [] else [Candidate(true, p[..pos], p[pos + 1..])]
  }

  function PartCandidates(parts: seq<string>): seq<Candidate> {
    if parts == [] then [] else PartCandidate(parts[0]) + PartCandidates(parts[1..])
  }

  function OrCandidates(vals: seq<string>): seq<Candidate> {
    if vals == [] then [] else PartCandidates(OrGroup.SplitOrGroup(Trim(vals[0]))) + OrCandidates(vals[1..])
  }

  function EntryCandidates(entry: (string, seq<string>)): seq<Candidate> {
    if !("_" <= entry.0) then PlainCandidates(entry.0, entry.1)
    else if entry.0 == "_or" then OrCandidates(entry.1)
    else []
  }

  function Candidates(query: seq<(string, seq<string>)>): seq<Candidate> {
    if query == [] then [] else EntryCandidates(query[0]) + Candidates(query[1..])
  }

  /** Compiling one after the other, and stopping at the first error. */
  function Then(a: Result<seq<Item>, Error>, b: Result<seq<Item>, Error>): Result<seq<Item>, Error> {
    match a
    case Err(e) => Err(e)
    case Ok(items) => (match b case Err(e) => Err(e) case Ok(more) => Ok(items + more))
  }

  function CompileOne(c: Candidate): Result<seq<Item>, Error> {
    match Compile(c.field, c.condition)
    case Err(e) => Err(e)
    case Ok(f) => Ok([Item(c.inOr, f)])
  }

  /** All the filters, or the first error. */
  function CompileAll(cands: seq<Candidate>): Result<seq<Item>, Error> {
    if cands == [] then Ok([]) else Then(CompileOne(cands[0]), CompileAll(cands[1..]))
  }

  function ScopeItems(config: Config, req: Request): seq<Item> {
    var fs := ScopeFilters(config, req);
    seq(|fs|, i requires 0 <= i < |fs| => Item(false, fs[i]))
  }

  function Items(config: Config, req: Request): Result<seq<Item>, Error> {
    match CompileAll(Candidates(req.query))
    case Err(e) => Err(e)
    case Ok(items) => Ok(ScopeItems(config, req) + items)
  }

  // ----- How it is printed -----

  /** A printed filter and the values for its placeholders. */
  datatype Printed = Printed(inOr: bool, text: string, values: seq<string>)

  function PrintItem(item: Item, pid: nat): Printed {
    Printed(item.inOr, FilterText(item.filter, pid), FilterValues(item.filter))
  }

  function Print(items: seq<Item>, pid: nat): seq<Printed> {
    if items == [] then []
    else
      var p := PrintItem(items[0], pid);
      [p] + Print(items[1..], pid + |p.values|)
  }

  function Texts(ps: seq<Printed>, inOr: bool): seq<string> {
    if ps == [] then [] else (if ps[0].inOr == inOr then [ps[0].text] else []) + Texts(ps[1..], inOr)
  }

  function Values(ps: seq<Printed>): seq<string> {
    if ps == [] then [] else ps[0].values + Values(ps[1..])
  }

  function ClauseTexts(plain: seq<string>, alternatives: seq<string>): seq<string> {
    plain + if alternatives == [] then [] else ["(" + Join(alternatives, " OR ") + ")"]
  }

  function WhereText(items: seq<Item>, pid: nat): string {
    Join(ClauseTexts(Texts(Print(items, pid), false), Texts(Print(items, pid), true)), " AND ")
  }

  function WhereValues(items: seq<Item>, pid: nat): seq<string> { Values(Print(items, pid)) }

  // ----- The loops -----

  /** The local variables of the loops. */
  datatype Clauses = Clauses(whereKey: seq<string>, whereValues: seq<string>, orClauses: seq<string>, pid: nat)

  function Extend(c: Clauses, ps: seq<Printed>): Clauses {
    Clauses(c.whereKey + Texts(ps, false), c.whereValues + Values(ps), c.orClauses + Texts(ps, true), c.pid + |Values(ps)|)
  }

  /** Adding the filters of `cands` to `c`, or the first error. */
  function Collect(c: Clauses, cands: seq<Candidate>): Result<Clauses, Error> { Add(c, CompileAll(cands)) }

  function Add(c: Clauses, compiled: Result<seq<Item>, Error>): Result<Clauses, Error> {
    match compiled
    case Err(e) => Err(e)
    case Ok(items) => Ok(Extend(c, Print(items, c.pid)))
  }

  lemma {:induction false} TextsConcat(a: seq<Printed>, b: seq<Printed>, inOr: bool)
    ensures Texts(a + b, inOr) == Texts(a, inOr) + Texts(b, inOr)
  {
    if a == [] {
      assert a + b == b;
    } else {
      TextsConcat(a[1..], b, inOr);
      assert (a + b)[1..] == a[1..] + b && (a + b)[0] == a[0];
      Associative(if a[0].inOr == inOr then [a[0].text] else [], Texts(a[1..], inOr), Texts(b, inOr));
    }
  }

  lemma {:induction false} ValuesConcat(a: seq<Printed>, b: seq<Printed>)
    ensures Values(a + b) == Values(a) + Values(b)
  {
    if a == [] {
      assert a + b == b;
    } else {
      ValuesConcat(a[1..], b);
      assert (a + b)[1..] == a[1..] + b && (a + b)[0] == a[0];
      Associative(a[0].values, Values(a[1..]), Values(b));
    }
  }

  lemma {:induction false} PrintConcat(a: seq<Item>, b: seq<Item>, pid: nat)
    ensures Print(a + b, pid) == Print(a, pid) + Print(b, pid + |Values(Print(a, pid))|)
  {
    hide FilterText, FilterValues, PrintItem, Values, Print;
    if a == [] {
      assert a + b == b;
      NoValues(pid);
      assert [] + Print(b, pid) == Print(b, pid);
    } else {
      var p := PrintItem(a[0], pid);
      var rest := Print(a[1..], pid + |p.values|);
      PrintConcat(a[1..], b, pid + |p.values|);
      assert a + b == [a[0]] + (a[1..] + b) && a == [a[0]] + a[1..];
      PrintHead(a[0], a[1..] + b, pid);
      PrintHead(a[0], a[1..], pid);
      ValuesHead(p, rest);
      Associative([p], rest, Print(b, pid + |p.values| + |Values(rest)|));
    }
  }

  lemma NoValues(pid: nat)
    ensures Values([]) == [] && Print([], pid) == []
  {
  }

  lemma PrintHead(item: Item, rest: seq<Item>, pid: nat)
    ensures Print([item] + rest, pid) == [PrintItem(item, pid)] + Print(rest, pid + |PrintItem(item, pid).values|)
  {
    hide PrintItem;
    assert ([item] + rest)[1..] == rest;
  }

  lemma ValuesHead(p: Printed, rest: seq<Printed>)
    ensures Values([p] + rest) == p.values + Values(rest)
  {
    assert ([p] + rest)[1..] == rest;
  }

  lemma ThenAssociative(a: Result<seq<Item>, Error>, b: Result<seq<Item>, Error>, c: Result<seq<Item>, Error>)
    ensures Then(a, Then(b, c)) == Then(Then(a, b), c)
  {
    if a.Ok? && b.Ok? && c.Ok? {
      Associative(a.value, b.value, c.value);
    }
  }

  lemma {:induction false} CompileAllConcat(a: seq<Candidate>, b: seq<Candidate>)
    ensures CompileAll(a + b) == Then(CompileAll(a), CompileAll(b))
  {
    hide CompileOne;
    if a == [] {
      assert a + b == b;
      if CompileAll(b).Ok? {
        assert [] + CompileAll(b).value == CompileAll(b).value;
      }
    } else {
      CompileAllConcat(a[1..], b);
      assert (a + b)[1..] == a[1..] + b && (a + b)[0] == a[0];
      ThenAssociative(CompileOne(a[0]), CompileAll(a[1..]), CompileAll(b));
    }
  }

  lemma ExtendTwice(c: Clauses, a: seq<Printed>, b: seq<Printed>)
    ensures Extend(Extend(c, a), b) == Extend(c, a + b)
  {
    TextsConcat(a, b, false);
    TextsConcat(a, b, true);
    ValuesConcat(a, b);
    Associative(c.whereKey, Texts(a, false), Texts(b, false));
    Associative(c.orClauses, Texts(a, true), Texts(b, true));
    Associative(c.whereValues, Values(a), Values(b));
  }

  lemma AddThen(c: Clauses, a: Result<seq<Item>, Error>, b: Result<seq<Item>, Error>)
    ensures Add(c, Then(a, b)) == match Add(c, a) case Err(e) => Err(e) case Ok(mid) => Add(mid, b)
  {
    hide FilterText, FilterValues;
    if a.Ok? && b.Ok? {
      PrintConcat(a.value, b.value, c.pid);
      ExtendTwice(c, Print(a.value, c.pid), Print(b.value, c.pid + |Values(Print(a.value, c.pid))|));
    }
  }

  lemma AddNothing(c: Clauses)
    ensures Add(c, Ok([])) == Ok(c)
  {
    assert c.whereKey + [] == c.whereKey && c.whereValues + [] == c.whereValues && c.orClauses + [] == c.orClauses;
  }

  /** Collecting goes on where it got to, or stops at an error. */
  lemma CollectAppend(c: Clauses, a: seq<Candidate>, b: seq<Candidate>)
    ensures Collect(c, a + b) == match Collect(c, a) case Err(e) => Err(e) case Ok(mid) => Collect(mid, b)
  {
    hide CompileOne, FilterText, FilterValues;
    CompileAllConcat(a, b);
    AddThen(c, CompileAll(a), CompileAll(b));
  }

  lemma CollectOne(c: Clauses, cand: Candidate)
    ensures Collect(c, [cand]) == Add(c, CompileOne(cand))
  {
    hide CompileOne;
    assert [cand][1..] == [] && CompileAll([]) == Ok([]);
    assert CompileAll([cand]) == Then(CompileOne(cand), Ok([]));
    if CompileOne(cand).Ok? {
      assert CompileOne(cand).value + [] == CompileOne(cand).value;
    }
  }

  lemma ExtendOne(c: Clauses, p: Printed)
    ensures Extend(c, [p]) ==
            Clauses(if p.inOr then c.whereKey else c.whereKey + [p.text], c.whereValues + p.values,
                    if p.inOr then c.orClauses + [p.text] else c.orClauses, c.pid + |p.values|)
  {
    assert [p][1..] == [] && Values([p]) == p.values + [] == p.values;
    assert Texts([p], p.inOr) == [p.text] && Texts([p], !p.inOr) == [];
    assert c.whereKey + [] == c.whereKey && c.orClauses + [] == c.orClauses;
  }

  /** What a compiled filter adds. */
  lemma AddOne(c: Clauses, item: Item)
    ensures Add(c, Ok([item])) == Ok(Extend(c, [PrintItem(item, c.pid)]))
  {
    hide FilterText, FilterValues;
    var p := PrintItem(item, c.pid);
    assert [item][1..] == [] && Print([], c.pid + |p.values|) == [];
    assert Print([item], c.pid) == [p] + [] == [p];
  }

  method AddCandidate(c: Clauses, inOr: bool, field: string, condition: string) returns (r: Result<Clauses, Error>)
    ensures r == Collect(c, [Candidate(inOr, field, condition)])
  {
    hide Compile, FilterText, FilterValues;
    CollectOne(c, Candidate(inOr, field, condition));
    var printed, next := WhereKeyAndValue(field, condition, c.pid);
    match printed
    case Err(e) =>
      r := Err(e);
    case Ok((k, vls)) =>
      ghost var item := Item(inOr, Compile(field, condition).value);
      AddOne(c, item);
      ExtendOne(c, PrintItem(item, c.pid));
      if inOr {
        r := Ok(Clauses(c.whereKey, c.whereValues + vls, c.orClauses + [k], next));
      } else {
        r := Ok(Clauses(c.whereKey + [k], c.whereValues + vls, c.orClauses, next));
      }
  }

  method CollectPlain(c: Clauses, key: string, vals: seq<string>) returns (r: Result<Clauses, Error>)
    ensures r == Collect(c, PlainCandidates(key, vals))
  {
    hide Collect;
    var acc := c;
    assert vals[0..] == vals;
    for i := 0 to |vals|
      invariant Collect(acc, PlainCandidates(key, vals[i..])) == Collect(c, PlainCandidates(key, vals))
    {
      assert vals[i..][1..] == vals[i + 1..];
      CollectAppend(acc, [Candidate(false, key, vals[i])], PlainCandidates(key, vals[i + 1..]));
      r := AddCandidate(acc, false, key, vals[i]);
      if r.Err? {
        return;
      }
      acc := r.value;
    }
    CollectNone(acc);
    return Ok(acc);
  }

  lemma CollectNone(c: Clauses)
    ensures Collect(c, []) == Ok(c)
  {
    AddNothing(c);
  }

  /** The parts of one `_or` value. */
  method CollectParts(c: Clauses, v: string) returns (r: Result<Clauses, Error>)
    ensures r == Collect(c, PartCandidates(OrGroup.SplitOrGroup(v)))
  {
    hide Collect, OrGroup.SplitOrGroup, IndexOf, Trim, PartCandidate;
    var acc := c;
    var parts := OrGroup.SplitTopLevelOrGroup(v);
    assert parts[0..] == parts;
    for i := 0 to |parts|
      invariant Collect(acc, PartCandidates(parts[i..])) == Collect(c, PartCandidates(parts))
    {
      assert parts[i..][1..] == parts[i + 1..];
      CollectAppend(acc, PartCandidate(parts[i]), PartCandidates(parts[i + 1..]));
      CollectNone(acc);
      var part := Trim(parts[i]);
      PartIs(parts[i]);
      if part == "" {
        continue;
      }
      var pos := IndexOf(part, '=');
      if pos <= 0 {
        continue;
      }
      var field := part[..pos];
      var condition := part[pos + 1..];
      r := AddCandidate(acc, true, field, condition);
      if r.Err? {
        return;
      }
      acc := r.value;
    }
    CollectNone(acc);
    return Ok(acc);
  }

  lemma PartIs(part: string)
    ensures var p := Trim(part);
      PartCandidate(part) == if p == "" || IndexOf(p, '=') <= 0 then []
                             else [Candidate(true, p[..IndexOf(p, '=')], p[IndexOf(p, '=') + 1..])]
  {
  }

  lemma NoParts()
    ensures PartCandidates(OrGroup.SplitOrGroup("")) == []
  {
  }

  method CollectOr(c: Clauses, vals: seq<string>) returns (r: Result<Clauses, Error>)
    ensures r == Collect(c, OrCandidates(vals))
  {
    hide Collect, OrGroup.SplitOrGroup, PartCandidates, Trim;
    var acc := c;
    assert vals[0..] == vals;
    for i := 0 to |vals|
      invariant Collect(acc, OrCandidates(vals[i..])) == Collect(c, OrCandidates(vals))
    {
      var v := Trim(vals[i]);
      assert vals[i..][1..] == vals[i + 1..];
      CollectAppend(acc, PartCandidates(OrGroup.SplitOrGroup(v)), OrCandidates(vals[i + 1..]));
      if v == "" {
        NoParts();
        CollectNone(acc);
        continue;
      }
      r := CollectParts(acc, v);
      if r.Err? {
        return;
      }
      acc := r.value;
    }
    CollectNone(acc);
    return Ok(acc);
  }

  method CollectQuery(c: Clauses, query: seq<(string, seq<string>)>) returns (r: Result<Clauses, Error>)
    ensures r == Collect(c, Candidates(query))
  {
    hide Collect, PlainCandidates, OrCandidates;
    var acc := c;
    assert query[0..] == query;
    for i := 0 to |query|
      invariant Collect(acc, Candidates(query[i..])) == Collect(c, Candidates(query))
    {
      var key, val := query[i].0, query[i].1;
      assert query[i..][1..] == query[i + 1..];
      CollectAppend(acc, EntryCandidates(query[i]), Candidates(query[i + 1..]));
      CollectNone(acc);
      if !("_" <= key) {
        r := CollectPlain(acc, key, val);
        if r.Err? {
          return;
        }
        acc := r.value;
      } else if key == "_or" {
        r := CollectOr(acc, val);
        if r.Err? {
          return;
        }
        acc := r.value;
      }
    }
    CollectNone(acc);
    return Ok(acc);
  }

  lemma FilterTextNonEmpty(f: Filter, pid: nat)
    ensures FilterText(f, pid) != ""
  {
    assert ' ' in FilterText(f, pid) by {
      match f
      case Search(field, config, query) => assert SearchText(field, config, query)[|field|] == ' ';
      case _ => assert FilterText(f, pid)[|LeftText(f.left)|] == ' ';
    }
  }

  lemma {:induction false} TextsNonEmpty(items: seq<Item>, pid: nat, inOr: bool)
    ensures forall t :: t in Texts(Print(items, pid), inOr) ==> t != ""
  {
    hide FilterText, FilterValues;
    if items != [] {
      var p := PrintItem(items[0], pid);
      FilterTextNonEmpty(items[0].filter, pid);
      TextsNonEmpty(items[1..], pid + |p.values|, inOr);
      assert Print(items, pid)[1..] == Print(items[1..], pid + |p.values|);
    }
  }

  /** Joining with AND, one clause after the other. */
  method JoinClauses(whereKey: seq<string>) returns (whereSyntax: string)
    requires forall k :: k in whereKey ==> k != ""
    ensures whereSyntax == Join(whereKey, " AND ")
  {
    whereSyntax := "";
    for i := 0 to |whereKey|
      invariant whereSyntax == Join(whereKey[..i], " AND ")
    {
      NextPart(whereKey, i, " AND ");
      if whereSyntax == "" {
        whereSyntax := whereSyntax + whereKey[i];
      } else {
        whereSyntax := whereSyntax + (" AND " + whereKey[i]);
      }
    }
    assert whereKey[..|whereKey|] == whereKey;
  }

  /** `%s = $%d` */
  lemma EqualsText(column: string, value: string, pid: nat)
    ensures FilterText(Equals(column, value), pid) == QuotedName(column) + " = $" + Decimal(pid)
    ensures FilterValues(Equals(column, value)) == [value]
  {
    var q := QuotedName(column);
    assert " " + "=" + " $" == " = $";
    assert q + " " + "=" + " $" == q + (" " + "=" + " $");
  }

  lemma IsNullText(column: string, pid: nat)
    ensures FilterText(Test(Field(column), false, "null"), pid) == QuotedName(column) + " IS NULL"
    ensures FilterValues(Test(Field(column), false, "null")) == []
  {
    assert "IS " + "NULL" == "IS NULL" && " " + "IS NULL" == " IS NULL";
    assert QuotedName(column) + " " + "IS NULL" == QuotedName(column) + (" " + "IS NULL");
  }

  method QuoteColumn(column: string) returns (quoted: string)
    ensures quoted == QuotedName(column)
  {
    var r := Quote(column);
    quoted := if r.Ok? then r.value else "";
  }

  method AddScope(config: Config, req: Request, start: Clauses) returns (c: Clauses)
    ensures c == Extend(start, Print(ScopeItems(config, req), start.pid))
  {
    hide FilterText, FilterValues, QuotedName, ResolveTenantCompat, ResolveUserIDColumn;
    var whereKey, whereValues, pid := start.whereKey, start.whereValues, start.pid;
    var compat := ResolveTenantCompat(config, req.path);
    AddNothing(start);
    if compat == None {
      if req.userId != "" {
        var column := ResolveUserIDColumn(config, req.path);
        if column != "" {
          var quoted := QuoteColumn(column);
          c := AddEquals(start, column, quoted, req.userId);
          ScopeOne(config, req, Equals(column, req.userId));
          return;
        }
      }
    } else {
      var wsCol := QuoteColumn(compat.value.tenantColumn);
      var usrCol := QuoteColumn(compat.value.userColumn);
      if req.tenantId != "" {
        c := AddEquals(start, compat.value.tenantColumn, wsCol, req.tenantId);
        ScopeOne(config, req, Equals(compat.value.tenantColumn, req.tenantId));
        return;
      } else if req.userId != "" {
        c := AddEquals(start, compat.value.userColumn, usrCol, req.userId);
        ghost var first := Item(false, Equals(compat.value.userColumn, req.userId));
        ghost var second := Item(false, Test(Field(compat.value.tenantColumn), false, "null"));
        IsNullText(compat.value.tenantColumn, c.pid);
        AddOne(c, second);
        ExtendOne(c, PrintItem(second, c.pid));
        assert c.whereValues + [] == c.whereValues;
        AddThen(start, Ok([first]), Ok([second]));
        c := Clauses(c.whereKey + [wsCol + " IS NULL"], c.whereValues, c.orClauses, c.pid);
        assert ScopeItems(config, req) == [first, second] == [first] + [second];
        return;
      }
    }
    assert ScopeItems(config, req) == [];
    c := start;
  }

  lemma ScopeOne(config: Config, req: Request, f: Filter)
    requires ScopeFilters(config, req) == [f]
    ensures ScopeItems(config, req) == [Item(false, f)]
  {
  }

  method AddEquals(c: Clauses, ghost column: string, quoted: string, value: string) returns (r: Clauses)
    requires quoted == QuotedName(column)
    ensures Ok(r) == Add(c, Ok([Item(false, Equals(column, value))]))
  {
    hide FilterText, FilterValues, QuotedName;
    ghost var item := Item(false, Equals(column, value));
    EqualsText(column, value, c.pid);
    AddOne(c, item);
    ExtendOne(c, PrintItem(item, c.pid));
    r := Clauses(c.whereKey + [quoted + " = $" + Decimal(c.pid)], c.whereValues + [value], c.orClauses, c.pid + 1);
  }

  method WhereByRequest(config: Config, req: Request, initial: nat) returns (r: Result<(string, seq<string>), Error>)
    ensures match Items(config, req)
            case Err(e) => r == Err(e)
            case Ok(items) => r == Ok((WhereText(items, initial), WhereValues(items, initial)))
  {
    hide FilterText, FilterValues, Candidates, CompileAll, ScopeItems;
    var start := Clauses([], [], [], initial);
    var c := AddScope(config, req, start);
    var collected := CollectQuery(c, req.query);
    AddThen(start, Ok(ScopeItems(config, req)), CompileAll(Candidates(req.query)));
    if collected.Err? {
      return Err(collected.error);
    }
    var whereKey := collected.value.whereKey;
    ghost var items := Items(config, req).value;
    assert collected.value == Extend(start, Print(items, initial));
    ExtendStart(initial, Print(items, initial));
    if |collected.value.orClauses| > 0 {
      whereKey := whereKey + ["(" + Join(collected.value.orClauses, " OR ") + ")"];
    } else {
      assert whereKey + [] == whereKey;
    }
    TextsNonEmpty(items, initial, false);
    var whereSyntax := JoinClauses(whereKey);
    return Ok((whereSyntax, collected.value.whereValues));
  }

  lemma ExtendStart(pid: nat, ps: seq<Printed>)
    ensures Extend(Clauses([], [], [], pid), ps) == Clauses(Texts(ps, false), Values(ps), Texts(ps, true), pid + |Values(ps)|)
  {
    assert [] + Texts(ps, false) == Texts(ps, false) && [] + Texts(ps, true) == Texts(ps, true) && [] + Values(ps) == Values(ps);
  }
}
