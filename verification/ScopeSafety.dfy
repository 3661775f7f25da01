/** Inserts land in the scope that reads are confined to, and different scopes share no rows:
    adapters/postgres/postgres.go, `ParseInsertRequest` and the scope of `WhereByRequest`. */
module ScopeSafety {
  import opened Text
  import opened Ident
  import opened SqlLexer
  import opened SqlCondition
  import opened FilterReading
  import opened FilterTokens
  import opened Scope
  import opened Where
  import opened WhereMeaning
  import opened Inserts
  import WhereOrder
  import Filter

  datatype InsertError = BodyEmpty | BadColumn

  datatype Insert = Insert(columns: string, placeholders: string, values: seq<Cell>)

  type Body = map<string, Cell>

  /** The columns forced to the caller's identity, whatever the client sent. */
  function Forced(config: Config, req: Request, body: Body): Body {
    if req.userId == "" then body
    else
      match ResolveTenantCompat(config, req.path)
      case Some(c) =>
        body[c.userColumn := Scalar(req.userId)]
            [c.tenantColumn := if req.tenantId != "" then Scalar(req.tenantId) else Null]
      case None =>
        var column := ResolveUserIDColumn(config, req.path);
        if column != "" then body[column := Scalar(req.userId)] else body
  }

  function CellsOf(order: seq<string>, body: Body): (r: seq<Cell>)
    requires forall k :: k in order ==> k in body
    ensures |r| == |order| && forall i :: 0 <= i < |order| ==> r[i] == Encoded(body[order[i]])
  {
    seq(|order|, i requires 0 <= i < |order| => assert order[i] in order; Encoded(body[order[i]]))
  }

  /** The columns that carry the caller's identity. */
  function IdentityColumns(config: Config, req: Request): set<string> {
    if req.userId == "" then {}
    else
      match ResolveTenantCompat(config, req.path)
      case Some(c) => {c.userColumn, c.tenantColumn}
      case None => {ResolveUserIDColumn(config, req.path)} - {""}
  }

  /** An order in which the map may yield its keys once the columns are forced. */
  ghost predicate InsertOrder(config: Config, req: Request, sent: Body, order: seq<string>) {
    && (forall k :: k in order <==> k in sent || k in IdentityColumns(config, req))
    && forall i, j :: 0 <= i < j < |order| ==> order[i] != order[j]
  }

  lemma ForcedKeys(config: Config, req: Request, sent: Body)
    ensures Forced(config, req, sent).Keys == sent.Keys + IdentityColumns(config, req)
  {
    hide ResolveTenantCompat, ResolveUserIDColumn;
  }

  ghost function InsertOf(config: Config, req: Request, sent: Body, order: seq<string>): Result<Insert, InsertError>
    requires InsertOrder(config, req, sent, order)
  {
    ForcedKeys(config, req, sent);
    if sent == map[] then Err(BodyEmpty)
    else if exists k :: k in order && !IsValid(k) then Err(BadColumn)
    else Ok(Insert(Join(ColumnTexts(order), ", "), TupleText(1, |order|), CellsOf(order, Forced(config, req, sent))))
  }

  /** The loop over the body: quoted names and values to bind. */
  method FieldsAndValues(body: Body, order: seq<string>) returns (r: Result<(seq<string>, seq<Cell>), InsertError>)
    requires forall k :: k in order ==> k in body
    ensures r == if exists k :: k in order && !IsValid(k) then Err(BadColumn) else Ok((ColumnTexts(order), CellsOf(order, body)))
  {
    hide IsValid, Encoded;
    var fields, values := [], [];
    for i := 0 to |order|
      invariant fields == ColumnTexts(order)[..i] && values == CellsOf(order, body)[..i]
      invariant forall j :: 0 <= j < i ==> IsValid(order[j])
    {
      assert order[i] in order;
      if !IsValid(order[i]) {
        return Err(BadColumn);
      }
      fields := fields + ["\"" + order[i] + "\""];
      values := values + [Encoded(body[order[i]])];
    }
    assert fields == ColumnTexts(order) && values == CellsOf(order, body);
    return Ok((fields, values));
  }

  method ParseInsertRequest(config: Config, req: Request, sent: Body, order: seq<string>)
      returns (r: Result<Insert, InsertError>)
    requires InsertOrder(config, req, sent, order)
    ensures r == InsertOf(config, req, sent, order)
  {
    hide IsValid, TupleText, ResolveTenantCompat, ResolveUserIDColumn, Join, Encoded, IdentityColumns, ColumnTexts, CellsOf;
    ForcedKeys(config, req, sent);
    if |sent| == 0 {
      return Err(BodyEmpty);
    }
    var body := sent;
    if req.userId != "" {
      var compat := ResolveTenantCompat(config, req.path);
      if compat.Some? {
        body := body[compat.value.userColumn := Scalar(req.userId)];
        if req.tenantId != "" {
          body := body[compat.value.tenantColumn := Scalar(req.tenantId)];
        } else {
          body := body[compat.value.tenantColumn := Null];
        }
      } else {
        var column := ResolveUserIDColumn(config, req.path);
        if column != "" {
          body := body[column := Scalar(req.userId)];
        }
      }
    }
    assert body == Forced(config, req, sent);
    var listed := FieldsAndValues(body, order);
    if listed.Err? {
      return Err(listed.error);
    }
    var (fields, values) := listed.value;
    var colsValue := CreatePlaceholders(1, |values|);
    return Ok(Insert(Join(fields, ", "), colsValue, values));
  }

  // ----- The row an insert statement builds -----

  type Row = map<string, Cell>

  /** The row of `INSERT INTO t(columns) VALUES(tuple)` with `$n` bound to the n-th value. */
  function RowOf(insert: Insert): Option<Row> {
    match (Lex(insert.columns), Lex(insert.placeholders))
    case (Some(cs), Some(ps)) =>
      (match (ReadColumns(cs), ReadTuple(ps))
       case (Some(columns), Some((numbers, rest))) =>
         if rest == [] && |columns| == |numbers| && forall n :: n in numbers ==> 1 <= n <= |insert.values| then
           Some(RowFrom(columns, numbers, insert.values))
         else None
       case _ => None)
    case _ => None
  }

  function RowFrom(columns: seq<string>, numbers: seq<nat>, values: seq<Cell>): Row
    requires |columns| == |numbers| && forall n :: n in numbers ==> 1 <= n <= |values|
  {
    if columns == [] then map[]
    else
      assert numbers[0] in numbers && forall n :: n in numbers[1..] ==> n in numbers;
      RowFrom(columns[1..], numbers[1..], values)[columns[0] := values[numbers[0] - 1]]
  }

  lemma {:induction false} RowFromBody(order: seq<string>, from: nat, body: Body, values: seq<Cell>)
    requires forall k :: k in order ==> k in body
    requires forall i, j :: 0 <= i < j < |order| ==> order[i] != order[j]
    requires from + |order| == |values| && values[from..] == CellsOf(order, body)
    ensures RowFrom(order, Range(from + 1, |order|), values) == map k | k in order :: Encoded(body[k])
  {
    var numbers := Range(from + 1, |order|);
    if order == [] {
      assert RowFrom(order, numbers, values) == map[];
    } else {
      assert numbers[1..] == Range(from + 2, |order| - 1);
      assert values[from + 1..] == CellsOf(order[1..], body) by {
        assert values[from..][1..] == values[from + 1..];
      }
      assert forall k :: k in order <==> k == order[0] || k in order[1..];
      RowFromBody(order[1..], from + 1, body, values);
      assert values[from] == values[from..][0];
    }
  }

  lemma RowOfRead(insert: Insert, columns: seq<string>)
    requires Lex(insert.columns).Some? && ReadColumns(Lex(insert.columns).value) == Some(columns)
    requires Lex(insert.placeholders).Some?
    requires ReadTuple(Lex(insert.placeholders).value) == Some((Range(1, |columns|), []))
    requires |insert.values| == |columns|
    ensures RowOf(insert) == Some(RowFrom(columns, Range(1, |columns|), insert.values))
  {
    var numbers := Range(1, |columns|);
    assert |numbers| == |columns| && forall n :: n in numbers ==> 1 <= n <= |insert.values|;
  }

  /** The statement builds exactly the row of the forced body. */
  lemma InsertedRow(body: Body, order: seq<string>)
    requires Yields(order, body) && body != map[] && forall k :: k in order ==> IsValid(k)
    ensures RowOf(Insert(Join(ColumnTexts(order), ", "), TupleText(1, |order|), CellsOf(order, body))) ==
            Some(map k | k in body :: Encoded(body[k]))
  {
    hide Lex, ReadColumns, ReadTuple, TupleText, RowOf, IsValid, RowFrom, Encoded;
    assert order != [] by {
      var k :| k in body;
      assert k in order;
    }
    forall k | k in order
      ensures Unquoted(k)
    {
      NoQuotes(k);
    }
    ColumnsRoundTrip(order, true);
    TupleRoundTrip(1, |order|);
    var values := CellsOf(order, body);
    assert values[0..] == values;
    RowFromBody(order, 0, body, values);
    RowOfRead(Insert(Join(ColumnTexts(order), ", "), TupleText(1, |order|), values), order);
    assert (map k | k in order :: Encoded(body[k])) == map k | k in body :: Encoded(body[k]);
  }

  lemma NoQuotes(name: string)
    requires IsValid(name)
    ensures Unquoted(name)
  {
    ValidExactly(name);
    JoinSplit(name, '.');
    NoQuotesInJoin(Split(name, "."));
  }

  lemma {:induction false} NoQuotesInJoin(parts: seq<string>)
    requires forall p :: p in parts ==> '"' !in p
    ensures '"' !in Join(parts, ".")
  {
    if |parts| > 1 {
      NoQuotesInJoin(parts[1..]);
      assert parts[0] in parts;
    } else if |parts| == 1 {
      assert parts[0] in parts;
    }
  }

  // ----- Scopes on rows -----

  /** `holds` gives equality and IS NULL their meaning on the columns of `row`; what it says
      of other comparisons is arbitrary. */
  ghost predicate Interprets(holds: Expr -> Truth, row: Row) {
    && (forall c, v :: c in row ==>
          holds(Binary("=", Column([c]), Value(v))) ==
          match row[c] case Null => Unknown case Scalar(t) => (if t == v then True else False) case Array(_) => Unknown)
    && (forall c :: c in row ==> holds(Is(false, Column([c]), "null")) == if row[c] == Null then True else False)
  }

  /** One identifier, not a dotted path. */
  predicate Simple(column: string) { '.' !in column }

  lemma SimplePath(column: string)
    requires Simple(column)
    ensures Path(column) == [column]
  {
    SplitPlain(column, '.');
  }

  /** What each filter of a request's scope is on a row. */
  function ScopeTruths(config: Config, req: Request, holds: Expr -> Truth): (r: seq<Truth>)
    ensures |r| == |ScopeItems(config, req)|
    ensures forall i :: 0 <= i < |r| ==> r[i] == Eval(Meaning(ScopeItems(config, req)[i].filter), holds)
  {
    var items := ScopeItems(config, req);
    seq(|items|, i requires 0 <= i < |items| => Eval(Meaning(items[i].filter), holds))
  }

  /** The columns a request's scope speaks of are single identifiers, and distinct. */
  predicate PlainScope(config: Config, req: Request) {
    match ResolveTenantCompat(config, req.path)
    case Some(c) => Simple(c.userColumn) && Simple(c.tenantColumn) && c.userColumn != c.tenantColumn
    case None => Simple(ResolveUserIDColumn(config, req.path))
  }

  lemma EqualsTruth(column: string, value: string, holds: Expr -> Truth)
    requires Simple(column)
    ensures Eval(Meaning(Equals(column, value)), holds) == holds(Binary("=", Column([column]), Value(value)))
  {
    SimplePath(column);
  }

  lemma NullTruth(column: string, holds: Expr -> Truth)
    requires Simple(column)
    ensures Eval(Meaning(Filter.Test(Filter.Field(column), false, "null")), holds) == holds(Is(false, Column([column]), "null"))
  {
    SimplePath(column);
  }

  /** Each filter of the scope is true of the forced columns. */
  lemma ForcedInScope(config: Config, req: Request, sent: Body, holds: Expr -> Truth, i: nat)
    requires req.userId != "" && PlainScope(config, req) && i < |ScopeItems(config, req)|
    requires Interprets(holds, map k | k in Forced(config, req, sent) :: Encoded(Forced(config, req, sent)[k]))
    ensures Eval(Meaning(ScopeItems(config, req)[i].filter), holds) == True
  {
    hide Meaning, Eval, ResolveTenantCompat, ResolveUserIDColumn;
    match ResolveTenantCompat(config, req.path)
    case Some(c) =>
      EqualsTruth(c.tenantColumn, req.tenantId, holds);
      EqualsTruth(c.userColumn, req.userId, holds);
      NullTruth(c.tenantColumn, holds);
    case None =>
      EqualsTruth(ResolveUserIDColumn(config, req.path), req.userId, holds);
  }

  /** The row an accepted body builds. */
  function ForcedRow(config: Config, req: Request, sent: Body): Row {
    var body := Forced(config, req, sent);
    map k | k in body :: Encoded(body[k])
  }

  /** The insert is accepted; `order` is the order in which the forced body yields its keys. */
  ghost predicate Accepted(config: Config, req: Request, sent: Body, order: seq<string>) {
    sent != map[] && Yields(order, Forced(config, req, sent)) && forall k :: k in order ==> IsValid(k)
  }

  lemma AcceptedRow(config: Config, req: Request, sent: Body, order: seq<string>)
    requires Accepted(config, req, sent, order)
    ensures RowOf(Insert(Join(ColumnTexts(order), ", "), TupleText(1, |order|), CellsOf(order, Forced(config, req, sent)))) ==
            Some(ForcedRow(config, req, sent))
  {
    hide IsValid, RowOf, ResolveTenantCompat, ResolveUserIDColumn, TupleText;
    InsertedRow(Forced(config, req, sent), order);
  }

  /** With a user id, every row an insert builds lies in the scope that reads of the same path
      and context are confined to, whatever the client sent. */
  lemma WritesLandInScope(config: Config, req: Request, sent: Body, order: seq<string>, holds: Expr -> Truth)
    requires req.userId != "" && PlainScope(config, req) && Accepted(config, req, sent, order)
    requires Interprets(holds, ForcedRow(config, req, sent))
    ensures RowOf(Insert(Join(ColumnTexts(order), ", "), TupleText(1, |order|), CellsOf(order, Forced(config, req, sent)))) ==
            Some(ForcedRow(config, req, sent))
    ensures All3(ScopeTruths(config, req, holds)) == True
  {
    hide IsValid, Meaning, Eval, RowOf, ResolveTenantCompat, ResolveUserIDColumn, TupleText, ScopeItems, Forced, Interprets;
    AcceptedRow(config, req, sent, order);
    var ts := ScopeTruths(config, req, holds);
    forall i | 0 <= i < |ts|
      ensures ts[i] == True
    {
      ForcedInScope(config, req, sent, holds, i);
    }
    All3Is(ts);
  }

  /** An insert is accepted exactly when the body is not empty and every column it names, its own
      and those of the identity, is an identifier. */
  lemma InsertAcceptedIff(config: Config, req: Request, sent: Body, order: seq<string>)
    requires InsertOrder(config, req, sent, order)
    ensures InsertOf(config, req, sent, order).Ok? <==>
            sent != map[] && forall k :: k in sent || k in IdentityColumns(config, req) ==> IsValid(k)
  {
    hide IsValid, IdentityColumns, Forced, TupleText, ColumnTexts;
  }

  /** The row of an accepted insert, read back, has exactly the columns of the body and of the
      identity; the client's other fields are kept, the identity's are the caller's. */
  lemma InsertKeepsFields(config: Config, req: Request, sent: Body, order: seq<string>)
    requires InsertOrder(config, req, sent, order) && InsertOf(config, req, sent, order).Ok?
    ensures var row := RowOf(InsertOf(config, req, sent, order).value);
      && row.Some? && row.value.Keys == sent.Keys + IdentityColumns(config, req)
      && (forall k :: k in sent && k !in IdentityColumns(config, req) ==> row.value[k] == Encoded(sent[k]))
      && (req.userId != "" ==>
            match ResolveTenantCompat(config, req.path)
            case Some(c) =>
              && row.value[c.tenantColumn] == (if req.tenantId != "" then Scalar(req.tenantId) else Null)
              && (c.userColumn != c.tenantColumn ==> row.value[c.userColumn] == Scalar(req.userId))
            case None =>
              var column := ResolveUserIDColumn(config, req.path);
              column != "" ==> row.value[column] == Scalar(req.userId))
  {
    hide RowOf, InsertOf, ForcedRow, ResolveTenantCompat, ResolveUserIDColumn, Encoded;
    AcceptedInsert(config, req, sent, order);
    ForcedRowKeeps(config, req, sent);
    assert forall c: string :: Encoded(Scalar(c)) == Scalar(c) && Encoded(Null) == Null by { PlainEncoded(); }
  }

  lemma PlainEncoded()
    ensures forall c: string :: Encoded(Scalar(c)) == Scalar(c) && Encoded(Null) == Null
  {
  }

  lemma AcceptedInsert(config: Config, req: Request, sent: Body, order: seq<string>)
    requires InsertOrder(config, req, sent, order) && InsertOf(config, req, sent, order).Ok?
    ensures RowOf(InsertOf(config, req, sent, order).value) == Some(ForcedRow(config, req, sent))
  {
    hide IsValid, RowOf, ForcedRow, Forced, IdentityColumns, TupleText, ColumnTexts;
    ForcedKeys(config, req, sent);
    assert Accepted(config, req, sent, order);
    AcceptedRow(config, req, sent, order);
  }

  lemma ForcedRowKeeps(config: Config, req: Request, sent: Body)
    ensures var row := ForcedRow(config, req, sent);
      && row.Keys == sent.Keys + IdentityColumns(config, req)
      && (forall k :: k in sent && k !in IdentityColumns(config, req) ==> row[k] == Encoded(sent[k]))
      && (req.userId != "" ==>
            match ResolveTenantCompat(config, req.path)
            case Some(c) =>
              && row[c.tenantColumn] == Encoded(if req.tenantId != "" then Scalar(req.tenantId) else Null)
              && (c.userColumn != c.tenantColumn ==> row[c.userColumn] == Encoded(Scalar(req.userId)))
            case None =>
              var column := ResolveUserIDColumn(config, req.path);
              column != "" ==> row[column] == Encoded(Scalar(req.userId)))
  {
    hide ResolveTenantCompat, ResolveUserIDColumn, Encoded;
    ForcedKeys(config, req, sent);
    assert ForcedRow(config, req, sent).Keys == Forced(config, req, sent).Keys;
  }

  // ----- Without a user id nothing is forced -----

  /** A reading of conditions that goes by the cells of one row. */
  function RowTruth(row: Row, e: Expr): Truth {
    match e
    case Binary("=", Column(path), Value(v)) =>
      if |path| != 1 || path[0] !in row then False
      else
        (match row[path[0]]
         case Null => Unknown
         case Scalar(t) => if t == v then True else False
         case Array(_) => Unknown)
    case Is(false, Column(path), "null") => if |path| == 1 && path[0] in row && row[path[0]] == Null then True else False
    case _ => False
  }

  lemma RowInterprets(row: Row)
    ensures Interprets(e => RowTruth(row, e), row)
  {
    hide RowTruth;
    var holds := e => RowTruth(row, e);
    forall c, v | c in row
      ensures holds(Binary("=", Column([c]), Value(v))) ==
              match row[c] case Null => Unknown case Scalar(t) => (if t == v then True else False) case Array(_) => Unknown
    {
      RowTruthAt(row, c, v);
    }
    forall c | c in row
      ensures holds(Is(false, Column([c]), "null")) == if row[c] == Null then True else False
    {
      RowTruthAt(row, c, "");
    }
  }

  lemma RowTruthAt(row: Row, c: string, v: string)
    requires c in row
    ensures RowTruth(row, Binary("=", Column([c]), Value(v))) ==
            match row[c] case Null => Unknown case Scalar(t) => (if t == v then True else False) case Array(_) => Unknown
    ensures RowTruth(row, Is(false, Column([c]), "null")) == if row[c] == Null then True else False
  {
  }

  /** On every reading of the row the scope is true. */
  ghost predicate Lands(config: Config, req: Request, sent: Body) {
    forall holds: Expr -> Truth :: Interprets(holds, ForcedRow(config, req, sent)) ==> All3(ScopeTruths(config, req, holds)) == True
  }

  ghost predicate AlwaysLands(config: Config, req: Request) {
    forall sent, order :: Accepted(config, req, sent, order) ==> Lands(config, req, sent)
  }

  /** Without a user id a tenant's scope remains, but the client chooses the columns. */
  lemma ScopeWithoutUser(config: Config, req: Request)
    requires req.userId == "" && PlainScope(config, req) && ScopeFilters(config, req) != []
    ensures ResolveTenantCompat(config, req.path).Some? && req.tenantId != ""
    ensures var column := ResolveTenantCompat(config, req.path).value.tenantColumn;
      && Simple(column) && ScopeItems(config, req) == [Item(false, Equals(column, req.tenantId))]
      && forall sent: Body :: Forced(config, req, sent) == sent
  {
  }

  /** A body of one column without a user id, and the scope on its row. */
  lemma OneColumn(config: Config, req: Request, key: string, cell: Cell, holds: Expr -> Truth)
    requires req.userId == "" && PlainScope(config, req) && ScopeFilters(config, req) != [] && IsValid(key)
    ensures Accepted(config, req, map[key := cell], [key]) && ForcedRow(config, req, map[key := cell]) == map[key := Encoded(cell)]
    ensures var column := ResolveTenantCompat(config, req.path).value.tenantColumn;
      All3(ScopeTruths(config, req, holds)) == holds(Binary("=", Column([column]), Value(req.tenantId)))
  {
    hide IsValid, Meaning, Eval, ResolveTenantCompat, ResolveUserIDColumn, ScopeItems, Forced, PlainScope, ScopeFilters;
    ScopeWithoutUser(config, req);
    var column := ResolveTenantCompat(config, req.path).value.tenantColumn;
    var sent: Body := map[key := cell];
    assert Forced(config, req, sent) == sent;
    assert key in sent && Yields([key], sent);
    assert ForcedRow(config, req, sent) == map[key := Encoded(cell)];
    EqualsTruth(column, req.tenantId, holds);
    All3Is(ScopeTruths(config, req, holds));
    var ts := ScopeTruths(config, req, holds);
    assert |ts| == 1;
    assert And3(ts[0], True) == ts[0] && ts[1..] == [];
  }

  /** A client with a tenant but no user id can write another tenant's row: what it sent for the
      tenant column is kept, and the row lies outside the scope its own reads are confined to. */
  lemma WriteOutOfScope(config: Config, req: Request, holds: Expr -> Truth)
    requires req.userId == "" && PlainScope(config, req) && ScopeFilters(config, req) != []
    requires IsValid(ResolveTenantCompat(config, req.path).value.tenantColumn)
    requires Interprets(holds, map[ResolveTenantCompat(config, req.path).value.tenantColumn := Scalar(req.tenantId + "x")])
    ensures var column := ResolveTenantCompat(config, req.path).value.tenantColumn;
      var sent := map[column := Scalar(req.tenantId + "x")];
      && Accepted(config, req, sent, [column]) && ForcedRow(config, req, sent) == sent
      && All3(ScopeTruths(config, req, holds)) == False
  {
    hide IsValid, Meaning, Eval, ResolveTenantCompat, PlainScope, ScopeFilters, ScopeItems, Forced;
    ScopeWithoutUser(config, req);
    var column := ResolveTenantCompat(config, req.path).value.tenantColumn;
    OneColumn(config, req, column, Scalar(req.tenantId + "x"), holds);
    assert |req.tenantId + "x"| > |req.tenantId|;
  }

  lemma AnyIsValid()
    ensures IsValid("a")
  {
    SplitPlain("a", '.');
    ValidExactly("a");
  }

  /** Every accepted body lands in the scope exactly when there is a user id or no scope. */
  lemma WritesLandIff(config: Config, req: Request)
    requires PlainScope(config, req)
    ensures AlwaysLands(config, req) <==> req.userId != "" || ScopeFilters(config, req) == []
  {
    hide IsValid, Meaning, Eval, ResolveTenantCompat, ResolveUserIDColumn, Forced, PlainScope, Interprets, RowOf, TupleText;
    if req.userId != "" {
      forall sent, order, holds | Accepted(config, req, sent, order) && Interprets(holds, ForcedRow(config, req, sent))
        ensures All3(ScopeTruths(config, req, holds)) == True
      {
        WritesLandInScope(config, req, sent, order, holds);
      }
    } else if ScopeFilters(config, req) == [] {
      assert forall holds :: ScopeTruths(config, req, holds) == [];
    } else {
      NotAlways(config, req);
    }
  }

  lemma NotAlways(config: Config, req: Request)
    requires req.userId == "" && PlainScope(config, req) && ScopeFilters(config, req) != []
    ensures !AlwaysLands(config, req)
  {
    hide IsValid, Meaning, Eval, ResolveTenantCompat, ResolveUserIDColumn, Forced, PlainScope, ScopeFilters, ScopeItems, Interprets;
    ScopeWithoutUser(config, req);
    AnyIsValid();
    var column := ResolveTenantCompat(config, req.path).value.tenantColumn;
    var key := if IsValid(column) then column else "a";
    var sent := map[key := Scalar(req.tenantId + "x")];
    var row := ForcedRow(config, req, sent);
    var holds := e => RowTruth(row, e);
    OneColumn(config, req, key, sent[key], holds);
    RowInterprets(row);
    assert |req.tenantId + "x"| > |req.tenantId|;
    assert holds(Binary("=", Column([column]), Value(req.tenantId))) == False;
    assert !Lands(config, req, sent);
  }

  // ----- What the scope is, on a row -----

  /** The row has the columns that the scope of the path speaks of. */
  predicate HasScopeColumns(config: Config, req: Request, row: Row) {
    match ResolveTenantCompat(config, req.path)
    case Some(c) => c.userColumn in row && c.tenantColumn in row
    case None => var column := ResolveUserIDColumn(config, req.path); column == "" || column in row
  }

  /** The scope is true on exactly the rows of the active tenant, of the user outside any tenant,
      or of the user; without an identity, or a configured column, on every row. */
  lemma ScopeIs(config: Config, req: Request, row: Row, holds: Expr -> Truth)
    requires PlainScope(config, req) && HasScopeColumns(config, req, row) && Interprets(holds, row)
    ensures All3(ScopeTruths(config, req, holds)) == True <==>
            match ResolveTenantCompat(config, req.path)
            case Some(c) =>
              if req.tenantId != "" then row[c.tenantColumn] == Scalar(req.tenantId)
              else req.userId != "" ==> row[c.userColumn] == Scalar(req.userId) && row[c.tenantColumn] == Null
            case None =>
              var column := ResolveUserIDColumn(config, req.path);
              req.userId != "" && column != "" ==> row[column] == Scalar(req.userId)
  {
    hide Meaning, Eval, ResolveTenantCompat, ResolveUserIDColumn;
    var ts := ScopeTruths(config, req, holds);
    All3Is(ts);
    match ResolveTenantCompat(config, req.path) {
      case Some(c) =>
        EqualsTruth(c.tenantColumn, req.tenantId, holds);
        EqualsTruth(c.userColumn, req.userId, holds);
        NullTruth(c.tenantColumn, holds);
      case None =>
        EqualsTruth(ResolveUserIDColumn(config, req.path), req.userId, holds);
    }
    TrueExactly(ts);
  }

  lemma TrueExactly(ts: seq<Truth>)
    ensures All3(ts) == True <==> forall i :: 0 <= i < |ts| ==> ts[i] == True
  {
    All3Is(ts);
  }

  // ----- Different scopes share no rows -----

  /** Two identities that a compat table keeps apart: different tenants, different personal
      users, or a tenant and a user in personal mode. */
  predicate Apart(req: Request, other: Request) {
    || (req.tenantId != "" && other.tenantId != "" && req.tenantId != other.tenantId)
    || (req.tenantId == "" && other.tenantId == "" && req.userId != "" && other.userId != "" && req.userId != other.userId)
    || (req.tenantId == "" && req.userId != "" && other.tenantId != "")
    || (req.tenantId != "" && other.tenantId == "" && other.userId != "")
  }

  lemma {:induction false} TruthsConcat(reserved: set<string>, a: seq<Item>, b: seq<Item>, inOr: bool, holds: Expr -> Truth)
    ensures ReadTruths(reserved, a + b, inOr, holds) == ReadTruths(reserved, a, inOr, holds) + ReadTruths(reserved, b, inOr, holds)
  {
    hide ReadMeaning, Eval, ReadTruths;
    if a == [] {
      assert a + b == b;
      NoTruths(reserved, inOr, holds);
      assert [] + ReadTruths(reserved, b, inOr, holds) == ReadTruths(reserved, b, inOr, holds);
    } else {
      TruthsConcat(reserved, a[1..], b, inOr, holds);
      assert (a + b)[1..] == a[1..] + b && (a + b)[0] == a[0];
      WhereOrder.TruthsHead(reserved, a + b, inOr, holds);
      WhereOrder.TruthsHead(reserved, a, inOr, holds);
      var head := if a[0].inOr == inOr then [Eval(ReadMeaning(a[0].filter, reserved), holds)] else [];
      Associative(head, ReadTruths(reserved, a[1..], inOr, holds), ReadTruths(reserved, b, inOr, holds));
    }
  }

  lemma NoTruths(reserved: set<string>, inOr: bool, holds: Expr -> Truth)
    ensures ReadTruths(reserved, [], inOr, holds) == []
  {
  }

  /** The text printed for the request is read, and true on the row. */
  predicate Selects(reserved: set<string>, config: Config, req: Request, initial: nat, holds: Expr -> Truth)
    requires Items(config, req).Ok?
  {
    var items := Items(config, req).value;
    var parsed := ParseCondition(reserved, WhereText(items, initial));
    parsed.Some? && Eval(Bind(parsed.value, initial, WhereValues(items, initial)), holds) == True
  }

  /** A row that a request selects satisfies its scope, whatever filters the client added and
      however these are read. */
  lemma ScopeConfines(reserved: set<string>, config: Config, req: Request, initial: nat, holds: Expr -> Truth)
    requires ServerWords(reserved) && Items(config, req).Ok? && Items(config, req).value != []
    requires Selects(reserved, config, req, initial, holds)
    ensures forall i :: 0 <= i < |ScopeItems(config, req)| ==>
              Eval(Meaning(ScopeItems(config, req)[i].filter), holds) == True
  {
    hide Meaning, ReadMeaning, Eval, Bind, ReadTruths, CompileAll, ScopeItems, ParseCondition, WhereText, WhereValues, ReadWhere, Parsable, WellFormed;
    var scope, own := ScopeItems(config, req), CompileAll(Candidates(req.query)).value;
    var items := Items(config, req).value;
    ItemsWellFormed(config, req);
    WhereReadsAs(reserved, items, initial);
    ReadWhereTruth(reserved, items, initial, holds);
    TruthsConcat(reserved, scope, own, false, holds);
    All3Is(ReadTruths(reserved, scope + own, false, holds));
    ScopeRead(reserved, config, req, holds);
    forall i | 0 <= i < |scope|
      ensures Eval(Meaning(scope[i].filter), holds) == True
    {
      assert (ReadTruths(reserved, scope, false, holds) + ReadTruths(reserved, own, false, holds))[i] ==
             ReadTruths(reserved, scope, false, holds)[i];
    }
  }

  /** The scope's own filters are read as meant, if at all. */
  lemma ScopeRead(reserved: set<string>, config: Config, req: Request, holds: Expr -> Truth)
    ensures var scope := ScopeItems(config, req);
      var ts := ReadTruths(reserved, scope, false, holds);
      |ts| == |scope| && forall i :: 0 <= i < |scope| ==> ts[i] == Eval(Meaning(scope[i].filter), holds)
  {
    hide ResolveTenantCompat, ResolveUserIDColumn, Meaning, Eval;
    var scope := ScopeItems(config, req);
    assert forall item :: item in scope ==> !item.inOr && !item.filter.Search?;
    PlainTruths(reserved, scope, holds);
  }

  lemma {:induction false} PlainTruths(reserved: set<string>, items: seq<Item>, holds: Expr -> Truth)
    requires forall item :: item in items ==> !item.inOr && !item.filter.Search?
    ensures var ts := ReadTruths(reserved, items, false, holds);
      |ts| == |items| && forall i :: 0 <= i < |items| ==> ts[i] == Eval(Meaning(items[i].filter), holds)
  {
    hide Meaning, Eval, ReadTruths;
    if items == [] {
      NoTruths(reserved, false, holds);
    } else {
      assert items[0] in items;
      PlainTruths(reserved, items[1..], holds);
      WhereOrder.TruthsHead(reserved, items, false, holds);
    }
  }

  /** No row of a compat table is selected by two requests of different scopes, whatever other
      filters they carry and however these are read. */
  lemma ScopesDisjoint(reserved: set<string>, config: Config, req: Request, other: Request, initial: nat,
                       row: Row, holds: Expr -> Truth)
    requires ServerWords(reserved) && req.path == other.path && ResolveTenantCompat(config, req.path).Some?
    requires PlainScope(config, req) && Apart(req, other)
    requires Items(config, req).Ok? && Items(config, other).Ok?
    requires var c := ResolveTenantCompat(config, req.path).value; c.userColumn in row && c.tenantColumn in row
    requires Interprets(holds, row)
    ensures !(Selects(reserved, config, req, initial, holds) && Selects(reserved, config, other, initial, holds))
  {
    hide Eval, Selects, ResolveTenantCompat, Meaning, CompileAll, Interprets;
    assert ScopeItems(config, req) != [] && ScopeItems(config, other) != [];
    assert Items(config, req).value != [] && Items(config, other).value != [];
    if Selects(reserved, config, req, initial, holds) && Selects(reserved, config, other, initial, holds) {
      ScopeConfines(reserved, config, req, initial, holds);
      ScopeConfines(reserved, config, other, initial, holds);
      ScopeColumns(config, req, row, holds);
      ScopeColumns(config, other, row, holds);
      assert false;
    }
  }

  /** What a compat scope says of the two columns. */
  lemma ScopeColumns(config: Config, req: Request, row: Row, holds: Expr -> Truth)
    requires ResolveTenantCompat(config, req.path).Some? && PlainScope(config, req) && Interprets(holds, row)
    requires var c := ResolveTenantCompat(config, req.path).value; c.userColumn in row && c.tenantColumn in row
    requires forall i :: 0 <= i < |ScopeItems(config, req)| ==>
               Eval(Meaning(ScopeItems(config, req)[i].filter), holds) == True
    ensures var c := ResolveTenantCompat(config, req.path).value;
      && (req.tenantId != "" ==> row[c.tenantColumn] == Scalar(req.tenantId))
      && (req.tenantId == "" && req.userId != "" ==>
            row[c.tenantColumn] == Null && row[c.userColumn] == Scalar(req.userId))
  {
    hide Eval, Meaning, ResolveTenantCompat;
    var c := ResolveTenantCompat(config, req.path).value;
    EqualsTruth(c.tenantColumn, req.tenantId, holds);
    EqualsTruth(c.userColumn, req.userId, holds);
    NullTruth(c.tenantColumn, holds);
    var items := ScopeItems(config, req);
    if req.tenantId != "" {
      assert items[0].filter == Equals(c.tenantColumn, req.tenantId);
    } else if req.userId != "" {
      assert items[0].filter == Equals(c.userColumn, req.userId);
      assert items[1].filter == Filter.Test(Filter.Field(c.tenantColumn), false, "null");
    }
  }
}
