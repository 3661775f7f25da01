/** One filter of a request: adapters/postgres/postgres.go, `GetQueryOperator` and
    `whereKeyAndValue`. A filter is first given as data without placeholder numbers, so
    that what it means does not depend on where in the statement it is printed. */
module Filter {
  import opened Text
  import opened Ident
  import opened SqlLexer
  import opened SqlCondition
  import ArrayLiteral

  datatype Error = InvalidOperator | InvalidIdentifier | UnknownSuffix

  datatype Operator =
    | Relation(symbol: string)                  // = != > >= < <= @> <@ ~ @
    | Matching(negated: bool, caseless: bool)   // [NOT] LIKE, [NOT] ILIKE
    | Listed(negated: bool)                     // [NOT] IN
    | Quantifier(word: string)                  // ANY, SOME, ALL
    | Tested(negated: bool, what: string)       // IS [NOT] NULL, TRUE, FALSE

  function GetQueryOperator(op: string): Result<Operator, Error> {
    var name := ReplaceChar(ReplaceChar(op, '$', ""), ' ', "");
    if name == "eq" then Ok(Relation("="))
    else if name == "ne" then Ok(Relation("!="))
    else if name == "gt" then Ok(Relation(">"))
    else if name == "gte" then Ok(Relation(">="))
    else if name == "lt" then Ok(Relation("<"))
    else if name == "lte" then Ok(Relation("<="))
    else if name == "in" then Ok(Listed(false))
    else if name == "nin" then Ok(Listed(true))
    else if name == "any" then Ok(Quantifier("any"))
    else if name == "some" then Ok(Quantifier("some"))
    else if name == "all" then Ok(Quantifier("all"))
    else if name == "notnull" then Ok(Tested(true, "null"))
    else if name == "null" then Ok(Tested(false, "null"))
    else if name == "true" then Ok(Tested(false, "true"))
    else if name == "nottrue" then Ok(Tested(true, "true"))
    else if name == "false" then Ok(Tested(false, "false"))
    else if name == "notfalse" then Ok(Tested(true, "false"))
    else if name == "like" then Ok(Matching(false, false))
    else if name == "ilike" then Ok(Matching(false, true))
    else if name == "nlike" then Ok(Matching(true, false))
    else if name == "nilike" then Ok(Matching(true, true))
    else if name == "ltreelanc" then Ok(Relation("@>"))
    else if name == "ltreerdesc" then Ok(Relation("<@"))
    else if name == "ltreematch" then Ok(Relation("~"))
    else if name == "ltreematchtxt" then Ok(Relation("@"))
    else Err(InvalidOperator)
  }

  predicate Known(op: Operator) {
    match op
    case Relation(s) =>
      || s == "=" || s == "!=" || s == ">" || s == ">=" || s == "<" || s == "<="
      || s == "@>" || s == "<@" || s == "~" || s == "@"
    case Quantifier(w) => w == "any" || w == "some" || w == "all"
    case Tested(_, w) => w == "null" || w == "true" || w == "false"
    case _ => true
  }

  lemma OperatorKnown(op: string)
    ensures GetQueryOperator(op).Ok? ==> Known(GetQueryOperator(op).value)
  {
  }

  function Upper(word: string): string {
    match word
    case "any" => "ANY"
    case "some" => "SOME"
    case "all" => "ALL"
    case "null" => "NULL"
    case "true" => "TRUE"
    case _ => "FALSE"
  }

  function OperatorText(op: Operator): string {
    match op
    case Relation(s) => s
    case Matching(negated, caseless) => (if negated then "NOT " else "") + (if caseless then "ILIKE" else "LIKE")
    case Listed(negated) => if negated then "NOT IN" else "IN"
    case Quantifier(w) => Upper(w)
    case Tested(negated, w) => (if negated then "IS NOT " else "IS ") + Upper(w)
  }

  // ----- The operator inside a value: the regular expression \$[a-z]+. -----

  function LowerRun(s: string): (n: nat)
    ensures n <= |s|
  {
    if s != "" && IsLower(s[0]) then 1 + LowerRun(s[1..]) else 0
  }

  /** Length of the match at the start of `s`, 0 if there is none. The final dot takes any
      character but a newline, giving back a letter if need be. */
  function MatchLength(s: string): (n: nat)
    ensures n <= |s|
  {
    if s == "" || s[0] != '$' then 0
    else
      var k := LowerRun(s[1..]);
      if k == 0 then 0
      else if 1 + k < |s| && s[1 + k] != '\n' then k + 2
      else if k >= 2 then k + 1
      else 0
  }

  /** FindString: the leftmost match. */
  function FindOperator(v: string): string {
    if v == "" then "" else if MatchLength(v) > 0 then v[..MatchLength(v)] else FindOperator(v[1..])
  }

  /** ReplaceAllString with nothing. */
  function RemoveOperators(v: string): string
    decreases |v|
  {
    if v == "" then ""
    else if MatchLength(v) > 0 then RemoveOperators(v[MatchLength(v)..])
    else [v[0]] + RemoveOperators(v[1..])
  }

  /** A match of the expression starts somewhere in the value. */
  predicate HasMatch(v: string) { exists i :: 0 <= i < |v| && MatchLength(v[i..]) > 0 }

  /** A value is compared as it was sent exactly when no match starts in it: every match is
      deleted, wherever it stands. */
  lemma {:induction false} ValueSurvivesIff(v: string)
    ensures |RemoveOperators(v)| <= |v| && (RemoveOperators(v) == v <==> !HasMatch(v))
    decreases |v|
  {
    hide MatchLength;
    if v != "" {
      assert v[0..] == v;
      if MatchLength(v) > 0 {
        ValueSurvivesIff(v[MatchLength(v)..]);
      } else {
        ValueSurvivesIff(v[1..]);
        assert v == [v[0]] + v[1..];
        assert forall i :: 0 < i < |v| ==> v[i..] == v[1..][i - 1..];
        assert ([v[0]] + RemoveOperators(v[1..]))[1..] == RemoveOperators(v[1..]);
        if i :| 0 <= i < |v[1..]| && MatchLength(v[1..][i..]) > 0 {
          assert v[i + 1..] == v[1..][i..];
        }
      }
    }
  }

  /** An operator in front is taken off; the value after it survives under the same condition. */
  lemma OperatorTakenOff(op: string, v: string)
    requires op != "" && forall c :: c in op ==> IsLower(c)
    ensures FindOperator("$" + op + "." + v) == "$" + op + "."
    ensures RemoveOperators("$" + op + "." + v) == RemoveOperators(v)
    ensures RemoveOperators("$" + op + "." + v) == v <==> !HasMatch(v)
  {
    var s := "$" + op + "." + v;
    LowerRunExact(op, "." + v);
    assert s[1..] == op + ("." + v);
    assert MatchLength(s) == |op| + 2;
    assert s[|op| + 2..] == v && s[..|op| + 2] == "$" + op + ".";
    ValueSurvivesIff(v);
  }

  lemma {:induction false} LowerRunExact(op: string, rest: string)
    requires (forall c :: c in op ==> IsLower(c)) && (rest == "" || !IsLower(rest[0]))
    ensures LowerRun(op + rest) == |op|
  {
    if op == "" {
      assert op + rest == rest;
    } else {
      LowerRunExact(op[1..], rest);
      assert (op + rest)[1..] == op[1..] + rest;
    }
  }

  function OperatorOf(v: string): Result<Operator, Error> {
    var op := ReplaceChar(FindOperator(v), '.', "");
    GetQueryOperator(if op == "" then "$eq" else op)
  }

  // ----- Filters as data -----

  datatype Left = Field(name: string) | JsonField(column: string, attribute: string)

  datatype Filter =
    | Compare(left: Left, op: Operator, value: string)
    | Listing(left: Left, negated: bool, values: seq<string>)
    | Quantify(left: Left, word: string, elements: seq<string>)
    | Test(left: Left, negated: bool, what: string)
    | Search(field: string, config: Option<string>, query: string)

  function Build(left: Left, op: Operator, value: string): Filter {
    match op
    case Listed(negated) => Listing(left, negated, Split(value, ","))
    case Quantifier(word) => Quantify(left, word, Split(value, ","))
    case Tested(negated, what) => Test(left, negated, what)
    case _ => Compare(left, op, value)
  }

  function JsonFilter(key: string, op: Operator, value: string): Result<Filter, Error> {
    var jsonField := Split(key, "->>");
    if |jsonField| != 2 || !IsValid(jsonField[0]) || !IsValid(jsonField[1]) then Err(InvalidIdentifier)
    else Ok(Build(JsonField(jsonField[0], jsonField[1]), op, value))
  }

  function SearchFilter(key: string, value: string): Result<Filter, Error> {
    var field := Split(key, "$");
    if !IsValid(field[0]) || (|field| == 2 && !IsValid(field[1])) then Err(InvalidIdentifier)
    else Ok(Search(field[0], if |field| == 2 then Some(field[1]) else None, value))
  }

  /** A key with a type suffix. */
  function TypedFilter(keyInfo: seq<string>, op: Operator, value: string): Result<Filter, Error>
    requires |keyInfo| > 1
  {
    if keyInfo[1] == "jsonb" then JsonFilter(keyInfo[0], op, value)
    else if keyInfo[1] == "tsquery" then SearchFilter(keyInfo[0], value)
    else if !IsValid(keyInfo[0]) then Err(InvalidIdentifier)
    else Err(UnknownSuffix)
  }

  /** The filter a query parameter asks for. */
  function Compile(rawKey: string, v: string): Result<Filter, Error> {
    if v == "" then Err(InvalidOperator)
    else match OperatorOf(v)
      case Err(e) => Err(e)
      case Ok(op) =>
        var value := RemoveOperators(v);
        var keyInfo := Split(rawKey, ":");
        if |keyInfo| > 1 then TypedFilter(keyInfo, op, value)
        else if !IsValid(rawKey) then Err(InvalidIdentifier)
        else Ok(Build(Field(rawKey), op, value))
  }

  // ----- Printing, with the placeholder number `pid` next in line -----

  function ParamTexts(pid: nat, n: nat): (r: seq<string>)
    ensures |r| == n && forall i :: 0 <= i < n ==> r[i] == "$" + Decimal(pid + i)
  {
    seq(n, i requires 0 <= i < n => "$" + Decimal(pid + i))
  }

  /** `ident.Quote` with its error dropped. */
  function QuotedName(name: string): string { if IsValid(name) then QuotedPath(Path(name)) else "" }

  function LeftText(left: Left): string {
    match left
    case Field(name) => QuotedName(name)
    case JsonField(column, attribute) => QuotedName(column) + "->>'" + ReplaceChar(attribute, '\'', "''") + "'"
  }

  function SearchText(field: string, config: Option<string>, query: string): string {
    match config
    case None => field + " @@ to_tsquery('" + ReplaceChar(query, '\'', "''") + "')"
    case Some(c) =>
      field + " @@ to_tsquery('" + ReplaceChar(c, '\'', "''") + "', '" + ReplaceChar(query, '\'', "''") + "')"
  }

  function FilterText(f: Filter, pid: nat): string {
    match f
    case Compare(left, op, _) => LeftText(left) + " " + OperatorText(op) + " $" + Decimal(pid)
    case Listing(left, negated, values) =>
      LeftText(left) + " " + OperatorText(Listed(negated)) + " (" + Join(ParamTexts(pid, |values|), ",") + ")"
    case Quantify(left, word, _) => LeftText(left) + " = " + Upper(word) + " ($" + Decimal(pid) + ")"
    case Test(left, negated, what) => LeftText(left) + " " + OperatorText(Tested(negated, what))
    case Search(field, config, query) => SearchText(field, config, query)
  }

  function Elements(values: seq<string>): ArrayLiteral.Value {
    ArrayLiteral.List(seq(|values|, i requires 0 <= i < |values| => ArrayLiteral.Leaf(values[i])))
  }

  function FilterValues(f: Filter): seq<string> {
    match f
    case Compare(_, _, value) => [value]
    case Listing(_, _, values) => values
    case Quantify(_, _, elements) => [ArrayLiteral.Literal(Elements(elements))]
    case _ => []
  }

  method PrintFilter(left: string, op: Operator, value: string, pid: nat)
      returns (key: string, values: seq<string>, next: nat)
    requires Known(op)
    ensures forall l :: LeftText(l) == left ==> key == FilterText(Build(l, op, value), pid)
    ensures forall l :: values == FilterValues(Build(l, op, value))
    ensures next == pid + |values|
  {
    hide Split, Join, LeftText, Upper, Decimal, ArrayLiteral.Literal;
    values, next := [], pid;
    match op {
      case Listed(_) =>
        var v := Split(value, ",");
        var keyParams := [];
        for i := 0 to |v|
          invariant values == v[..i] && keyParams == ParamTexts(pid, |v|)[..i]
        {
          values := values + [v[i]];
          keyParams := keyParams + ["$" + Decimal(pid + i)];
        }
        assert values == v && keyParams == ParamTexts(pid, |v|);
        next := pid + |v|;
        key := left + " " + OperatorText(op) + " (" + Join(keyParams, ",") + ")";
      case Quantifier(word) =>
        key := left + " = " + OperatorText(op) + " ($" + Decimal(pid) + ")";
        var literal := ArrayLiteral.FormatArray(Elements(Split(value, ",")));
        values := [literal];
        next := pid + 1;
      case Tested(_, _) =>
        key := left + " " + OperatorText(op);
      case _ =>
        key := left + " " + OperatorText(op) + " $" + Decimal(pid);
        values := [value];
        next := pid + 1;
    }
  }

  method PrintSearch(key: string, value: string) returns (r: Result<string, Error>)
    ensures r.Err? <==> SearchFilter(key, value).Err?
    ensures r.Err? ==> r.error == SearchFilter(key, value).error
    ensures r.Ok? ==> forall pid :: r.value == FilterText(SearchFilter(key, value).value, pid)
  {
    hide Split, IsValid, ReplaceChar;
    var tsQueryField := Split(key, "$");
    if !IsValid(tsQueryField[0]) {
      return Err(InvalidIdentifier);
    }
    var safeVal := ReplaceChar(value, '\'', "''");
    var tsQuery := tsQueryField[0] + " @@ to_tsquery('" + safeVal + "')";
    if |tsQueryField| == 2 {
      if !IsValid(tsQueryField[1]) {
        return Err(InvalidIdentifier);
      }
      var safeCfg := ReplaceChar(tsQueryField[1], '\'', "''");
      tsQuery := tsQueryField[0] + " @@ to_tsquery('" + safeCfg + "', '" + safeVal + "')";
    }
    return Ok(tsQuery);
  }

  method PrintTyped(keyInfo: seq<string>, op: Operator, value: string, pid: nat)
      returns (r: Result<(string, seq<string>), Error>, next: nat)
    requires |keyInfo| > 1 && Known(op)
    ensures Prints(r, next, TypedFilter(keyInfo, op, value), pid)
  {
    hide Split, IsValid, ReplaceChar, HandQuoted, QuotedPath, Path, Known, OperatorText;
    if keyInfo[1] == "jsonb" {
      var jsonField := Split(keyInfo[0], "->>");
      if |jsonField| != 2 || !IsValid(jsonField[0]) || !IsValid(jsonField[1]) {
        return Err(InvalidIdentifier), pid;
      }
      HandQuotedIsQuote(jsonField[0]);
      var safeAttr := ReplaceChar(jsonField[1], '\'', "''");
      var jsonLeft := HandQuoted(jsonField[0]) + "->>'" + safeAttr + "'";
      assert jsonLeft == LeftText(JsonField(jsonField[0], jsonField[1]));
      var key, values, pid' := PrintFilter(jsonLeft, op, value, pid);
      return Ok((key, values)), pid';
    }
    if keyInfo[1] == "tsquery" {
      var search := PrintSearch(keyInfo[0], value);
      match search
      case Err(e) => return Err(e), pid;
      case Ok(key) => return Ok((key, [])), pid;
    }
    return Err(if !IsValid(keyInfo[0]) then InvalidIdentifier else UnknownSuffix), pid;
  }

  /** The printed form and the next free number agree with the filter asked for. */
  ghost predicate Prints(r: Result<(string, seq<string>), Error>, next: nat, f: Result<Filter, Error>, pid: nat) {
    match f
    case Err(e) => r == Err(e)
    case Ok(f) => r == Ok((FilterText(f, pid), FilterValues(f))) && next == pid + |FilterValues(f)|
  }

  /** whereKeyAndValue */
  method WhereKeyAndValue(rawKey: string, v: string, pid: nat)
      returns (r: Result<(string, seq<string>), Error>, next: nat)
    ensures Prints(r, next, Compile(rawKey, v), pid)
  {
    if v == "" {
      return Err(InvalidOperator), pid;
    }
    var opText := ReplaceChar(FindOperator(v), '.', "");
    if opText == "" {
      opText := "$eq";
    }
    var value := RemoveOperators(v);
    var op := GetQueryOperator(opText);
    if op.Err? {
      return Err(op.error), pid;
    }
    OperatorKnown(opText);
    var keyInfo := Split(rawKey, ":");
    if |keyInfo| > 1 {
      r, next := PrintTyped(keyInfo, op.value, value, pid);
      return;
    }
    if !IsValid(rawKey) {
      return Err(InvalidIdentifier), pid;
    }
    HandQuotedIsQuote(rawKey);
    assert HandQuoted(rawKey) == LeftText(Field(rawKey));
    var key, values, pid' := PrintFilter(HandQuoted(rawKey), op.value, value, pid);
    return Ok((key, values)), pid';
  }
}
