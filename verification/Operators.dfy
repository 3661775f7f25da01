/** What each operator asks for: adapters/postgres/postgres.go, `GetQueryOperator` and
    `whereKeyAndValue`. The operators are told apart by the rows their conditions select. */
module Operators {
  import opened Text
  import opened Ident
  import opened SqlCondition
  import opened Filter
  import opened FilterTokens
  import opened FilterReading
  import opened WhereMeaning
  import ArrayLiteral

  /** The operators there are. */
  const NAMES: set<string> := {
    "eq", "ne", "gt", "gte", "lt", "lte", "in", "nin", "any", "some", "all", "null", "notnull", "true", "nottrue", "false",
    "notfalse", "like", "ilike", "nlike", "nilike", "ltreelanc", "ltreerdesc", "ltreematch", "ltreematchtxt"
  }

  predicate LowerWord(name: string) { name != "" && forall c :: c in name ==> IsLower(c) }

  /** A parameter with the operator in front of its value compiles, and not to a text search. */
  predicate Compiled(rawKey: string, name: string, v: string, f: Filter) {
    LowerWord(name) && Compile(rawKey, "$" + name + "." + v) == Ok(f) && !f.Search?
  }

  lemma NameKept(name: string)
    requires LowerWord(name)
    ensures ReplaceChar(ReplaceChar(name, '$', ""), ' ', "") == name
  {
    ReplaceAbsent(name, '$', "");
    ReplaceAbsent(name, ' ', "");
  }

  /** Only what is left without dollars and spaces counts. */
  lemma SameOperator(a: string, b: string)
    requires ReplaceChar(ReplaceChar(a, '$', ""), ' ', "") == ReplaceChar(ReplaceChar(b, '$', ""), ' ', "")
    ensures GetQueryOperator(a) == GetQueryOperator(b)
  {
    hide ReplaceChar;
  }

  lemma Dropped(c: char)
    ensures ReplaceChar([c], c, "") == ""
  {
    assert [c][1..] == "";
  }

  lemma DotDropped(name: string)
    requires LowerWord(name)
    ensures ReplaceChar("$" + name + ".", '.', "") == "$" + name
  {
    hide ReplaceChar;
    var dollar := "$" + name;
    assert '.' !in dollar;
    ReplaceCharConcat(dollar, ".", '.', "");
    ReplaceAbsent(dollar, '.', "");
    Dropped('.');
    assert dollar + "" == dollar;
  }

  lemma DollarIgnored(name: string)
    requires LowerWord(name)
    ensures GetQueryOperator("$" + name) == GetQueryOperator(name)
  {
    hide ReplaceChar, GetQueryOperator;
    assert '$' !in name;
    ReplaceCharConcat("$", name, '$', "");
    ReplaceAbsent(name, '$', "");
    Dropped('$');
    assert "" + name == name;
    SameOperator("$" + name, name);
  }

  lemma OperatorIs(name: string, v: string)
    requires LowerWord(name)
    ensures OperatorOf("$" + name + "." + v) == GetQueryOperator(name)
    ensures RemoveOperators("$" + name + "." + v) == RemoveOperators(v)
  {
    hide FindOperator, RemoveOperators, GetQueryOperator, ReplaceChar, HasMatch;
    OperatorTakenOff(name, v);
    DotDropped(name);
    DollarIgnored(name);
  }

  lemma CompiledIs(rawKey: string, name: string, v: string, f: Filter)
    requires Compiled(rawKey, name, v, f)
    ensures ReplaceChar(ReplaceChar(name, '$', ""), ' ', "") == name
    ensures GetQueryOperator(name).Ok? && f == Build(f.left, GetQueryOperator(name).value, RemoveOperators(v))
  {
    hide GetQueryOperator, RemoveOperators, OperatorOf, Split, IsValid;
    NameKept(name);
    OperatorIs(name, v);
  }

  // ----- Comparisons -----

  function Truth3(b: bool): Truth { if b then True else False }

  /** `holds` gives the six comparisons of `left` their meaning: `less` orders values, and no cell
      is NULL. */
  ghost predicate Orders(holds: Expr -> Truth, left: Expr, cell: Option<string>, less: (string, string) -> bool) {
    forall x ::
      && holds(Binary("=", left, Value(x))) == (match cell case None => Unknown case Some(c) => Truth3(c == x))
      && holds(Binary("!=", left, Value(x))) == (match cell case None => Unknown case Some(c) => Truth3(c != x))
      && holds(Binary("<", left, Value(x))) == (match cell case None => Unknown case Some(c) => Truth3(less(c, x)))
      && holds(Binary("<=", left, Value(x))) == (match cell case None => Unknown case Some(c) => Truth3(less(c, x) || c == x))
      && holds(Binary(">", left, Value(x))) == (match cell case None => Unknown case Some(c) => Truth3(less(x, c)))
      && holds(Binary(">=", left, Value(x))) == (match cell case None => Unknown case Some(c) => Truth3(less(x, c) || c == x))
  }

  predicate Compares(name: string) {
    name == "eq" || name == "ne" || name == "gt" || name == "gte" || name == "lt" || name == "lte"
  }

  /** A comparison is true of a cell that is equal, not equal, greater, not less, less or not
      greater than the value, as its name says, and unknown of NULL. */
  lemma ComparisonsMean(rawKey: string, name: string, v: string, f: Filter, holds: Expr -> Truth, cell: Option<string>,
                        less: (string, string) -> bool)
    requires Compiled(rawKey, name, v, f) && Compares(name) && Orders(holds, LeftExpr(f.left), cell, less)
    ensures var x := RemoveOperators(v);
      var t := Eval(Meaning(f), holds);
      match cell
      case None => t == Unknown
      case Some(c) =>
        && t != Unknown
        && (name == "eq" ==> (t == True <==> c == x))
        && (name == "ne" ==> (t == True <==> c != x))
        && (name == "gt" ==> (t == True <==> less(x, c)))
        && (name == "gte" ==> (t == True <==> less(x, c) || c == x))
        && (name == "lt" ==> (t == True <==> less(c, x)))
        && (name == "lte" ==> (t == True <==> less(c, x) || c == x))
  {
    hide Compiled, LeftExpr, ReplaceChar, RemoveOperators;
    CompiledIs(rawKey, name, v, f);
    var x := RemoveOperators(v);
    assert holds(Binary("=", LeftExpr(f.left), Value(x))) == (match cell case None => Unknown case Some(c) => Truth3(c == x));
  }

  /** Without an operator a value is compared for equality. */
  lemma PlainIsEquality(rawKey: string, v: string)
    requires v != "" && !HasMatch(v)
    ensures Compile(rawKey, v) == Compile(rawKey, "$eq." + v)
  {
    hide FindOperator, RemoveOperators, GetQueryOperator, TypedFilter, HasMatch, IsValid, Split;
    assert "$" + "eq" + "." == "$eq.";
    OperatorIs("eq", v);
    NothingFound(v);
    ValueSurvivesIff(v);
    assert GetQueryOperator("$eq") == GetQueryOperator("eq") by { DollarDropped(); }
    assert ReplaceChar("", '.', "") == "";
    assert "$eq." + v != "";
  }

  lemma DollarDropped()
    ensures GetQueryOperator("$eq") == GetQueryOperator("eq") == Ok(Relation("="))
  {
    assert ReplaceChar(ReplaceChar("$eq", '$', ""), ' ', "") == "eq";
    assert ReplaceChar(ReplaceChar("eq", '$', ""), ' ', "") == "eq";
  }

  lemma {:induction false} NothingFound(v: string)
    requires !HasMatch(v)
    ensures FindOperator(v) == ""
  {
    hide MatchLength;
    if v != "" {
      assert v[0..] == v;
      forall i | 0 <= i < |v[1..]|
        ensures MatchLength(v[1..][i..]) == 0
      {
        assert v[1..][i..] == v[i + 1..];
      }
      NothingFound(v[1..]);
    }
  }

  // ----- Membership -----

  /** `$in` is true on exactly the listed values, `$nin` is its three-valued negation. */
  lemma MembershipMeans(rawKey: string, name: string, v: string, f: Filter, holds: Expr -> Truth, cell: Option<string>,
                        less: (string, string) -> bool)
    requires Compiled(rawKey, name, v, f) && (name == "in" || name == "nin") && Orders(holds, LeftExpr(f.left), cell, less)
    ensures var listed := Split(RemoveOperators(v), ",");
      var t := if name == "in" then Eval(Meaning(f), holds) else Not3(Eval(Meaning(f), holds));
      t == match cell case None => Unknown case Some(c) => Truth3(c in listed)
  {
    hide Compiled, LeftExpr, ReplaceChar, RemoveOperators, Orders, Split;
    CompiledIs(rawKey, name, v, f);
    var listed := Split(RemoveOperators(v), ",");
    var left, items := LeftExpr(f.left), ValuesOf(listed);
    var tests := seq(|items|, i requires 0 <= i < |items| => holds(Binary("=", left, items[i])));
    assert Eval(Member(name == "nin", left, items), holds) == Negate(name == "nin", Any3(tests));
    forall i | 0 <= i < |tests|
      ensures tests[i] == match cell case None => Unknown case Some(c) => Truth3(c == listed[i])
    {
      assert items[i] == Value(listed[i]);
      EqualityOf(holds, left, cell, less, listed[i]);
    }
    Any3Is(tests);
    assert tests != [];
    assert tests[0] in tests;
    match cell
    case None =>
    case Some(c) =>
      if c in listed {
        var i :| 0 <= i < |listed| && listed[i] == c;
        assert tests[i] == True;
      }
  }

  lemma EqualityOf(holds: Expr -> Truth, left: Expr, cell: Option<string>, less: (string, string) -> bool, x: string)
    requires Orders(holds, left, cell, less)
    ensures holds(Binary("=", left, Value(x))) == match cell case None => Unknown case Some(c) => Truth3(c == x)
  {
  }

  // ----- Tests and patterns -----

  /** The tests for NULL, TRUE and FALSE, and their negations. */
  lemma TestsMean(rawKey: string, name: string, v: string, f: Filter, holds: Expr -> Truth)
    requires Compiled(rawKey, name, v, f)
    ensures var left := LeftExpr(f.left);
      var t := Eval(Meaning(f), holds);
      && (name == "null" ==> t == holds(Is(false, left, "null")))
      && (name == "notnull" ==> t == Not3(holds(Is(false, left, "null"))))
      && (name == "true" ==> t == holds(Is(false, left, "true")))
      && (name == "nottrue" ==> t == Not3(holds(Is(false, left, "true"))))
      && (name == "false" ==> t == holds(Is(false, left, "false")))
      && (name == "notfalse" ==> t == Not3(holds(Is(false, left, "false"))))
  {
    hide Compiled, LeftExpr, ReplaceChar, RemoveOperators;
    CompiledIs(rawKey, name, v, f);
  }

  /** The patterns heed letter case unless their name says otherwise. */
  lemma PatternsMean(rawKey: string, name: string, v: string, f: Filter, holds: Expr -> Truth)
    requires Compiled(rawKey, name, v, f)
    ensures var left, x := LeftExpr(f.left), Value(RemoveOperators(v));
      var t := Eval(Meaning(f), holds);
      && (name == "like" ==> t == holds(Like(false, false, left, x)))
      && (name == "nlike" ==> t == Not3(holds(Like(false, false, left, x))))
      && (name == "ilike" ==> t == holds(Like(false, true, left, x)))
      && (name == "nilike" ==> t == Not3(holds(Like(false, true, left, x))))
  {
    hide Compiled, LeftExpr, ReplaceChar, RemoveOperators;
    CompiledIs(rawKey, name, v, f);
  }

  // ----- Quantifiers and label trees -----

  /** The quantifiers compare with the elements of an array, which is bound as its literal. */
  lemma QuantifiersMean(rawKey: string, name: string, v: string, f: Filter)
    requires Compiled(rawKey, name, v, f) && (name == "any" || name == "some" || name == "all")
    ensures var elements := Split(RemoveOperators(v), ",");
      var literal := ArrayLiteral.Literal(Elements(elements));
      && Meaning(f) == Quantified("=", name, LeftExpr(f.left), Value(literal))
      && ArrayLiteral.ReadValue(literal) == Some((Elements(elements), ""))
  {
    hide Compiled, LeftExpr, ReplaceChar, RemoveOperators, ArrayLiteral.Literal, ArrayLiteral.ReadValue, Split;
    CompiledIs(rawKey, name, v, f);
    var elements := Elements(Split(RemoveOperators(v), ","));
    ArrayLiteral.LiteralRoundTrip(elements, "");
    assert ArrayLiteral.Literal(elements) + "" == ArrayLiteral.Literal(elements);
  }

  /** Ancestor, descendant, match and full-text match of label trees. */
  lemma TreesMean(rawKey: string, name: string, v: string, f: Filter)
    requires Compiled(rawKey, name, v, f)
    ensures var left, x := LeftExpr(f.left), Value(RemoveOperators(v));
      && (name == "ltreelanc" ==> Meaning(f) == Binary("@>", left, x))
      && (name == "ltreerdesc" ==> Meaning(f) == Binary("<@", left, x))
      && (name == "ltreematch" ==> Meaning(f) == Binary("~", left, x))
      && (name == "ltreematchtxt" ==> Meaning(f) == Binary("@", left, x))
  {
    hide Compiled, LeftExpr, ReplaceChar, RemoveOperators;
    CompiledIs(rawKey, name, v, f);
  }

  // ----- The text, the column, and what is refused -----

  /** The printed text of a compiled filter, read and bound, is the condition the lemmas above
      are about, whatever number it is printed with. */
  lemma CompiledReads(reserved: set<string>, rawKey: string, name: string, v: string, f: Filter, pid: nat)
    requires ServerWords(reserved) && Compiled(rawKey, name, v, f)
    ensures var parsed := ParseCondition(reserved, FilterText(f, pid));
      parsed.Some? && Bind(parsed.value, pid, FilterValues(f)) == Meaning(f)
  {
    hide ParseCondition, FilterText, FilterValues, Bind, Meaning, Compile, WellFormed;
    CompileWellFormed(rawKey, "$" + name + "." + v);
    OneFilterReads(reserved, f, pid);
  }

  /** The name says which column is compared. */
  lemma ColumnCompared(key: string, v: string, f: Filter)
    requires IsValid(key) && Compile(key, v) == Ok(f)
    ensures !f.Search? && f.left == Field(key)
  {
    hide OperatorOf, RemoveOperators, IsValid;
    NoColon(key);
    SplitPlain(key, ':');
  }

  lemma NoColon(key: string)
    requires IsValid(key)
    ensures ':' !in key && '$' !in key && '-' !in key
  {
    ValidExactly(key);
    JoinSplit(key, '.');
    OnlyParts(Split(key, "."));
  }

  lemma {:induction false} OnlyParts(parts: seq<string>)
    requires forall p :: p in parts ==> Segment(p)
    ensures forall c :: c in Join(parts, ".") ==> PartChar(c) || c == '.'
  {
    if |parts| > 1 {
      assert parts[0] in parts;
      OnlyParts(parts[1..]);
    } else if |parts| == 1 {
      assert parts[0] in parts;
    }
  }

  lemma {:induction false} SplitArrow(a: string, b: string)
    requires '-' !in a && '-' !in b
    ensures Split(a + "->>" + b, "->>") == [a, b]
  {
    var s := a + "->>" + b;
    if a == "" {
      assert s[3..] == b;
      SplitArrowFree(b);
      assert "->>" <= s;
    } else {
      assert s[1..] == a[1..] + "->>" + b;
      SplitArrow(a[1..], b);
      assert s[0] == a[0] && !("->>" <= s);
      assert a == [a[0]] + a[1..];
    }
  }

  lemma {:induction false} SplitArrowFree(b: string)
    requires '-' !in b
    ensures Split(b, "->>") == [b]
  {
    if b != "" {
      SplitArrowFree(b[1..]);
      assert !("->>" <= b);
      assert b == [b[0]] + b[1..];
    }
  }

  lemma Suffixed(key: string, suffix: string)
    requires ':' !in key && ':' !in suffix
    ensures Split(key + ":" + suffix, ":") == [key, suffix]
  {
    SplitPlain(suffix, ':');
    SplitHead(key, suffix, ':');
    assert [key] + [suffix] == [key, suffix];
  }

  /** A JSON key compares the attribute of the column that it names. */
  lemma AttributeCompared(column: string, attribute: string, v: string, f: Filter)
    requires IsValid(column) && IsValid(attribute) && Compile(column + "->>" + attribute + ":jsonb", v) == Ok(f)
    ensures !f.Search? && f.left == JsonField(column, attribute)
  {
    hide OperatorOf, RemoveOperators, IsValid, Split;
    NoColon(column);
    NoColon(attribute);
    Suffixed(column + "->>" + attribute, "jsonb");
    assert column + "->>" + attribute + ":" + "jsonb" == column + "->>" + attribute + ":jsonb";
    SplitArrow(column, attribute);
  }

  /** A text search looks for the value in the field, under the configuration if one is named. */
  lemma SearchAsked(field: string, config: string, v: string)
    requires IsValid(field) && IsValid(config) && v != "" && !HasMatch(v)
    ensures Compile(field + ":tsquery", v) == Ok(Search(field, None, v))
    ensures Compile(field + "$" + config + ":tsquery", v) == Ok(Search(field, Some(config), v))
  {
    hide FindOperator, RemoveOperators, IsValid, Split, GetQueryOperator, HasMatch;
    NoColon(field);
    NoColon(config);
    NothingFound(v);
    ValueSurvivesIff(v);
    DollarDropped();
    assert ReplaceChar("", '.', "") == "";
    Suffixed(field, "tsquery");
    assert field + ":" + "tsquery" == field + ":tsquery";
    Suffixed(field + "$" + config, "tsquery");
    assert field + "$" + config + ":" + "tsquery" == field + "$" + config + ":tsquery";
    SplitPlain(field, '$');
    SplitPlain(config, '$');
    SplitHead(field, config, '$');
    assert [field] + [config] == [field, config];
  }

  /** A parameter compiles exactly when its operator is one of those there are. */
  lemma OperatorAccepted(key: string, name: string, v: string)
    requires IsValid(key) && LowerWord(name)
    ensures Compile(key, "$" + name + "." + v).Ok? <==> name in NAMES
  {
    hide OperatorOf, RemoveOperators, IsValid, Split, GetQueryOperator;
    NoColon(key);
    SplitPlain(key, ':');
    OperatorIs(name, v);
    NamesAccepted(name);
  }

  lemma NamesAccepted(name: string)
    requires LowerWord(name)
    ensures GetQueryOperator(name).Ok? <==> name in NAMES
  {
    hide ReplaceChar;
    NameKept(name);
  }
}
