/** adapters/postgres/formatters: array literals (PostgreSQL manual section 8.15.6). */
module ArrayLiteral {
  import opened Text

  /** What the printer supports: strings, ints and nested lists of them. */
  datatype Value = Leaf(text: string) | Number(n: int) | List(items: seq<Value>)

  const COMMA := ","

  /** The literal of a value, elements separated by commas. */
  function Literal(v: Value): (s: string)
    ensures s != ""
    decreases v, 1
  {
    match v
    case Leaf(text) => "\"" + ReplaceChar(ReplaceChar(text, '\\', "\\\\"), '"', "\\\"") + "\""
    case Number(n) => Itoa(n)
    case List(items) => "{" + Join(Literals(items), COMMA) + "}"
  }

  function Literals(items: seq<Value>): (r: seq<string>)
    ensures |r| == |items| && forall s :: s in r ==> s != ""
    decreases items, 0
  {
    if items == [] then [] else [Literal(items[0])] + Literals(items[1..])
  }

  lemma {:induction false} LiteralsAt(items: seq<Value>, i: nat)
    requires i < |items|
    ensures Literals(items)[i] == Literal(items[i])
  {
    if i > 0 {
      LiteralsAt(items[1..], i - 1);
    }
  }

  method FormatArray(value: Value) returns (ret: string)
    ensures ret == Literal(value)
  {
    match value
    case Leaf(text) =>
      var aux := ReplaceChar(text, '\\', "\\\\");
      aux := ReplaceChar(aux, '"', "\\\"");
      ret := "\"" + aux + "\"";
    case Number(n) =>
      ret := Itoa(n);
    case List(items) =>
      var aux := "";
      for i := 0 to |items|
        invariant aux == Join(Literals(items)[..i], COMMA)
      {
        NextElement(items, i);
        if aux != "" {
          aux := aux + ",";
        }
        var element := FormatArray(items[i]);
        aux := aux + element;
      }
      assert Literals(items)[..|items|] == Literals(items);
      ret := "{" + aux + "}";
  }

  /** Elements never print as nothing, so testing the accumulator for emptiness drops no comma. */
  lemma NextElement(items: seq<Value>, i: nat)
    requires i < |items|
    ensures var aux := Join(Literals(items)[..i], COMMA);
      Join(Literals(items)[..i + 1], COMMA) == (if aux != "" then aux + COMMA else aux) + Literal(items[i])
  {
    LiteralsAt(items, i);
    NextPart(Literals(items), i, COMMA);
  }

  // ----- Reading array literals -----

  /** A double-quoted element after its opening quote; a backslash keeps the next character. */
  function QuotedElement(s: string): (r: Option<(string, string)>)
    ensures r.Some? ==> |r.value.1| < |s|
  {
    if s == "" then None
    else if s[0] == '"' then Some(("", s[1..]))
    else if s[0] == '\\' then
      if |s| == 1 then None
      else match QuotedElement(s[2..]) case None => None case Some(r) => Some(([s[1]] + r.0, r.1))
    else match QuotedElement(s[1..]) case None => None case Some(r) => Some(([s[0]] + r.0, r.1))
  }

  predicate BareChar(c: char) {
    c != ',' && c != '{' && c != '}' && c != '"' && c != '\\' && !IsSpace(c)
  }

  function BareRun(s: string): (n: nat)
    ensures n <= |s|
  {
    if s != "" && BareChar(s[0]) then 1 + BareRun(s[1..]) else 0
  }

  function ReadInt(s: string): Option<int> {
    if s != "" && s[0] == '-' && AllDigits(s[1..]) then Some(-(DigitsValue(s[1..]) as int))
    else if AllDigits(s) then Some(DigitsValue(s))
    else None
  }

  /** One element or sub-array at the start of `s`, and the text after it. */
  function ReadValue(s: string): (r: Option<(Value, string)>)
    ensures r.Some? ==> |r.value.1| < |s|
    decreases |s|, 0
  {
    if s == "" then None
    else if IsSpace(s[0]) then ReadValue(s[1..])
    else if s[0] == '{' then
      if s[1..] != "" && s[1] == '}' then Some((List([]), s[2..]))
      else match ReadItems(s[1..]) case None => None case Some(r) => Some((List(r.0), r.1))
    else if s[0] == '"' then
      match QuotedElement(s[1..]) case None => None case Some(r) => Some((Leaf(r.0), r.1))
    else
      var n := BareRun(s);
      match ReadInt(s[..n])
      case None => None
      case Some(i) => if n > 0 then Some((Number(i), s[n..])) else None
  }

  /** Elements up to and including the closing brace. */
  function ReadItems(s: string): (r: Option<(seq<Value>, string)>)
    ensures r.Some? ==> |r.value.1| < |s|
    decreases |s|, 1
  {
    match ReadValue(s)
    case None => None
    case Some((v, rest)) =>
      if rest == "" then None
      else if rest[0] == '}' then Some(([v], rest[1..]))
      else if rest[0] == ',' then
        match ReadItems(rest[1..]) case None => None case Some(r) => Some(([v] + r.0, r.1))
      else None
  }

  function EscapeChar(c: char): string {
    if c == '\\' then "\\\\" else if c == '"' then "\\\"" else [c]
  }

  function Escape(s: string): string { if s == "" then "" else EscapeChar(s[0]) + Escape(s[1..]) }

  /** The two whole-string replacements, one after the other, escape each character once. */
  lemma {:induction false} TwoReplacementsEscape(s: string)
    ensures ReplaceChar(ReplaceChar(s, '\\', "\\\\"), '"', "\\\"") == Escape(s)
  {
    if s != "" {
      var first := if s[0] == '\\' then "\\\\" else [s[0]];
      TwoReplacementsEscape(s[1..]);
      ReplaceCharConcat(first, ReplaceChar(s[1..], '\\', "\\\\"), '"', "\\\"");
      ReplaceFirst(s[0]);
    }
  }

  lemma ReplaceFirst(c: char)
    ensures ReplaceChar(if c == '\\' then "\\\\" else [c], '"', "\\\"") == EscapeChar(c)
  {
    if c == '\\' {
      ReplaceAbsent("\\\\", '"', "\\\"");
    } else {
      assert [c][1..] == "";
    }
  }

  lemma {:induction false} QuotedRoundTrip(s: string, rest: string)
    ensures QuotedElement(Escape(s) + ("\"" + rest)) == Some((s, rest))
  {
    hide QuotedElement, EscapeChar;
    if s == "" {
      assert Escape(s) + ("\"" + rest) == "\"" + rest;
      QuotedEnd(rest);
    } else {
      var tail := Escape(s[1..]) + ("\"" + rest);
      QuotedRoundTrip(s[1..], rest);
      assert Escape(s) + ("\"" + rest) == EscapeChar(s[0]) + tail;
      EscapedCharReads(s[0], tail);
      assert s == [s[0]] + s[1..];
    }
  }

  lemma QuotedEnd(rest: string)
    ensures QuotedElement("\"" + rest) == Some(("", rest))
  {
    assert ("\"" + rest)[1..] == rest;
  }

  lemma EscapedCharReads(c: char, tail: string)
    requires QuotedElement(tail).Some?
    ensures QuotedElement(EscapeChar(c) + tail) == Some(([c] + QuotedElement(tail).value.0, QuotedElement(tail).value.1))
  {
    if c == '\\' || c == '"' {
      assert (EscapeChar(c) + tail)[2..] == tail;
    } else {
      assert (EscapeChar(c) + tail)[1..] == tail;
    }
  }

  lemma {:induction false} BareRunExact(s: string, rest: string)
    requires forall c :: c in s ==> BareChar(c)
    requires rest == "" || !BareChar(rest[0])
    ensures BareRun(s + rest) == |s|
  {
    if s == "" {
      assert s + rest == rest;
    } else {
      BareRunExact(s[1..], rest);
      assert (s + rest)[1..] == s[1..] + rest;
    }
  }

  lemma NumberReads(n: int)
    ensures ReadInt(Itoa(n)) == Some(n)
    ensures Itoa(n) != "" && forall c :: c in Itoa(n) ==> BareChar(c)
  {
    var digits := Decimal(if n < 0 then -n else n);
    DecimalValue(if n < 0 then -n else n);
    if n < 0 {
      assert Itoa(n)[1..] == digits;
    } else {
      assert Itoa(n)[0] in digits;
    }
  }

  lemma NumberRoundTrip(n: int, rest: string)
    requires rest == "" || !BareChar(rest[0])
    ensures ReadValue(Itoa(n) + rest) == Some((Number(n), rest))
  {
    var s := Itoa(n) + rest;
    NumberReads(n);
    BareRunExact(Itoa(n), rest);
    assert BareChar(s[0]) by {
      assert s[0] == Itoa(n)[0];
    }
    assert s[..|Itoa(n)|] == Itoa(n) && s[|Itoa(n)|..] == rest;
  }

  /** Text that may follow an element. */
  predicate Delimits(rest: string) { rest == "" || rest[0] == ',' || rest[0] == '}' }

  /** Reading back a printed value of any nesting gives the value. */
  lemma {:induction false} LiteralRoundTrip(v: Value, rest: string)
    requires Delimits(rest)
    ensures ReadValue(Literal(v) + rest) == Some((v, rest))
    decreases v, 1
  {
    match v
    case Leaf(text) =>
      TwoReplacementsEscape(text);
      QuotedRoundTrip(text, rest);
      assert (Literal(v) + rest)[1..] == Escape(text) + ("\"" + rest);
    case Number(n) =>
      NumberRoundTrip(n, rest);
    case List(items) =>
      var inner := Join(Literals(items), COMMA) + "}" + rest;
      assert Literal(v) + rest == "{" + inner;
      if items == [] {
        assert inner == "}" + rest;
        EmptyReads(rest);
      } else {
        ItemsRoundTrip(items, rest);
        LiteralHead(items[0]);
        JoinFirst(Literals(items), COMMA);
        ListReads(inner);
      }
  }

  lemma EmptyReads(rest: string)
    ensures ReadValue("{" + ("}" + rest)) == Some((List([]), rest))
  {
    assert ("{" + ("}" + rest))[2..] == rest;
  }

  lemma ListReads(inner: string)
    requires inner != "" && inner[0] != '}' && ReadItems(inner).Some?
    ensures ReadValue("{" + inner) == Some((List(ReadItems(inner).value.0), ReadItems(inner).value.1))
  {
    assert ("{" + inner)[1..] == inner;
  }

  lemma LiteralHead(v: Value)
    ensures Literal(v)[0] != '}' && !IsSpace(Literal(v)[0])
  {
    if v.Number? {
      var digits := Decimal(if v.n < 0 then -v.n else v.n);
      assert Itoa(v.n)[0] == '-' || Itoa(v.n)[0] in digits;
    }
  }

  lemma JoinFirst(parts: seq<string>, sep: string)
    requires parts != [] && parts[0] != ""
    ensures Join(parts, sep) != "" && Join(parts, sep)[0] == parts[0][0]
  {
  }

  lemma {:induction false} ItemsRoundTrip(items: seq<Value>, rest: string)
    requires items != []
    ensures ReadItems(Join(Literals(items), COMMA) + "}" + rest) == Some((items, rest))
    decreases items, 0
  {
    var first := items[0];
    if |items| == 1 {
      assert items == [first];
      LiteralRoundTrip(first, "}" + rest);
      Associative(Literal(first), "}", rest);
      LastItem(Literal(first), first, rest);
    } else {
      var tail := Join(Literals(items[1..]), COMMA) + "}" + rest;
      LiteralRoundTrip(first, COMMA + tail);
      ItemsRoundTrip(items[1..], rest);
      Regroup(Literal(first), Join(Literals(items[1..]), COMMA), rest);
      NextItem(Literal(first), first, tail);
      assert items == [first] + items[1..];
    }
  }

  lemma Regroup(a: string, more: string, rest: string)
    ensures a + COMMA + more + "}" + rest == a + (COMMA + (more + "}" + rest))
  {
  }

  lemma LastItem(text: string, v: Value, rest: string)
    requires ReadValue(text + ("}" + rest)) == Some((v, "}" + rest))
    ensures ReadItems(text + ("}" + rest)) == Some(([v], rest))
  {
    assert ("}" + rest)[1..] == rest;
  }

  lemma NextItem(text: string, v: Value, tail: string)
    requires ReadValue(text + (COMMA + tail)) == Some((v, COMMA + tail)) && ReadItems(tail).Some?
    ensures ReadItems(text + (COMMA + tail)) == Some(([v] + ReadItems(tail).value.0, ReadItems(tail).value.1))
  {
    assert (COMMA + tail)[1..] == tail;
  }

  /** Different values print differently. */
  lemma LiteralInjective(a: Value, b: Value)
    requires Literal(a) == Literal(b)
    ensures a == b
  {
    LiteralRoundTrip(a, "");
    LiteralRoundTrip(b, "");
    assert Literal(a) + "" == Literal(a) && Literal(b) + "" == Literal(b);
  }
}
