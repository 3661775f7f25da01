/** Batch inserts, laid out once for VALUES and once for COPY: adapters/postgres/postgres.go,
    `ParseBatchInsertRequest`, `operationValues`, `tableKeys` and `copyRows`, and the split of
    the column list in controllers/tables.go. */
module Batch {
  import opened Text
  import opened SqlLexer
  import opened FilterTokens
  import opened Inserts
  import ArrayLiteral

  type Record = map<string, Cell>

  datatype BatchError = BodyEmpty | BadKey

  // ----- strconv.Quote and strconv.Unquote on keys of printable characters -----

  function GoQuote(key: string): string { "\"" + ArrayLiteral.Escape(key) + "\"" }

  /** The content after an opening quote, up to the closing one at the very end. */
  function GoContent(s: string): Option<string>
    decreases |s|
  {
    if s == "" then None
    else if s[0] == '"' then if |s| == 1 then Some("") else None
    else if s[0] == '\\' then
      if |s| > 1 && (s[1] == '\\' || s[1] == '"') then
        match GoContent(s[2..]) case None => None case Some(r) => Some([s[1]] + r)
      else None
    else match GoContent(s[1..]) case None => None case Some(r) => Some([s[0]] + r)
  }

  function GoUnquote(s: string): Option<string> {
    if s != "" && s[0] == '"' then GoContent(s[1..]) else None
  }

  lemma {:induction false} QuoteUnquote(key: string)
    ensures GoUnquote(GoQuote(key)) == Some(key)
  {
    EscapedContent(key, "\"");
    assert GoQuote(key)[1..] == ArrayLiteral.Escape(key) + "\"";
    assert key + "" == key && GoContent("\"") == Some("");
  }

  lemma {:induction false} EscapedContent(key: string, rest: string)
    ensures GoContent(ArrayLiteral.Escape(key) + rest) ==
            match GoContent(rest) case None => None case Some(r) => Some(key + r)
  {
    var s := ArrayLiteral.Escape(key) + rest;
    if key == "" {
      assert s == rest;
      if GoContent(rest).Some? {
        assert "" + GoContent(rest).value == GoContent(rest).value;
      }
    } else {
      var tail := ArrayLiteral.Escape(key[1..]) + rest;
      EscapedContent(key[1..], rest);
      assert s == ArrayLiteral.EscapeChar(key[0]) + tail;
      EscapedCharContent(key[0], tail);
      assert key == [key[0]] + key[1..];
      if GoContent(rest).Some? {
        assert [key[0]] + (key[1..] + GoContent(rest).value) == key + GoContent(rest).value;
      }
    }
  }

  lemma EscapedCharContent(c: char, tail: string)
    ensures GoContent(ArrayLiteral.EscapeChar(c) + tail) ==
            match GoContent(tail) case None => None case Some(r) => Some([c] + r)
  {
    if c == '\\' || c == '"' {
      assert (ArrayLiteral.EscapeChar(c) + tail)[2..] == tail;
    } else {
      assert (ArrayLiteral.EscapeChar(c) + tail)[1..] == tail;
    }
  }

  function QuoteAll(keys: seq<string>): (r: seq<string>)
    ensures |r| == |keys| && forall i :: 0 <= i < |keys| ==> r[i] == GoQuote(keys[i])
  {
    seq(|keys|, i requires 0 <= i < |keys| => GoQuote(keys[i]))
  }

  // ----- sort.Strings -----

  /** Byte order. */
  predicate AtMost(a: string, b: string) {
    a == "" || (b != "" && (a[0] < b[0] || (a[0] == b[0] && AtMost(a[1..], b[1..]))))
  }

  lemma {:induction false} AtMostTotal(a: string, b: string)
    ensures AtMost(a, b) || AtMost(b, a)
    ensures AtMost(a, b) && AtMost(b, a) ==> a == b
  {
    if a != "" && b != "" && a[0] == b[0] {
      AtMostTotal(a[1..], b[1..]);
      assert a == [a[0]] + a[1..] && b == [b[0]] + b[1..];
    }
  }

  lemma {:induction false} AtMostTransitive(a: string, b: string, c: string)
    requires AtMost(a, b) && AtMost(b, c)
    ensures AtMost(a, c)
  {
    if a != "" && b != "" && c != "" && a[0] == b[0] && b[0] == c[0] {
      AtMostTransitive(a[1..], b[1..], c[1..]);
    }
  }

  predicate Sorted(s: seq<string>) { forall i, j :: 0 <= i < j < |s| ==> AtMost(s[i], s[j]) }

  function Insertion(x: string, s: seq<string>): seq<string> {
    if s == [] || AtMost(x, s[0]) then [x] + s else [s[0]] + Insertion(x, s[1..])
  }

  function SortStrings(s: seq<string>): seq<string> {
    if s == [] then [] else Insertion(s[0], SortStrings(s[1..]))
  }

  lemma {:induction false} InsertionSorts(x: string, s: seq<string>)
    requires Sorted(s)
    ensures Sorted(Insertion(x, s)) && multiset(Insertion(x, s)) == multiset(s) + multiset{x}
  {
    if s == [] {
    } else if AtMost(x, s[0]) {
      forall i | 0 <= i < |s|
        ensures AtMost(x, s[i])
      {
        if i > 0 {
          AtMostTransitive(x, s[0], s[i]);
        }
      }
    } else {
      AtMostTotal(x, s[0]);
      InsertionSorts(x, s[1..]);
      var rest := Insertion(x, s[1..]);
      assert s == [s[0]] + s[1..];
      forall i | 0 <= i < |rest|
        ensures AtMost(s[0], rest[i])
      {
        assert rest[i] in multiset(rest);
        assert rest[i] == x || rest[i] in s[1..];
      }
    }
  }

  lemma {:induction false} SortSorts(s: seq<string>)
    ensures Sorted(SortStrings(s)) && multiset(SortStrings(s)) == multiset(s)
  {
    if s != [] {
      SortSorts(s[1..]);
      InsertionSorts(s[0], SortStrings(s[1..]));
      assert s == [s[0]] + s[1..];
    }
  }

  lemma SameFirst(a: seq<string>, b: seq<string>)
    requires Sorted(a) && Sorted(b) && multiset(a) == multiset(b) && a != [] && b != []
    ensures a[0] == b[0]
  {
    assert a[0] in multiset(b) && b[0] in multiset(a);
    var i :| 0 <= i < |b| && b[i] == a[0];
    var j :| 0 <= j < |a| && a[j] == b[0];
    AtMostTotal(a[0], b[0]);
    AtMostRefl(a[0]);
    assert i == 0 || AtMost(b[0], b[i]);
    assert j == 0 || AtMost(a[0], a[j]);
  }

  /** The sorted order of given strings is unique. */
  lemma {:induction false} SortedUnique(a: seq<string>, b: seq<string>)
    requires Sorted(a) && Sorted(b) && multiset(a) == multiset(b)
    ensures a == b
  {
    hide AtMost;
    assert |a| == |multiset(a)| == |multiset(b)| == |b|;
    if a != [] {
      SameFirst(a, b);
      assert a == [a[0]] + a[1..] && b == [b[0]] + b[1..];
      assert multiset(a[1..]) == multiset(a) - multiset{a[0]};
      assert multiset(b[1..]) == multiset(b) - multiset{b[0]};
      assert Sorted(a[1..]) && Sorted(b[1..]);
      SortedUnique(a[1..], b[1..]);
    }
  }

  lemma AtMostRefl(a: string)
    ensures AtMost(a, a)
  {
    AtMostTotal(a, a);
  }

  /** The quoted keys of a record, sorted; `order` is the order in which the map yields them. */
  method TableKeys(order: seq<string>) returns (keys: seq<string>)
    ensures keys == SortStrings(QuoteAll(order))
  {
    keys := [];
    for i := 0 to |order|
      invariant keys == QuoteAll(order)[..i]
    {
      keys := keys + [GoQuote(order[i])];
    }
    assert keys == QuoteAll(order);
    keys := SortStrings(keys);
  }

  lemma {:induction false} QuoteAllConcat(a: seq<string>, b: seq<string>)
    ensures QuoteAll(a + b) == QuoteAll(a) + QuoteAll(b)
  {
    hide GoQuote;
  }

  lemma MovedOut<T>(x: seq<T>, one: seq<T>, y: seq<T>)
    ensures multiset(x + one + y) == multiset(one) + multiset(x + y)
  {
    assert multiset(x + one + y) == multiset(x) + multiset(one) + multiset(y);
    assert multiset(x + y) == multiset(x) + multiset(y);
  }

  lemma Cancel<T>(one: multiset<T>, p: multiset<T>, q: multiset<T>)
    requires one + p == one + q
    ensures p == q
  {
    assert (one + p) - one == p && (one + q) - one == q;
  }

  lemma Without<T>(a: seq<T>, b: seq<T>, i: nat)
    requires a != [] && i < |b| && b[i] == a[0] && multiset(a) == multiset(b)
    ensures b == b[..i] + [a[0]] + b[i + 1..] && a == [] + [a[0]] + a[1..]
    ensures multiset(b[..i] + b[i + 1..]) == multiset(a[1..])
  {
    var x, one, y, rest := b[..i], [a[0]], b[i + 1..], a[1..];
    assert b == x + one + y;
    assert a == [] + one + rest && [] + rest == rest;
    MovedOut(x, one, y);
    MovedOut([], one, rest);
    Cancel(multiset(one), multiset(x + y), multiset(rest));
  }

  lemma {:induction false} QuoteAllMultiset(a: seq<string>, b: seq<string>)
    requires multiset(a) == multiset(b)
    ensures multiset(QuoteAll(a)) == multiset(QuoteAll(b))
    decreases |a|
  {
    hide GoQuote, QuoteAll;
    if a == [] {
      assert |b| == |multiset(b)| == |multiset(a)| == 0;
    } else {
      assert a[0] in multiset(b);
      var i :| 0 <= i < |b| && b[i] == a[0];
      Without(a, b, i);
      QuoteAllMultiset(a[1..], b[..i] + b[i + 1..]);
      QuoteAllParts(b[..i], [a[0]], b[i + 1..]);
      QuoteAllParts([], [a[0]], a[1..]);
      assert [] + a[1..] == a[1..];
    }
  }

  lemma QuoteAllParts(x: seq<string>, one: seq<string>, y: seq<string>)
    ensures multiset(QuoteAll(x + one + y)) == multiset(QuoteAll(one)) + multiset(QuoteAll(x + y))
  {
    hide GoQuote, QuoteAll;
    QuoteAllConcat(x, y);
    QuoteAllConcat(x + one, y);
    QuoteAllConcat(x, one);
    MovedOut(QuoteAll(x), QuoteAll(one), QuoteAll(y));
  }

  /** Whatever order the map yields its keys in, the columns are the same. */
  lemma KeysOrderIndependent(a: seq<string>, b: seq<string>)
    requires multiset(a) == multiset(b)
    ensures SortStrings(QuoteAll(a)) == SortStrings(QuoteAll(b))
  {
    QuoteAllMultiset(a, b);
    SortSorts(QuoteAll(a));
    SortSorts(QuoteAll(b));
    SortedUnique(SortStrings(QuoteAll(a)), SortStrings(QuoteAll(b)));
  }
}
