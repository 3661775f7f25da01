/** Paging: adapters/postgres/postgres.go, `PaginateIfPossible`; template/funcregistry.go,
    `LimitOffset`. */
module Paging {
  import opened Text
  import opened SqlLexer
  import opened FilterTokens

  const MAX_INT: int := 0x7fff_ffff_ffff_ffff
  const MIN_INT: int := -0x8000_0000_0000_0000
  const DEFAULT_PAGE_SIZE := 10

  predicate Int64(n: int) { MIN_INT <= n <= MAX_INT }

  /** A 64-bit result. */
  function Wrap(n: int): (r: int)
    ensures Int64(r) && (Int64(n) ==> r == n)
  {
    (n - MIN_INT) % (MAX_INT - MIN_INT + 1) + MIN_INT
  }

  /** strconv.Atoi */
  function Atoi(s: string): Option<int> {
    var signed := s != "" && (s[0] == '-' || s[0] == '+');
    var digits := if signed then s[1..] else s;
    if !AllDigits(digits) then None
    else
      var value: int := DigitsValue(digits);
      var n := if signed && s[0] == '-' then -value else value;
      if Int64(n) then Some(n) else None
  }

  lemma AtoiItoa(n: int)
    requires Int64(n)
    ensures Atoi(Itoa(n)) == Some(n)
  {
    var digits := Decimal(if n < 0 then -n else n);
    DecimalValue(if n < 0 then -n else n);
    assert digits[0] in digits;
    if n < 0 {
      assert Itoa(n)[1..] == digits;
    }
  }

  /** The page that is printed for a requested one. */
  function PageOf(pageNumber: int): int { if Wrap(pageNumber - 1) < 0 then 1 else pageNumber }

  function PagingText(page: int, size: int): string {
    "LIMIT " + Itoa(size) + " OFFSET(" + Itoa(page) + " - 1) * " + Itoa(size)
  }

  method LimitOffset(pageNumberStr: string, pageSizeStr: string) returns (r: Result<string, ()>)
    ensures r == match (Atoi(pageNumberStr), Atoi(pageSizeStr))
                 case (Some(page), Some(size)) => Ok(PagingText(PageOf(page), size))
                 case _ => Err(())
  {
    var pageNumber := Atoi(pageNumberStr);
    if pageNumber == None {
      return Err(());
    }
    var pageSize := Atoi(pageSizeStr);
    if pageSize == None {
      return Err(());
    }
    var page := pageNumber.value;
    if Wrap(page - 1) < 0 {
      page := 1;
    }
    return Ok("LIMIT " + Itoa(pageSize.value) + " OFFSET(" + Itoa(page) + " - 1) * " + Itoa(pageSize.value));
  }

  /** `page` and `size` are the first values of the two query parameters, if present. */
  method PaginateIfPossible(page: Option<string>, size: Option<string>) returns (r: Result<string, ()>)
    ensures page == None ==> r == Ok("")
    ensures page.Some? ==>
              var number, count := Atoi(page.value), if size.Some? then Atoi(size.value) else Some(DEFAULT_PAGE_SIZE);
                r == if number.None? || count.None? then Err(()) else Ok(PagingText(PageOf(number.value), count.value))
  {
    if page == None {
      return Ok("");
    }
    var pageNumber := Atoi(page.value);
    if pageNumber == None {
      return Err(());
    }
    var pageSize := Some(DEFAULT_PAGE_SIZE);
    if size.Some? {
      pageSize := Atoi(size.value);
      if pageSize == None {
        return Err(());
      }
    }
    AtoiItoa(pageNumber.value);
    AtoiItoa(pageSize.value);
    r := LimitOffset(Itoa(pageNumber.value), Itoa(pageSize.value));
  }

  // ----- Reading the clause -----

  function ReadInt(ts: seq<Token>): (r: Option<(int, seq<Token>)>)
    ensures r.Some? ==> |r.value.1| < |ts|
  {
    if ts != [] && ts[0].Num? then Some((ts[0].value, ts[1..]))
    else if |ts| > 1 && ts[0] == Op("-") && ts[1].Num? then
      var value: int := ts[1].value;
      Some((-value, ts[2..]))
    else None
  }

  /** LIMIT and OFFSET as counts of rows. */
  function ReadPaging(ts: seq<Token>): Option<(int, int)> {
    if ts == [] || ts[0] != Word("limit") then None
    else match ReadInt(ts[1..])
      case None => None
      case Some((limit, ts1)) =>
        if |ts1| < 2 || ts1[0] != Word("offset") || ts1[1] != LPar then None
        else match ReadInt(ts1[2..])
          case None => None
          case Some((page, ts2)) =>
            if |ts2| < 4 || ts2[0] != Op("-") || !ts2[1].Num? || ts2[2] != RPar || ts2[3] != Op("*") then None
            else match ReadInt(ts2[4..])
              case None => None
              case Some((size, ts3)) => if ts3 == [] then Some((limit, (page - ts2[1].value) * size)) else None
  }

  const LIMIT := Lexeme("LIMIT", Word("limit"))
  const OFFSET := Lexeme("OFFSET", Word("offset"))
  const MINUS := Lexeme("-", Op("-"))
  const TIMES := Lexeme("*", Op("*"))
  const ONE := Lexeme("1", Num(1))

  function NumDoc(n: nat): Doc { Lexeme(Decimal(n), Num(n)) }
  function IntDoc(n: int): Doc { if n < 0 then Cat(MINUS, NumDoc(-n)) else NumDoc(n) }
  function IntTokens(n: int): seq<Token> { if n < 0 then [Op("-"), Num(-n)] else [Num(n)] }

  lemma {:induction false} IntReads(n: int)
    ensures var d := IntDoc(n);
      && Readable(d) && Render(d) == Itoa(n) && Tokens(d) == IntTokens(n)
      && Last(d).Lexeme? && Last(d).token.Num? && First(d).Lexeme?
  {
    var digits := NumDoc(if n < 0 then -n else n);
    LeafFacts(digits);
    assert digits.text[0] in digits.text;
    if n < 0 {
      assert Faithful("-", Op("-"));
      LeafFacts(MINUS);
      CatFacts(MINUS, digits);
    }
  }

  lemma ReadIntTokens(n: int, rest: seq<Token>)
    ensures ReadInt(IntTokens(n) + rest) == Some((n, rest))
  {
    assert n < 0 ==> (IntTokens(n) + rest)[2..] == rest;
    assert n >= 0 ==> (IntTokens(n) + rest)[1..] == rest;
  }

  lemma MarksRead()
    ensures Readable(LIMIT) && Readable(OFFSET) && Readable(MINUS) && Readable(TIMES) && Readable(ONE)
  {
    assert Lower("LIMIT") == "limit" && Lower("OFFSET") == "offset";
    assert Decimal(1) == "1";
  }

  /** `LIMIT s OFFSET(` */
  function HeadDoc(size: Doc): Doc { Cat(Cat(Cat(Cat(Cat(LIMIT, Gap), size), Gap), OFFSET), OPEN) }

  lemma {:induction false} HeadReads(size: Doc)
    requires Readable(size) && Last(size).Lexeme?
    ensures var d := HeadDoc(size);
      && Readable(d) && Render(d) == "LIMIT " + Render(size) + " OFFSET("
      && Tokens(d) == [Word("limit")] + Tokens(size) + [Word("offset")] + [LPar] && Last(d) == OPEN
  {
    hide Render, Tokens, Readable, First, Last;
    MarksRead();
    LeafFacts(LIMIT);
    LeafFacts(OFFSET);
    LeafFacts(OPEN);
    Spaced(LIMIT, size);
    var limit := Cat(Cat(LIMIT, Gap), size);
    Spaced(limit, OFFSET);
    CatFacts(Cat(Cat(limit, Gap), OFFSET), OPEN);
    HeadText("LIMIT", " ", Render(size), "OFFSET", "(");
    assert "LIMIT" + " " == "LIMIT " && " " + "OFFSET" + "(" == " OFFSET(";
  }

  lemma HeadText(a: string, gap: string, size: string, b: string, open: string)
    ensures a + gap + size + gap + b + open == (a + gap) + size + (gap + b + open)
  {
  }

  /** ` - 1) * s` */
  function TailDoc(page: Doc, size: Doc): Doc {
    Cat(Cat(Cat(Cat(Cat(Cat(Cat(Cat(Cat(page, Gap), MINUS), Gap), ONE), CLOSE), Gap), TIMES), Gap), size)
  }

  lemma {:induction false} TailReads(page: Doc, size: Doc)
    requires Readable(page) && Readable(size) && Last(size).Lexeme?
    ensures var d := TailDoc(page, size);
      && Readable(d) && Render(d) == Render(page) + " - 1) * " + Render(size)
      && Tokens(d) == Tokens(page) + [Op("-")] + [Num(1)] + [RPar] + [Op("*")] + Tokens(size)
  {
    hide Render, Tokens, Readable, First, Last;
    MarksRead();
    LeafFacts(MINUS);
    LeafFacts(ONE);
    LeafFacts(CLOSE);
    LeafFacts(TIMES);
    Spaced(page, MINUS);
    var minus := Cat(Cat(page, Gap), MINUS);
    Spaced(minus, ONE);
    var one := Cat(Cat(minus, Gap), ONE);
    CatFacts(one, CLOSE);
    Spaced(Cat(one, CLOSE), TIMES);
    Spaced(Cat(Cat(Cat(one, CLOSE), Gap), TIMES), size);
    TailText(Render(page), " ", "-", "1", ")", "*", Render(size));
    assert " " + "-" + " " + "1" + ")" + " " + "*" + " " == " - 1) * ";
  }

  lemma TailText(p: string, gap: string, minus: string, one: string, close: string, times: string, s: string)
    ensures p + gap + minus + gap + one + close + gap + times + gap + s ==
            p + (gap + minus + gap + one + close + gap + times + gap) + s
  {
    var middle := gap + minus + gap + one + close + gap + times + gap;
    assert p + gap + minus + gap + one == p + (gap + minus + gap + one);
    assert p + (gap + minus + gap + one) + close + gap + times + gap == p + middle;
  }

  lemma {:induction false} PagingDocReads(page: int, size: int)
    ensures Lex(PagingText(page, size)) ==
            Some([Word("limit")] + IntTokens(size) + [Word("offset")] + [LPar] +
                 (IntTokens(page) + [Op("-")] + [Num(1)] + [RPar] + [Op("*")] + IntTokens(size)))
  {
    hide IntDoc, HeadDoc, TailDoc, Lex, Render, Tokens, Readable, First, Last, Itoa, IntTokens;
    var p, s := IntDoc(page), IntDoc(size);
    IntReads(page);
    IntReads(size);
    HeadReads(s);
    TailReads(p, s);
    CatFacts(HeadDoc(s), TailDoc(p, s));
    LeafFacts(OPEN);
    OpenAbuts(HeadDoc(s), TailDoc(p, s));
    LexRender(Cat(HeadDoc(s), TailDoc(p, s)));
    Joined("LIMIT ", Itoa(size), " OFFSET(", Itoa(page), " - 1) * ", Itoa(size));
  }

  lemma Joined(a: string, b: string, c: string, d: string, e: string, f: string)
    ensures (a + b + c) + (d + e + f) == a + b + c + d + e + f
  {
  }

  lemma OpenAbuts(a: Doc, b: Doc)
    requires Readable(a) && Readable(b) && Last(a) == OPEN
    ensures Readable(Cat(a, b))
  {
  }

  /** The printed clause limits to `size` rows after `(page - 1) * size` of them. */
  lemma PagingReads(page: int, size: int)
    ensures var ts := Lex(PagingText(page, size)); ts.Some? && ReadPaging(ts.value) == Some((size, (page - 1) * size))
  {
    hide Lex, PagingText, IntTokens, ReadInt;
    PagingDocReads(page, size);
    var p, s := IntTokens(page), IntTokens(size);
    var last := s;
    var middle := [Op("-")] + [Num(1)] + [RPar] + [Op("*")] + last;
    var inner := p + middle;
    var after := [Word("offset")] + [LPar] + inner;
    var ts := [Word("limit")] + (s + after);
    assert ts == [Word("limit")] + s + [Word("offset")] + [LPar] + (p + [Op("-")] + [Num(1)] + [RPar] + [Op("*")] + s);
    assert ts[1..] == s + after && after[2..] == inner && middle[4..] == last + [];
    ReadIntTokens(size, after);
    ReadIntTokens(page, middle);
    ReadIntTokens(size, []);
  }

  /** Requested page numbers of 0 and below select page 1, except the least machine integer,
      whose predecessor wraps around. */
  lemma FirstPageIff(page: int, size: int)
    requires Int64(page) && size > 0
    ensures PagingText(PageOf(page), size) == PagingText(1, size) <==> MIN_INT < page <= 1
  {
    hide PagingText, Lex, ReadPaging;
    PagingReads(PageOf(page), size);
    PagingReads(1, size);
    if page == MIN_INT {
      assert Wrap(page - 1) == MAX_INT;
      Different(page, size);
    } else if page > 1 {
      Different(page, size);
    }
  }

  lemma Different(page: int, size: int)
    requires page != 1 && size > 0
    ensures (page - 1) * size != 0
  {
  }

  // ----- Pages partition the result -----

  function Min(a: int, b: int): int { if a < b then a else b }

  /** The rows that LIMIT and OFFSET keep; negative counts are errors. */
  function Select<T>(rows: seq<T>, limit: int, offset: int): Option<seq<T>> {
    if limit < 0 || offset < 0 then None
    else Some(rows[Min(offset, |rows|)..Min(offset + limit, |rows|)])
  }

  /** The rows of one page: what the clause printed for the request selects. */
  function Page<T>(rows: seq<T>, page: int, size: int): Option<seq<T>> {
    match (Atoi(Itoa(page)), Atoi(Itoa(size)))
    case (Some(p), Some(s)) =>
      (match Lex(PagingText(PageOf(p), s))
       case None => None
       case Some(ts) => match ReadPaging(ts) case None => None case Some((limit, offset)) => Select(rows, limit, offset))
    case _ => None
  }

  lemma Product(page: int, size: int)
    requires page >= 1 && size >= 1
    ensures 0 <= (page - 1) * size && (page - 1) * size + size == page * size
  {
  }

  /** A page is the slice that starts after the pages before it. */
  lemma PageIs<T>(rows: seq<T>, page: int, size: int)
    requires 1 <= page <= MAX_INT && 1 <= size <= MAX_INT
    ensures 0 <= (page - 1) * size <= page * size
    ensures Page(rows, page, size) == Some(rows[Min((page - 1) * size, |rows|)..Min(page * size, |rows|)])
  {
    hide Lex, PagingText, ReadPaging, Atoi, Itoa;
    AtoiItoa(page);
    AtoiItoa(size);
    PagingReads(page, size);
    Product(page, size);
  }

  /** Pages 1 to k one after the other. */
  function Pages<T>(rows: seq<T>, size: int, k: nat): seq<T> {
    if k == 0 then []
    else Pages(rows, size, k - 1) + match Page(rows, k, size) case None => [] case Some(slice) => slice
  }

  lemma {:induction false} PagesCover<T>(rows: seq<T>, size: int, k: nat)
    requires 1 <= size <= MAX_INT && k <= MAX_INT
    ensures k * size >= 0 && Pages(rows, size, k) == rows[..Min(k * size, |rows|)]
  {
    hide Page;
    if k > 0 {
      PagesCover(rows, size, k - 1);
      PageIs(rows, k, size);
      var a, b := Min((k - 1) * size, |rows|), Min(k * size, |rows|);
      assert rows[..a] + rows[a..b] == rows[..b];
    }
  }

  /** The number of pages of n rows. */
  function PageCount(n: nat, size: int): (k: nat)
    requires size >= 1
  {
    if n == 0 then 0 else (n - 1) / size + 1
  }

  lemma CountCovers(n: nat, size: int)
    requires size >= 1
    ensures PageCount(n, size) <= n <= PageCount(n, size) * size
    ensures n > 0 ==> (PageCount(n, size) - 1) * size < n
  {
    if n > 0 {
      var q, r := (n - 1) / size, (n - 1) % size;
      assert n - 1 == q * size + r;
      assert (q + 1) * size == q * size + size;
      assert q * size >= q by { Grows(q, size); }
    }
  }

  lemma Grows(q: nat, size: int)
    requires size >= 1
    ensures q * size >= q
  {
    if q > 0 {
      Grows(q - 1, size);
      assert q * size == (q - 1) * size + size;
    }
  }

  /** The pages of a result, one after the other, are the whole result, and none is empty. */
  lemma PagesPartition<T>(rows: seq<T>, size: int)
    requires 1 <= size <= MAX_INT && |rows| <= MAX_INT
    ensures Pages(rows, size, PageCount(|rows|, size)) == rows
    ensures forall p :: 1 <= p <= PageCount(|rows|, size) ==> Page(rows, p, size).Some? && Page(rows, p, size).value != []
  {
    hide Page, PageCount;
    var k := PageCount(|rows|, size);
    CountCovers(|rows|, size);
    PagesCover(rows, size, k);
    forall p | 1 <= p <= k
      ensures Page(rows, p, size).Some? && Page(rows, p, size).value != []
    {
      PageIs(rows, p, size);
      Before(p, k, size);
      Product(p, size);
    }
  }

  lemma Before(p: int, k: int, size: int)
    requires 1 <= p <= k && size >= 1
    ensures (p - 1) * size <= (k - 1) * size
  {
  }

  /** Row i is on page p exactly when p is i / size + 1. */
  lemma OnePage(i: nat, page: int, size: int)
    requires page >= 1 && size >= 1
    ensures (page - 1) * size <= i < page * size <==> page == i / size + 1
  {
    var q, r := i / size, i % size;
    assert i == q * size + r && 0 <= r < size;
    Product(page, size);
    if page - 1 < q {
      Monotone(page, q, size);
    } else if page - 1 > q {
      Monotone(q + 1, page - 1, size);
      Product(q + 1, size);
    }
  }

  lemma Monotone(a: nat, b: nat, size: nat)
    requires a <= b
    ensures a * size <= b * size
  {
  }
}
