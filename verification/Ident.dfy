/** internal/ident: which names are accepted as (dotted) identifiers, and how they are quoted. */
module Ident {
  import opened Text
  import opened SqlLexer

  const MAX_SEGMENT: nat := 63

  predicate PartChar(c: char) { IsLower(c) || IsUpper(c) || IsDigit(c) || c == '_' }

  /** The compiled regular expression, as the automaton it denotes: `inside` a segment,
      or at the place where one must start. */
  predicate Matches(s: string, inside: bool) {
    if inside then
      s == "" || (PartChar(s[0]) && Matches(s[1..], true)) || (s[0] == '.' && Matches(s[1..], false))
    else
      s != "" && StartsWord(s[0]) && Matches(s[1..], true)
  }

  predicate IsValid(s: string) {
    Matches(s, false) && forall part :: part in Split(s, ".") ==> part != "" && |part| <= MAX_SEGMENT
  }

  /** One segment of the allowed alphabet. */
  predicate Segment(s: string) {
    s != "" && StartsWord(s[0]) && forall c :: c in s ==> PartChar(c)
  }

  lemma {:induction false} MatchesSegments(s: string)
    ensures Matches(s, false) <==> forall part :: part in Split(s, ".") ==> Segment(part)
    ensures Matches(s, true) <==>
            (forall c :: c in Split(s, ".")[0] ==> PartChar(c)) && forall part :: part in Split(s, ".")[1..] ==> Segment(part)
    decreases |s|
  {
    var parts := Split(s, ".");
    if s == "" {
      assert parts[0] in Split(s, ".") && !Segment(parts[0]);
    } else {
      MatchesSegments(s[1..]);
      var rest := Split(s[1..], ".");
      if s[0] == '.' {
        assert parts == [""] + rest && parts[1..] == rest && parts[0] == "";
        assert parts[0] in parts && !Segment(parts[0]);
      } else {
        assert parts == [[s[0]] + rest[0]] + rest[1..];
        assert parts[1..] == rest[1..] && parts[0] == [s[0]] + rest[0];
        assert forall c :: c in parts[0] <==> c == s[0] || c in rest[0];
        assert Segment(parts[0]) <==> StartsWord(s[0]) && forall c :: c in rest[0] ==> PartChar(c);
        assert parts[0] in parts && forall part :: part in parts <==> part == parts[0] || part in rest[1..];
      }
    }
  }

  /** Accepted names are exactly the dotted paths of short segments of the allowed alphabet. */
  lemma ValidExactly(s: string)
    ensures IsValid(s) <==> forall part :: part in Split(s, ".") ==> Segment(part) && |part| <= MAX_SEGMENT
  {
    MatchesSegments(s);
  }

  function QuoteSegment(s: string): string { "\"" + ReplaceChar(s, '"', "\"\"") + "\"" }

  function QuoteSegments(path: seq<string>): (r: seq<string>)
    ensures |r| == |path| && forall i :: 0 <= i < |path| ==> r[i] == QuoteSegment(path[i])
  {
    seq(|path|, i requires 0 <= i < |path| => QuoteSegment(path[i]))
  }

  /** The delimited form of a path. */
  function QuotedPath(path: seq<string>): string { Join(QuoteSegments(path), ".") }

  function Path(name: string): seq<string> { Split(name, ".") }

  method Quote(s: string) returns (r: Result<string, ()>)
    ensures r.Ok? <==> IsValid(s)
    ensures r.Ok? ==> r.value == QuotedPath(Path(s))
  {
    if !IsValid(s) {
      return Err(());
    }
    var segments := Split(s, ".");
    var parts := new string[|segments|](i requires 0 <= i < |segments| => segments[i]);
    for i := 0 to parts.Length
      invariant forall k :: 0 <= k < i ==> parts[k] == QuoteSegment(segments[k])
      invariant forall k :: i <= k < parts.Length ==> parts[k] == segments[k]
    {
      parts[i] := "\"" + ReplaceChar(parts[i], '"', "\"\"") + "\"";
    }
    assert parts[..] == QuoteSegments(segments);
    return Ok(Join(parts[..], "."));
  }

  /** The quoting written out by hand for filters and SET. */
  function HandQuoted(name: string): string { "\"" + Join(Split(name, "."), "\".\"") + "\"" }

  lemma {:induction false} HandQuotedPath(path: seq<string>)
    requires path != [] && forall part :: part in path ==> '"' !in part
    ensures "\"" + Join(path, "\".\"") + "\"" == QuotedPath(path)
  {
    ReplaceAbsent(path[0], '"', "\"\"");
    if |path| > 1 {
      HandQuotedPath(path[1..]);
      assert QuoteSegments(path)[1..] == QuoteSegments(path[1..]);
      Requote(path[0], Join(path[1..], "\".\""), "\"", ".");
    }
  }

  lemma Requote(a: string, b: string, q: string, dot: string)
    ensures q + (a + (q + dot + q) + b) + q == (q + a + q) + dot + (q + b + q)
  {
  }

  /** On accepted names the hand-written quoting is `Quote`. */
  lemma HandQuotedIsQuote(name: string)
    requires IsValid(name)
    ensures HandQuoted(name) == QuotedPath(Path(name))
  {
    ValidExactly(name);
    HandQuotedPath(Path(name));
  }

  // ----- Reading a delimited path back -----

  const DOT := Lexeme(".", Dot)

  function SegmentDoc(segment: string): Doc { Lexeme(QuoteSegment(segment), Quoted(segment)) }

  function PathDoc(path: seq<string>): Doc {
    if path == [] then Empty
    else if |path| == 1 then SegmentDoc(path[0])
    else Cat(Cat(SegmentDoc(path[0]), DOT), PathDoc(path[1..]))
  }

  lemma {:induction false} PathDocReads(path: seq<string>)
    requires path != []
    ensures Readable(PathDoc(path)) && Render(PathDoc(path)) == QuotedPath(path)
    ensures First(PathDoc(path)) == SegmentDoc(path[0])
    ensures Last(PathDoc(path)) == SegmentDoc(path[|path| - 1])
    ensures Tokens(PathDoc(path)) == PathTokens(path)
  {
    if |path| == 1 {
      assert QuoteSegments(path) == [QuoteSegment(path[0])];
    } else {
      PathDocReads(path[1..]);
      assert QuoteSegments(path)[1..] == QuoteSegments(path[1..]);
      DottedHead(path[0]);
    }
  }

  lemma DottedHead(segment: string)
    ensures var head := Cat(SegmentDoc(segment), DOT);
      && Readable(head) && Render(head) == QuoteSegment(segment) + "." && Tokens(head) == [Quoted(segment), Dot]
      && First(head) == SegmentDoc(segment) && Last(head) == DOT
  {
    assert Faithful(QuoteSegment(segment), Quoted(segment));
    assert Readable(SegmentDoc(segment)) && Readable(DOT);
  }

  function PathTokens(path: seq<string>): (ts: seq<Token>)
    ensures path != [] ==> ts != [] && ts[0] == Quoted(path[0])
  {
    if path == [] then []
    else if |path| == 1 then [Quoted(path[0])]
    else [Quoted(path[0]), Dot] + PathTokens(path[1..])
  }

  /** A dotted path of delimited identifiers at the start of `ts`, and what follows it. */
  function ReadPath(ts: seq<Token>): (r: Option<(seq<string>, seq<Token>)>)
    ensures r.Some? ==> |r.value.1| < |ts|
  {
    if ts == [] || !ts[0].Quoted? then None
    else if |ts| > 1 && ts[1] == Dot then
      match ReadPath(ts[2..])
      case None => None
      case Some(r) => Some(([ts[0].name] + r.0, r.1))
    else Some(([ts[0].name], ts[1..]))
  }

  lemma {:induction false} ReadPathTokens(path: seq<string>, rest: seq<Token>)
    requires path != [] && (rest == [] || rest[0] != Dot)
    ensures ReadPath(PathTokens(path) + rest) == Some((path, rest))
  {
    if |path| == 1 {
      assert path == [path[0]];
      assert (PathTokens(path) + rest)[1..] == rest;
    } else {
      var tail := PathTokens(path[1..]) + rest;
      ReadPathTokens(path[1..], rest);
      assert PathTokens(path) + rest == [Quoted(path[0]), Dot] + tail;
      ReadPathDotted(path[0], tail);
      assert path == [path[0]] + path[1..];
    }
  }

  lemma ReadPathDotted(segment: string, tail: seq<Token>)
    requires ReadPath(tail).Some?
    ensures var r := ReadPath(tail).value; ReadPath([Quoted(segment), Dot] + tail) == Some(([segment] + r.0, r.1))
  {
    assert ([Quoted(segment), Dot] + tail)[2..] == tail;
  }

  /** Reading the quoted form of an accepted name gives its segments: nothing is lost or merged. */
  lemma QuoteRoundTrip(s: string)
    requires IsValid(s)
    ensures var ts := Lex(QuotedPath(Path(s))); ts.Some? && ReadPath(ts.value) == Some((Path(s), []))
  {
    PathDocReads(Path(s));
    LexRender(PathDoc(Path(s)));
    ReadPathTokens(Path(s), []);
    assert PathTokens(Path(s)) + [] == PathTokens(Path(s));
  }

  lemma QuoteInjective(s: string, t: string)
    requires IsValid(s) && IsValid(t)
    requires QuotedPath(Path(s)) == QuotedPath(Path(t))
    ensures s == t
  {
    QuoteRoundTrip(s);
    QuoteRoundTrip(t);
    JoinSplit(s, '.');
    JoinSplit(t, '.');
  }
}
