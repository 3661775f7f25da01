/** adapters/postgres/postgres.go, `splitTopLevelOrGroup`: the parts of an `_or` value. */
module OrGroup {
  import opened Text

  /** Where the scan stands: outside quotes, or inside single or double quotes. */
  datatype Mode = Plain | Single | Double

  function Delimiter(m: Mode): char
    requires m != Plain
  {
    if m == Single then '\'' else '"'
  }

  predicate LegacySeparator(s: string) { |s| > 1 && s[0] == '|' && s[1] == '|' }

  /** OR in any case, standing alone: `boundary` says that a space, or nothing, precedes. */
  predicate OrSeparator(s: string, boundary: bool) {
    boundary && |s| > 2 && (s[0] == 'O' || s[0] == 'o') && (s[1] == 'R' || s[1] == 'r') && IsSpace(s[2])
  }

  function Flush(current: string): seq<string> { if Trim(current) == "" then [] else [Trim(current)] }

  lemma {:induction false} TrimLeftSuffix(s: string) returns (n: nat)
    ensures n <= |s| && TrimLeft(s) == s[n..] && forall k :: 0 <= k < n ==> IsSpace(s[k])
    ensures n < |s| ==> !IsSpace(s[n])
  {
    if s != "" && IsSpace(s[0]) {
      n := TrimLeftSuffix(s[1..]);
      n := n + 1;
    } else {
      n := 0;
    }
  }

  /** The parts still to come, with `s` unread and `current` collected since the last cut. */
  function Scan(s: string, boundary: bool, mode: Mode, current: string): seq<string>
    decreases |s|
  {
    if s == "" then Flush(current)
    else if mode != Plain then
      if s[0] != Delimiter(mode) then Scan(s[1..], IsSpace(s[0]), mode, current + [s[0]])
      else if |s| > 1 && s[1] == Delimiter(mode) then Scan(s[2..], false, mode, current + [s[0], s[1]])
      else Scan(s[1..], false, Plain, current + [s[0]])
    else if LegacySeparator(s) then Flush(current) + Scan(s[2..], false, Plain, "")
    else if s[0] == '\'' then Scan(s[1..], false, Single, current + [s[0]])
    else if s[0] == '"' then Scan(s[1..], false, Double, current + [s[0]])
    else if OrSeparator(s, boundary) then
      assert |TrimLeft(s[2..])| <= |s[2..]| by { var _ := TrimLeftSuffix(s[2..]); }
      Flush(current) + Scan(TrimLeft(s[2..]), true, Plain, "")
    else Scan(s[1..], IsSpace(s[0]), Plain, current + [s[0]])
  }

  function SplitOrGroup(v: string): seq<string> { Scan(v, true, Plain, "") }

  predicate BoundaryAt(v: string, i: nat)
    requires i <= |v|
  {
    i == 0 || IsSpace(v[i - 1])
  }

  predicate LegacySeparatorAt(v: string, i: nat) { i + 1 < |v| && v[i] == '|' && v[i + 1] == '|' }

  predicate OrSeparatorAt(v: string, i: nat) {
    && i + 2 < |v| && (v[i] == 'O' || v[i] == 'o') && (v[i + 1] == 'R' || v[i + 1] == 'r')
    && BoundaryAt(v, i) && IsSpace(v[i + 2])
  }

  /** Where the scan stands and what it has collected. */
  function ScanAt(v: string, i: nat, mode: Mode, current: string): seq<string>
    requires i <= |v|
  {
    Scan(v[i..], BoundaryAt(v, i), mode, current)
  }

  lemma SeparatorsAt(v: string, i: nat)
    requires i <= |v|
    ensures LegacySeparator(v[i..]) <==> LegacySeparatorAt(v, i)
    ensures OrSeparator(v[i..], BoundaryAt(v, i)) <==> OrSeparatorAt(v, i)
  {
    assert i < |v| ==> v[i..][0] == v[i];
    assert i + 1 < |v| ==> v[i..][1] == v[i + 1];
    assert i + 2 < |v| ==> v[i..][2] == v[i + 2];
  }

  lemma ScanQuoted(v: string, i: nat, mode: Mode, current: string)
    requires i < |v| && mode != Plain
    ensures ScanAt(v, i, mode, current) ==
            if v[i] != Delimiter(mode) then ScanAt(v, i + 1, mode, current + [v[i]])
            else if i + 1 < |v| && v[i + 1] == Delimiter(mode) then ScanAt(v, i + 2, mode, current + [v[i], v[i + 1]])
            else ScanAt(v, i + 1, Plain, current + [v[i]])
  {
    assert v[i..][1..] == v[i + 1..] && v[i..][0] == v[i];
    if i + 1 < |v| {
      assert v[i..][2..] == v[i + 2..] && v[i..][1] == v[i + 1];
    }
  }

  lemma ScanPlain(v: string, i: nat, current: string)
    requires i < |v| && !LegacySeparatorAt(v, i) && !OrSeparatorAt(v, i)
    ensures ScanAt(v, i, Plain, current) == ScanAt(v, i + 1, Toggle(Plain, v[i]), current + [v[i]])
  {
    SeparatorsAt(v, i);
    assert v[i..][1..] == v[i + 1..] && v[i..][0] == v[i];
  }

  lemma ScanLegacy(v: string, i: nat, current: string)
    requires i < |v| && LegacySeparatorAt(v, i)
    ensures ScanAt(v, i, Plain, current) == Flush(current) + ScanAt(v, i + 2, Plain, "")
  {
    SeparatorsAt(v, i);
    assert v[i..][2..] == v[i + 2..];
  }

  lemma ScanOr(v: string, i: nat, next: nat, current: string)
    requires i < |v| && OrSeparatorAt(v, i) && i + 2 < next <= |v|
    requires v[next..] == TrimLeft(v[i + 2..]) && IsSpace(v[next - 1])
    ensures ScanAt(v, i, Plain, current) == Flush(current) + ScanAt(v, next, Plain, "")
  {
    SeparatorsAt(v, i);
    assert v[i..][2..] == v[i + 2..] && v[i..][0] == v[i];
  }

  method SkipSpaces(v: string, i: nat) returns (j: nat)
    requires i <= |v|
    ensures i <= j <= |v| && v[j..] == TrimLeft(v[i..])
    ensures i < |v| && IsSpace(v[i]) ==> i < j && IsSpace(v[j - 1])
  {
    j := i;
    while j < |v| && IsSpace(v[j])
      invariant i <= j <= |v| && TrimLeft(v[j..]) == TrimLeft(v[i..])
      invariant i < j ==> IsSpace(v[j - 1])
    {
      assert v[j..][1..] == v[j + 1..];
      j := j + 1;
    }
  }

  method SplitTopLevelOrGroup(v: string) returns (parts: seq<string>)
    ensures parts == SplitOrGroup(v)
  {
    parts := [];
    var current := "";
    var mode := Plain;
    var i := 0;
    assert v[0..] == v;
    while i < |v|
      invariant i <= |v|
      invariant parts + ScanAt(v, i, mode, current) == SplitOrGroup(v)
      decreases |v| - i
    {
      var ch := v[i];
      if mode != Plain {
        ScanQuoted(v, i, mode, current);
        current := current + [ch];
        if ch == Delimiter(mode) {
          if i + 1 < |v| && v[i + 1] == Delimiter(mode) {
            assert current + [v[i + 1]] == current[..|current| - 1] + [ch, v[i + 1]];
            current := current + [v[i + 1]];
            i := i + 2;
            continue;
          }
          mode := Plain;
        }
        i := i + 1;
        continue;
      }
      if LegacySeparatorAt(v, i) {
        ScanLegacy(v, i, current);
        parts := parts + Flush(current);
        current := "";
        i := i + 2;
        continue;
      }
      if ch == '\'' {
        ScanPlain(v, i, current);
        mode := Single;
        current := current + [ch];
        i := i + 1;
        continue;
      }
      if ch == '"' {
        ScanPlain(v, i, current);
        mode := Double;
        current := current + [ch];
        i := i + 1;
        continue;
      }
      if OrSeparatorAt(v, i) {
        var next := SkipSpaces(v, i + 2);
        ScanOr(v, i, next, current);
        parts := parts + Flush(current);
        current := "";
        i := next;
        continue;
      }
      ScanPlain(v, i, current);
      current := current + [ch];
      i := i + 1;
    }
    assert v[i..] == "";
    parts := parts + Flush(current);
  }

  function Toggle(m: Mode, c: char): Mode {
    match m
    case Plain => if c == '\'' then Single else if c == '"' then Double else Plain
    case Single => if c == '\'' then Plain else Single
    case Double => if c == '"' then Plain else Double
  }

  // ----- Nothing but spaces and separators is lost, and no cut is inside quotes -----

  /** The quote state before position `p`, counting quotes one by one. */
  function ModeAt(v: string, p: nat): Mode
    requires p <= |v|
  {
    if p == 0 then Plain else Toggle(ModeAt(v, p - 1), v[p - 1])
  }

  predicate Balanced(v: string) { ModeAt(v, |v|) == Plain }

  /** A separator outside quotes starts at `p`. */
  predicate SeparatorAt(v: string, p: nat)
    requires p <= |v|
  {
    ModeAt(v, p) == Plain && (LegacySeparatorAt(v, p) || OrSeparatorAt(v, p))
  }

  /** A space or one of the two characters of a separator. */
  predicate Loose(v: string, p: nat)
    requires p < |v|
  {
    IsSpace(v[p]) || SeparatorAt(v, p) || (p > 0 && SeparatorAt(v, p - 1))
  }

  /** Everything in the range is loose. */
  predicate Dropped(v: string, from: nat, to: nat)
    requires from <= to <= |v|
  {
    forall p :: from <= p < to ==> Loose(v, p)
  }

  predicate NoSeparator(v: string, from: nat, to: nat)
    requires from <= to <= |v|
  {
    forall p :: from <= p < to ==> !SeparatorAt(v, p)
  }

  datatype Slice = Slice(lo: nat, hi: nat)

  /** The parts are successive non-empty trimmed slices of `v` from `from` on. Each begins
      outside quotes and ends there too, unless it runs to the end of unbalanced text;
      none contains a separator; and only spaces and separators, at least one of these,
      lie between them. */
  predicate Partition(v: string, from: nat, slices: seq<Slice>, parts: seq<string>)
    requires from <= |v|
    decreases slices
  {
    |slices| == |parts| &&
    if slices == [] then Dropped(v, from, |v|)
    else
      var s := slices[0];
      && from <= s.lo < s.hi <= |v|
      && parts[0] == v[s.lo..s.hi] && !IsSpace(v[s.lo]) && !IsSpace(v[s.hi - 1])
      && ModeAt(v, s.lo) == Plain && (ModeAt(v, s.hi) == Plain || (|slices| == 1 && !Balanced(v)))
      && Dropped(v, from, s.lo) && NoSeparator(v, s.lo, s.hi)
      && (|slices| > 1 ==> exists p :: s.hi <= p < slices[1].lo && p <= |v| && SeparatorAt(v, p))
      && Partition(v, s.hi, slices[1..], parts[1..])
  }

  lemma {:induction false} SpacesKeepMode(v: string, from: nat, to: nat)
    requires from <= to <= |v| && forall p :: from <= p < to ==> IsSpace(v[p])
    ensures ModeAt(v, from) == ModeAt(v, to)
  {
    if from < to {
      SpacesKeepMode(v, from, to - 1);
    }
  }

  lemma {:induction false} TrimRightPrefix(s: string) returns (n: nat)
    ensures n <= |s| && TrimRight(s) == s[..n] && forall k :: n <= k < |s| ==> IsSpace(s[k])
    ensures n > 0 ==> !IsSpace(s[n - 1])
  {
    if s != "" && IsSpace(s[|s| - 1]) {
      n := TrimRightPrefix(s[..|s| - 1]);
      assert s[..|s| - 1][..n] == s[..n];
      assert forall k :: n <= k < |s| - 1 ==> s[k] == s[..|s| - 1][k];
    } else {
      n := |s|;
    }
  }

  lemma TrimBounds(s: string) returns (n: nat, m: nat)
    ensures n <= m <= |s| && Trim(s) == s[n..m]
    ensures forall k :: 0 <= k < n || m <= k < |s| ==> IsSpace(s[k])
    ensures n < m ==> !IsSpace(s[n]) && !IsSpace(s[m - 1])
  {
    n := TrimLeftSuffix(s);
    var tail := s[n..];
    var k := TrimRightPrefix(tail);
    m := n + k;
    assert tail[..k] == s[n..m];
    assert forall j :: 0 <= j < |tail| ==> tail[j] == s[n + j];
    assert forall j :: m <= j < |s| ==> s[j] == tail[j - n];
  }

  lemma SliceOfSlice(v: string, start: nat, i: nat, n: nat, m: nat)
    requires start <= i <= |v| && n <= m <= i - start
    ensures v[start..i][n..m] == v[start + n..start + m]
  {
    var s := v[start..i];
    var a, b := s[n..m], v[start + n..start + m];
    forall k | 0 <= k < |a|
      ensures a[k] == b[k]
    {
      assert a[k] == s[n + k] == v[start + (n + k)];
    }
    assert a == b;
  }

  /** What flushing `v[start..i]` cuts out of it. */
  lemma FlushSlice(v: string, start: nat, i: nat) returns (lo: nat, hi: nat)
    requires start <= i <= |v|
    ensures start <= lo <= hi <= i && Trim(v[start..i]) == v[lo..hi]
    ensures forall p :: start <= p < lo || hi <= p < i ==> IsSpace(v[p])
    ensures lo < hi ==> !IsSpace(v[lo]) && !IsSpace(v[hi - 1])
    ensures ModeAt(v, lo) == ModeAt(v, start) && ModeAt(v, hi) == ModeAt(v, i)
  {
    hide Trim, ModeAt;
    var s := v[start..i];
    var n, m := TrimBounds(s);
    lo, hi := start + n, start + m;
    SliceOfSlice(v, start, i, n, m);
    forall p | start <= p < lo || hi <= p < i
      ensures IsSpace(v[p])
    {
      assert v[p] == s[p - start];
    }
    if lo < hi {
      assert v[lo] == s[n] && v[hi - 1] == s[m - 1];
    }
    SpacesKeepMode(v, start, lo);
    SpacesKeepMode(v, hi, i);
  }

  /** Flushing and going on from `next`: the pieces in between are spaces and a separator. */
  lemma FlushPartition(v: string, start: nat, i: nat, next: nat, rest: seq<Slice>, parts: seq<string>)
      returns (slices: seq<Slice>)
    requires start <= i <= next <= |v| && ModeAt(v, start) == Plain
    requires NoSeparator(v, start, i) && Dropped(v, i, next) && Partition(v, next, rest, parts)
    requires ModeAt(v, i) == Plain || (i == |v| && rest == [])
    requires rest != [] ==> i < next && SeparatorAt(v, i)
    ensures Partition(v, start, slices, Flush(v[start..i]) + parts)
  {
    hide SeparatorAt, ModeAt;
    var lo, hi := FlushSlice(v, start, i);
    assert Dropped(v, start, lo) && Dropped(v, hi, next);
    if lo == hi {
      assert Flush(v[start..i]) + parts == parts;
      PartitionEarlier(v, start, next, rest, parts);
      slices := rest;
    } else {
      slices := [Slice(lo, hi)] + rest;
      assert Flush(v[start..i]) + parts == [v[lo..hi]] + parts;
      PartitionEarlier(v, hi, next, rest, parts);
      assert slices[1..] == rest && ([v[lo..hi]] + parts)[1..] == parts;
    }
  }

  lemma PartitionEarlier(v: string, from: nat, to: nat, slices: seq<Slice>, parts: seq<string>)
    requires from <= to <= |v| && Dropped(v, from, to) && Partition(v, to, slices, parts)
    ensures Partition(v, from, slices, parts)
  {
    hide Loose, NoSeparator, ModeAt, Balanced;
    if slices == [] {
      assert Dropped(v, from, |v|);
    } else {
      assert Dropped(v, from, slices[0].lo);
    }
  }

  lemma {:induction false} ScanPartition(v: string, start: nat, i: nat) returns (slices: seq<Slice>)
    requires start <= i <= |v| && ModeAt(v, start) == Plain && NoSeparator(v, start, i)
    ensures Partition(v, start, slices, ScanAt(v, i, ModeAt(v, i), v[start..i]))
    decreases |v| - i
  {
    hide Partition, Dropped;
    var mode := ModeAt(v, i);
    if i == |v| {
      NothingLeft(v);
      assert v[i..] == "";
      slices := FlushPartition(v, start, i, i, [], []);
      assert Flush(v[start..i]) + [] == Flush(v[start..i]);
    } else if mode == Plain && SeparatorAt(v, i) {
      slices := SeparatorPartition(v, start, i);
    } else {
      assert v[start..i] + [v[i]] == v[start..i + 1];
      if mode == Plain {
        ScanPlain(v, i, v[start..i]);
      } else {
        ScanQuoted(v, i, mode, v[start..i]);
        if v[i] == Delimiter(mode) && i + 1 < |v| && v[i + 1] == Delimiter(mode) {
          assert ModeAt(v, i + 1) == Plain && ModeAt(v, i + 2) == mode;
          assert v[start..i] + [v[i], v[i + 1]] == v[start..i + 2];
          slices := ScanPartition(v, start, i + 2);
          return;
        }
      }
      slices := ScanPartition(v, start, i + 1);
    }
  }

  lemma NothingLeft(v: string)
    ensures Partition(v, |v|, [], []) && Dropped(v, |v|, |v|)
  {
  }

  lemma {:induction false} SeparatorPartition(v: string, start: nat, i: nat) returns (slices: seq<Slice>)
    requires start <= i < |v| && ModeAt(v, start) == Plain && NoSeparator(v, start, i) && SeparatorAt(v, i)
    ensures Partition(v, start, slices, ScanAt(v, i, Plain, v[start..i]))
    decreases |v| - i, 0
  {
    hide Partition;
    assert ModeAt(v, i + 1) == Plain && ModeAt(v, i + 2) == Plain;
    var next := i + 2;
    if LegacySeparatorAt(v, i) {
      ScanLegacy(v, i, v[start..i]);
    } else {
      var tail := v[i + 2..];
      var n := TrimLeftSuffix(tail);
      assert tail[0] == v[i + 2];
      next := i + 2 + n;
      assert forall p :: i + 2 <= p < next ==> v[p] == tail[p - (i + 2)];
      assert v[next..] == tail[n..];
      SpacesKeepMode(v, i + 2, next);
      ScanOr(v, i, next, v[start..i]);
    }
    assert v[next..next] == "";
    var rest := ScanPartition(v, next, next);
    slices := FlushPartition(v, start, i, next, rest, ScanAt(v, next, Plain, ""));
  }

  /** Conservation: the parts are slices of the input, and what is left out is white space
      and separators standing outside quotes. */
  lemma SplitConserves(v: string) returns (slices: seq<Slice>)
    ensures Partition(v, 0, slices, SplitOrGroup(v))
  {
    assert v[0..] == v && v[0..0] == "";
    slices := ScanPartition(v, 0, 0);
  }

  // ----- Splitting what was joined gives the parts back -----

  /** No separator is found while reading `s`. */
  predicate NoCut(s: string, boundary: bool, mode: Mode)
    decreases |s|
  {
    s == "" ||
    if mode != Plain then
      if s[0] != Delimiter(mode) then NoCut(s[1..], IsSpace(s[0]), mode)
      else if |s| > 1 && s[1] == Delimiter(mode) then NoCut(s[2..], false, mode)
      else NoCut(s[1..], false, Plain)
    else
      && !LegacySeparator(s) && !OrSeparator(s, boundary)
      && NoCut(s[1..], IsSpace(s[0]), Toggle(Plain, s[0]))
  }

  function EndMode(s: string, mode: Mode): Mode {
    if s == "" then mode else EndMode(s[1..], Toggle(mode, s[0]))
  }

  lemma {:induction false} EndModeSnoc(s: string, c: char, mode: Mode)
    ensures EndMode(s + [c], mode) == Toggle(EndMode(s, mode), c)
  {
    if s == "" {
      assert (s + [c])[1..] == "";
    } else {
      EndModeSnoc(s[1..], c, Toggle(mode, s[0]));
      assert (s + [c])[1..] == s[1..] + [c];
    }
  }

  lemma {:induction false} ModeAtIs(v: string, p: nat)
    requires p <= |v|
    ensures ModeAt(v, p) == EndMode(v[..p], Plain)
  {
    if p > 0 {
      ModeAtIs(v, p - 1);
      EndModeSnoc(v[..p - 1], v[p - 1], Plain);
      assert v[..p] == v[..p - 1] + [v[p - 1]];
    }
  }

  /** A prefix decides the quote state after it. */
  lemma ModeOfPrefix(s: string, after: string)
    ensures ModeAt(s + after, |s|) == ModeAt(s, |s|) == EndMode(s, Plain)
  {
    ModeAtIs(s + after, |s|);
    ModeAtIs(s, |s|);
    assert (s + after)[..|s|] == s && s[..|s|] == s;
  }

  function Size(parts: seq<string>): nat { if parts == [] then 0 else |parts[0]| + Size(parts[1..]) }

  lemma {:induction false} SizeConcat(a: seq<string>, b: seq<string>)
    ensures Size(a + b) == Size(a) + Size(b)
  {
    if a == [] {
      assert a + b == b;
    } else {
      SizeConcat(a[1..], b);
      assert (a + b)[1..] == a[1..] + b;
    }
  }

  lemma FlushSize(current: string)
    ensures Size(Flush(current)) <= |current|
  {
    var n := TrimLeftSuffix(current);
    var m := TrimRightPrefix(current[n..]);
  }

  /** A scan that cuts loses the separator; one that does not yields one part at most. */
  lemma {:induction false} ScanSize(s: string, boundary: bool, mode: Mode, current: string)
    ensures Size(Scan(s, boundary, mode, current)) <= |current| + |s|
    ensures !NoCut(s, boundary, mode) ==> Size(Scan(s, boundary, mode, current)) < |current| + |s|
    ensures NoCut(s, boundary, mode) ==> Scan(s, boundary, mode, current) == Flush(current + s)
    decreases |s|
  {
    FlushSize(current);
    if s == "" {
      assert current + s == current;
    } else if mode == Plain && LegacySeparator(s) {
      ScanSize(s[2..], false, Plain, "");
      SizeConcat(Flush(current), Scan(s[2..], false, Plain, ""));
    } else if mode == Plain && OrSeparator(s, boundary) {
      var n := TrimLeftSuffix(s[2..]);
      ScanSize(TrimLeft(s[2..]), true, Plain, "");
      SizeConcat(Flush(current), Scan(TrimLeft(s[2..]), true, Plain, ""));
    } else if mode != Plain && s[0] == Delimiter(mode) && |s| > 1 && s[1] == Delimiter(mode) {
      assert current + [s[0], s[1]] + s[2..] == current + s;
      ScanSize(s[2..], false, mode, current + [s[0], s[1]]);
    } else {
      assert current + [s[0]] + s[1..] == current + s;
      ScanSize(s[1..], IsSpace(s[0]), Toggle(mode, s[0]), current + [s[0]]);
    }
  }

  /** The last two characters are an OR that stands alone. */
  predicate EndsInOr(s: string, boundary: bool) {
    |s| > 1 && (s[|s| - 2] == 'O' || s[|s| - 2] == 'o') && (s[|s| - 1] == 'R' || s[|s| - 1] == 'r') &&
    if |s| == 2 then boundary else IsSpace(s[|s| - 3])
  }

  /** What joins `s` to the text after it makes no separator across the joint. */
  predicate CleanJoint(s: string, boundary: bool, after: string) {
    && after != "" && (after[0] == '|' || after[0] == ' ')
    && (after[0] == '|' ==> s == "" || s[|s| - 1] != '|')
    && (after[0] == ' ' ==> !EndsInOr(s, boundary))
  }

  lemma {:induction false} ScanThrough(s: string, boundary: bool, mode: Mode, current: string, after: string)
      returns (b: bool)
    requires NoCut(s, boundary, mode) && EndMode(s, mode) == Plain && CleanJoint(s, boundary, after)
    ensures Scan(s + after, boundary, mode, current) == Scan(after, b, Plain, current + s)
    decreases |s|
  {
    var v := s + after;
    if s == "" {
      assert v == after && current + s == current;
      b := boundary;
    } else if mode != Plain && s[0] == Delimiter(mode) && |s| > 1 && s[1] == Delimiter(mode) {
      assert v[2..] == s[2..] + after && current + [s[0], s[1]] + s[2..] == current + s;
      assert s[1..][1..] == s[2..];
      b := ScanThrough(s[2..], false, mode, current + [s[0], s[1]], after);
    } else {
      assert v[1..] == s[1..] + after && current + [s[0]] + s[1..] == current + s;
      b := ScanThrough(s[1..], IsSpace(s[0]), Toggle(mode, s[0]), current + [s[0]], after);
    }
  }

  datatype Separator = Bars | SpacedOr

  function SeparatorText(sep: Separator): string { if sep == Bars then "||" else " OR " }

  function Glue(parts: seq<string>, seps: seq<Separator>): string
    requires |parts| == |seps| + 1
  {
    if seps == [] then parts[0] else parts[0] + SeparatorText(seps[0]) + Glue(parts[1..], seps[1..])
  }

  /** Non-empty, trimmed, balanced, and split to itself. */
  predicate Atomic(part: string) {
    part != "" && Trim(part) == part && Balanced(part) && SplitOrGroup(part) == [part]
  }

  predicate Joinable(part: string, sep: Separator) {
    if sep == Bars then part != "" && part[|part| - 1] != '|' else !EndsInOr(part, true)
  }

  lemma {:induction false} NoCutAnywhere(s: string, mode: Mode)
    requires NoCut(s, true, mode)
    ensures NoCut(s, false, mode)
  {
  }

  lemma AtomicNoCut(part: string)
    requires Atomic(part)
    ensures NoCut(part, true, Plain) && NoCut(part, false, Plain) && !IsSpace(part[0]) && !IsSpace(part[|part| - 1])
    ensures EndMode(part, Plain) == Plain
  {
    ModeOfPrefix(part, "");
    ScanSize(part, true, Plain, "");
    assert Size([part]) == |part|;
    NoCutAnywhere(part, Plain);
    var n := TrimLeftSuffix(part);
    var m := TrimRightPrefix(part[n..]);
  }

  lemma TrimTrailingSpace(part: string)
    requires part != "" && !IsSpace(part[0]) && !IsSpace(part[|part| - 1])
    ensures Trim(part + " ") == part
  {
    assert (part + " ")[..|part|] == part;
    assert TrimRight(part + " ") == TrimRight(part);
  }

  lemma CutAtBars(rest: string, boundary: bool, part: string)
    requires part != "" && !IsSpace(part[0]) && !IsSpace(part[|part| - 1])
    ensures Scan("||" + rest, boundary, Plain, part) == [part] + Scan(rest, false, Plain, "")
  {
    assert ("||" + rest)[2..] == rest;
    assert TrimLeft(part) == part && TrimRight(part) == part;
  }

  lemma CutAtOr(rest: string, boundary: bool, part: string)
    requires part != "" && !IsSpace(part[0]) && !IsSpace(part[|part| - 1])
    requires rest != "" && !IsSpace(rest[0])
    ensures Scan(" " + ("OR" + (" " + rest)), boundary, Plain, part) == [part] + Scan(rest, true, Plain, "")
  {
    var t := "OR" + (" " + rest);
    assert (" " + t)[1..] == t;
    assert Scan(" " + t, boundary, Plain, part) == Scan(t, true, Plain, part + [' ']);
    assert t[2..] == " " + rest && (" " + rest)[1..] == rest && t[2] == ' ';
    assert TrimLeft(t[2..]) == rest;
    TrimTrailingSpace(part);
    assert part + [' '] == part + " ";
  }

  /** A separator text cuts, and reading resumes right after it. */
  lemma CutAt(sep: Separator, rest: string, boundary: bool, part: string)
    requires part != "" && !IsSpace(part[0]) && !IsSpace(part[|part| - 1])
    requires rest != "" && !IsSpace(rest[0])
    ensures Scan(SeparatorText(sep) + rest, boundary, Plain, part) == [part] + Scan(rest, sep == SpacedOr, Plain, "")
  {
    if sep == Bars {
      CutAtBars(rest, boundary, part);
    } else {
      assert " OR " == " " + ("OR" + " ");
      assert " OR " + rest == " " + ("OR" + (" " + rest));
      CutAtOr(rest, boundary, part);
    }
  }

  lemma {:induction false} GlueRoundTrip(parts: seq<string>, seps: seq<Separator>, boundary: bool)
    requires |parts| == |seps| + 1
    requires forall p :: p in parts ==> Atomic(p)
    requires forall i :: 0 <= i < |seps| ==> Joinable(parts[i], seps[i])
    ensures Scan(Glue(parts, seps), boundary, Plain, "") == parts
    ensures parts[0] != "" && Glue(parts, seps) != "" && Glue(parts, seps)[0] == parts[0][0]
    decreases |seps|
  {
    var part := parts[0];
    assert part in parts;
    AtomicNoCut(part);
    assert "" + part == part;
    if seps == [] {
      ScanSize(part, boundary, Plain, "");
      assert parts == [part];
    } else {
      var rest := Glue(parts[1..], seps[1..]);
      var after := SeparatorText(seps[0]) + rest;
      GlueRoundTrip(parts[1..], seps[1..], seps[0] == SpacedOr);
      assert parts[1] in parts;
      AtomicNoCut(parts[1]);
      assert Glue(parts, seps) == part + after;
      var b := ScanThrough(part, boundary, Plain, "", after);
      CutAt(seps[0], rest, b, part);
      assert parts == [part] + parts[1..];
    }
  }

  /** Joining parts with separators of either kind, and splitting, gives the parts back. */
  lemma SplitGlued(parts: seq<string>, seps: seq<Separator>)
    requires |parts| == |seps| + 1
    requires forall p :: p in parts ==> Atomic(p)
    requires forall i :: 0 <= i < |seps| ==> Joinable(parts[i], seps[i])
    ensures SplitOrGroup(Glue(parts, seps)) == parts
  {
    GlueRoundTrip(parts, seps, true);
  }

  /** Two parts joined by bars come back exactly when the first does not end in a bar. */
  lemma BarsRoundTripIff(p: string, q: string)
    requires Atomic(p) && Atomic(q)
    ensures SplitOrGroup(p + "||" + q) == [p, q] <==> p[|p| - 1] != '|'
  {
    var v := p + "||" + q;
    if p[|p| - 1] != '|' {
      SplitGlued([p, q], [Bars]);
      assert Glue([p, q], [Bars]) == v;
    } else {
      var n := |p|;
      JoinedBars(p, q);
      ModeOfPrefix(p, "||" + q);
      NoToggleBefore(v, n);
      assert SeparatorAt(v, n - 1) && SeparatorAt(v, n);
      if SplitOrGroup(v) == [p, q] {
        var slices := SplitConserves(v);
        TwoSlices(v, slices, p, q);
        assert false;
      }
    }
  }

  lemma NoToggleBefore(v: string, n: nat)
    requires 0 < n <= |v| && v[n - 1] != '\'' && v[n - 1] != '"'
    ensures ModeAt(v, n - 1) == ModeAt(v, n)
  {
  }

  /** Where the slices of two parts can lie. */
  lemma TwoSlices(v: string, slices: seq<Slice>, p: string, q: string)
    requires p != "" && q != "" && Partition(v, 0, slices, [p, q])
    ensures |slices| == 2 && slices[0].hi == slices[0].lo + |p|
    ensures slices[0].lo + |p| + 1 + |q| <= |v|
    ensures p == v[slices[0].lo..slices[0].hi] && NoSeparator(v, slices[0].lo, slices[0].hi)
  {
    assert [p, q][1..] == [q] && [q][0] == q;
    var second := slices[1..][0];
    assert q == v[second.lo..second.hi];
    assert |v[second.lo..second.hi]| == second.hi - second.lo;
    assert |v[slices[0].lo..slices[0].hi]| == slices[0].hi - slices[0].lo;
  }

  /** Two parts joined by OR come back exactly when the first does not end in an OR of its own. */
  lemma OrRoundTripIff(p: string, q: string)
    requires Atomic(p) && Atomic(q)
    ensures SplitOrGroup(p + " OR " + q) == [p, q] <==> !EndsInOr(p, true)
  {
    var v := p + " OR " + q;
    if !EndsInOr(p, true) {
      SplitGlued([p, q], [SpacedOr]);
      assert Glue([p, q], [SpacedOr]) == v;
    } else {
      var n := |p|;
      JoinedOr(p, q);
      ModeOfPrefix(p, " OR " + q);
      NoToggleBefore(v, n);
      NoToggleBefore(v, n - 1);
      assert ModeAt(v, n + 1) == Plain;
      AtomicNoCut(p);
      assert SeparatorAt(v, n - 2) && SeparatorAt(v, n + 1);
      if SplitOrGroup(v) == [p, q] {
        var slices := SplitConserves(v);
        TwoSlices(v, slices, p, q);
        assert false;
      }
    }
  }

  lemma JoinedBars(p: string, q: string)
    ensures var v := p + "||" + q;
      && v == p + ("||" + q) && |v| == |p| + 2 + |q| && (forall i :: 0 <= i < |p| ==> v[i] == p[i])
      && v[|p|] == '|' && v[|p| + 1] == '|'
  {
  }

  lemma JoinedOr(p: string, q: string)
    ensures var v := p + " OR " + q;
      && v == p + (" OR " + q) && |v| == |p| + 4 + |q| && (forall i :: 0 <= i < |p| ==> v[i] == p[i])
      && v[|p|] == ' ' && v[|p| + 1] == 'O' && v[|p| + 2] == 'R' && v[|p| + 3] == ' '
  {
  }
}
