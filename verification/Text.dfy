/** String functions with the meaning the Rust standard library gives them, and the
    byte-wise order that `BTreeMap<String, _>` and `BTreeSet<String>` iterate in. */
module Text {
  import opened Common

  predicate EndsWith(s: string, suffix: string) {
    |suffix| <= |s| && s[|s| - |suffix|..] == suffix
  }

  function StripPrefix(s: string, prefix: string): Option<string> {
    if prefix <= s then Some(s[|prefix|..]) else None
  }

  function StripSuffix(s: string, suffix: string): Option<string> {
    if EndsWith(s, suffix) then Some(s[..|s| - |suffix|]) else None
  }

  /** `str::split` on one character: never empty, one more part than separators. */
  function Split(s: string, c: char): (parts: seq<string>)
    ensures parts != []
  {
    if s == [] then [""]
    else
      var rest := Split(s[1..], c);
      if s[0] == c then [""] + rest else [[s[0]] + rest[0]] + rest[1..]
  }

  function Join(parts: seq<string>, c: char): string {
    if parts == [] then ""
    else if |parts| == 1 then parts[0]
    else parts[0] + [c] + Join(parts[1..], c)
  }

  lemma {:induction false} JoinOfSplit(s: string, c: char)
    ensures Join(Split(s, c), c) == s
  {
    if s != [] {
      var rest := Split(s[1..], c);
      JoinOfSplit(s[1..], c);
      if s[0] == c {
        assert ([""] + rest)[1..] == rest;
      } else if |rest| > 1 {
        var parts := [[s[0]] + rest[0]] + rest[1..];
        assert parts[1..] == rest[1..];
        assert Join(parts, c) == [s[0]] + (rest[0] + [c] + Join(rest[1..], c));
      }
    }
  }

  lemma {:induction false} SplitOfJoin(parts: seq<string>, c: char)
    requires parts != []
    requires forall part :: part in parts ==> c !in part
    ensures Split(Join(parts, c), c) == parts
  {
    if |parts| == 1 {
      SplitWithout(parts[0], c);
    } else {
      SplitOfJoin(parts[1..], c);
      SplitPrefixed(parts[0], Join(parts[1..], c), c);
      assert parts == [parts[0]] + parts[1..];
    }
  }

  lemma {:induction false} SplitWithout(s: string, c: char)
    requires c !in s
    ensures Split(s, c) == [s]
  {
    if s != [] {
      SplitWithout(s[1..], c);
      assert s == [s[0]] + s[1..];
    }
  }

  lemma {:induction false} SplitPrefixed(head: string, tail: string, c: char)
    requires c !in head
    ensures Split(head + [c] + tail, c) == [head] + Split(tail, c)
  {
    var s := head + [c] + tail;
    if head == [] {
      assert s[1..] == tail;
    } else {
      SplitPrefixed(head[1..], tail, c);
      assert s[1..] == head[1..] + [c] + tail;
      assert head == [head[0]] + head[1..];
    }
  }

  lemma {:induction false} SplitPartsLack(s: string, c: char)
    ensures forall part :: part in Split(s, c) ==> c !in part
  {
    if s != [] {
      SplitPartsLack(s[1..], c);
    }
  }

  /** The code points of the Unicode White_Space property, which `str::trim` removes. */
  predicate IsWhitespace(c: char) {
    var code := c as int;
    || 0x9 <= code <= 0xD || code == 0x20 || code == 0x85 || code == 0xA0 || code == 0x1680
    || 0x2000 <= code <= 0x200A || code == 0x2028 || code == 0x2029 || code == 0x202F
    || code == 0x205F || code == 0x3000
  }

  function TrimStart(s: string): string {
    if s != [] && IsWhitespace(s[0]) then TrimStart(s[1..]) else s
  }

  function TrimEnd(s: string): string {
    if s != [] && IsWhitespace(s[|s| - 1]) then TrimEnd(s[..|s| - 1]) else s
  }

  function Trim(s: string): string {
    TrimEnd(TrimStart(s))
  }

  function TrimStartOf(s: string, c: char): string {
    if s != [] && s[0] == c then TrimStartOf(s[1..], c) else s
  }

  function TrimEndOf(s: string, c: char): string {
    if s != [] && s[|s| - 1] == c then TrimEndOf(s[..|s| - 1], c) else s
  }

  /** The code points of general category Cc. */
  predicate IsControl(c: char) {
    var code := c as int;
    code <= 0x1F || 0x7F <= code <= 0x9F
  }

  predicate IsAsciiDigit(c: char) { '0' <= c <= '9' }

  predicate IsAsciiAlphanumeric(c: char) {
    IsAsciiDigit(c) || 'a' <= c <= 'z' || 'A' <= c <= 'Z'
  }

  function LowerChar(c: char): char {
    if 'A' <= c <= 'Z' then (c as int + 32) as char else c
  }

  function ToAsciiLower(s: string): (r: string)
    ensures |r| == |s|
    ensures forall i :: 0 <= i < |s| ==> r[i] == LowerChar(s[i])
  {
    if s == [] then [] else [LowerChar(s[0])] + ToAsciiLower(s[1..])
  }

  lemma ToAsciiLowerIdempotent(s: string)
    ensures ToAsciiLower(ToAsciiLower(s)) == ToAsciiLower(s)
  {
    var once := ToAsciiLower(s);
    var twice := ToAsciiLower(once);
    assert forall i :: 0 <= i < |s| ==> twice[i] == once[i];
  }

  /** `a <= b` in the order of `String`: UTF-8 byte order, which is code point order. */
  predicate AtMost(a: string, b: string) {
    a == [] || (b != [] && (a[0] < b[0] || (a[0] == b[0] && AtMost(a[1..], b[1..]))))
  }

  lemma {:induction false} AtMostAntisymmetric(a: string, b: string)
    requires AtMost(a, b) && AtMost(b, a)
    ensures a == b
  {
    if a != [] && b != [] {
      AtMostAntisymmetric(a[1..], b[1..]);
      assert a == [a[0]] + a[1..] && b == [b[0]] + b[1..];
    }
  }

  lemma {:induction false} AtMostTotal(a: string, b: string)
    ensures AtMost(a, b) || AtMost(b, a)
  {
    if a != [] && b != [] {
      AtMostTotal(a[1..], b[1..]);
    }
  }

  lemma {:induction false} AtMostTransitive(a: string, b: string, c: string)
    requires AtMost(a, b) && AtMost(b, c)
    ensures AtMost(a, c)
  {
    if a != [] && a[0] == b[0] && b[0] == c[0] {
      AtMostTransitive(a[1..], b[1..], c[1..]);
    }
  }

  predicate IsLeast(least: string, s: set<string>) {
    least in s && forall x :: x in s ==> AtMost(least, x)
  }

  lemma {:induction false} HasLeast(s: set<string>) returns (least: string)
    requires s != {}
    ensures IsLeast(least, s)
  {
    var first :| first in s;
    var rest := s - {first};
    assert s == rest + {first};
    if rest == {} {
      AtMostTotal(first, first);
      least := first;
    } else {
      least := HasLeast(rest);
      AtMostTotal(first, least);
      if AtMost(first, least) {
        LeastOfTwo(first, least, rest);
        least := first;
      }
    }
  }

  lemma LeastOfTwo(first: string, least: string, rest: set<string>)
    requires AtMost(first, least) && IsLeast(least, rest)
    ensures IsLeast(first, rest + {first})
  {
    AtMostTotal(first, first);
    forall x | x in rest ensures AtMost(first, x) {
      AtMostTransitive(first, least, x);
    }
  }

  lemma LeastUnique(s: set<string>, a: string, b: string)
    requires IsLeast(a, s) && IsLeast(b, s)
    ensures a == b
  {
    AtMostAntisymmetric(a, b);
  }

  function Least(s: set<string>): (least: string)
    requires s != {}
    ensures IsLeast(least, s)
  {
    assert exists m :: IsLeast(m, s) by { var m := HasLeast(s); }
    assert forall a, b :: IsLeast(a, s) && IsLeast(b, s) ==> a == b by {
      forall a, b | IsLeast(a, s) && IsLeast(b, s) ensures a == b {
        LeastUnique(s, a, b);
      }
    }
    var m :| IsLeast(m, s);
    m
  }

  ghost predicate Ascending(xs: seq<string>) {
    forall i, j :: 0 <= i < j < |xs| ==> AtMost(xs[i], xs[j]) && xs[i] != xs[j]
  }

  /** The elements of a `BTreeSet<String>` in iteration order. */
  function InOrder(s: set<string>): (xs: seq<string>)
    ensures |xs| == |s|
    ensures forall x :: x in xs <==> x in s
  {
    if s == {} then []
    else
      var least := Least(s);
      var rest := InOrder(s - {least});
      [least] + rest
  }

  lemma {:induction false} InOrderAscends(s: set<string>)
    ensures Ascending(InOrder(s))
  {
    if s != {} {
      InOrderAscends(s - {Least(s)});
    }
  }

  // ----- what trimming, cutting and case folding mean

  predicate AllWhite(s: string) {
    forall i :: 0 <= i < |s| ==> IsWhitespace(s[i])
  }

  /** Nothing to trim on either side. */
  predicate IsBare(s: string) {
    s != "" ==> !IsWhitespace(s[0]) && !IsWhitespace(s[|s| - 1])
  }

  lemma {:induction false} TrimStartMeaning(s: string) returns (before: string)
    ensures s == before + TrimStart(s) && AllWhite(before) && (TrimStart(s) != "" ==> !IsWhitespace(TrimStart(s)[0]))
  {
    before := "";
    if s != [] && IsWhitespace(s[0]) {
      before := TrimStartMeaning(s[1..]);
      before := [s[0]] + before;
      assert s == [s[0]] + s[1..];
    }
  }

  lemma {:induction false} TrimEndMeaning(s: string) returns (after: string)
    ensures s == TrimEnd(s) + after && AllWhite(after) && (TrimEnd(s) != "" ==> !IsWhitespace(TrimEnd(s)[|TrimEnd(s)| - 1]))
  {
    after := "";
    if s != [] && IsWhitespace(s[|s| - 1]) {
      after := TrimEndMeaning(s[..|s| - 1]);
      after := after + [s[|s| - 1]];
      assert s == s[..|s| - 1] + [s[|s| - 1]];
    }
  }

  /** A text is its trimmed self between white space. */
  lemma TrimMeaning(s: string) returns (before: string, after: string)
    ensures s == before + Trim(s) + after && AllWhite(before) && AllWhite(after) && IsBare(Trim(s))
  {
    before := TrimStartMeaning(s);
    after := TrimEndMeaning(TrimStart(s));
    assert Trim(s) != "" ==> Trim(s)[0] == TrimStart(s)[0];
  }

  /** And nothing else is: white space around a bare text is what trimming removes. */
  lemma TrimOf(before: string, bare: string, after: string)
    requires AllWhite(before) && AllWhite(after) && IsBare(bare)
    ensures Trim(before + bare + after) == bare
  {
    var s := before + bare + after;
    var b, a := TrimMeaning(s);
    var t := Trim(s);
    assert t != "" ==> s[|b|] == t[0] && s[|b| + |t| - 1] == t[|t| - 1];
    assert bare != "" ==> s[|before|] == bare[0] && s[|before| + |bare| - 1] == bare[|bare| - 1];
    assert t == "" ==> forall i :: 0 <= i < |s| ==> IsWhitespace(s[i]);
    assert bare == "" ==> forall i :: 0 <= i < |s| ==> IsWhitespace(s[i]);
    if t != "" && bare != "" {
      assert |b| == |before| && |t| == |bare|;
      assert t == s[|b|..|b| + |t|] == bare;
    }
  }

  /** `s` without the run of `c` at its end. */
  predicate IsStem(stem: string, s: string, c: char) {
    stem <= s && (forall i :: |stem| <= i < |s| ==> s[i] == c) && (stem != "" ==> stem[|stem| - 1] != c)
  }

  lemma {:induction false} TrimEndOfIsStem(s: string, c: char)
    ensures IsStem(TrimEndOf(s, c), s, c)
  {
    if s != [] && s[|s| - 1] == c {
      TrimEndOfIsStem(s[..|s| - 1], c);
    }
  }

  lemma StemIsUnique(a: string, b: string, s: string, c: char)
    requires IsStem(a, s, c) && IsStem(b, s, c)
    ensures a == b
  {
    assert a == s[..|a|] && b == s[..|b|];
    assert a != "" ==> s[|a| - 1] == a[|a| - 1];
    assert b != "" ==> s[|b| - 1] == b[|b| - 1];
  }

  /** The first part of a split is what comes before the first separator. */
  lemma {:induction false} SplitHead(s: string, c: char) returns (rest: string)
    ensures s == Split(s, c)[0] + rest && c !in Split(s, c)[0] && (rest != "" ==> rest[0] == c)
  {
    if s == [] {
      rest := "";
    } else if s[0] == c {
      rest := s;
    } else {
      rest := SplitHead(s[1..], c);
      assert s == [s[0]] + s[1..];
    }
  }

  lemma SplitHeadOf(head: string, rest: string, c: char)
    requires c !in head && (rest != "" ==> rest[0] == c)
    ensures Split(head + rest, c)[0] == head
  {
    if rest == "" {
      assert head + rest == head;
      SplitWithout(head, c);
    } else {
      SplitPrefixed(head, rest[1..], c);
      assert head + rest == head + [c] + rest[1..];
    }
  }

  /** Equal letter by letter, where a capital of the left counts as its small letter. */
  predicate SameUpToCase(s: string, lower: string) {
    |s| == |lower| && forall i :: 0 <= i < |s| ==> s[i] == lower[i] || ('A' <= s[i] <= 'Z' && lower[i] as int == s[i] as int + 32)
  }

  predicate HasCapitals(s: string) {
    exists i :: 0 <= i < |s| && 'A' <= s[i] <= 'Z'
  }

  lemma LowerIsSameUpToCase(s: string, lower: string)
    requires !HasCapitals(lower)
    ensures ToAsciiLower(s) == lower <==> SameUpToCase(s, lower)
  {
    var r := ToAsciiLower(s);
    if SameUpToCase(s, lower) {
      forall i | 0 <= i < |s| ensures r[i] == lower[i] {}
    }
    if r == lower {
      forall i | 0 <= i < |s| ensures s[i] == lower[i] || ('A' <= s[i] <= 'Z' && lower[i] as int == s[i] as int + 32) {
        assert r[i] == LowerChar(s[i]);
      }
    }
  }

  /** `segment` stands in `s` between separators or ends. */
  ghost predicate HasSegment(s: string, segment: string, c: char) {
    exists before, after :: IsSegmentBetween(s, before, segment, after, c)
  }

  predicate IsSegmentBetween(s: string, before: string, segment: string, after: string, c: char) {
    && s == before + segment + after
    && (before == "" || before[|before| - 1] == c) && (after == "" || after[0] == c)
  }

  /** The parts of a split are what stands between separators or ends. */
  lemma {:induction false} SegmentExactly(s: string, segment: string, c: char)
    requires c !in segment
    ensures segment in Split(s, c) <==> HasSegment(s, segment, c)
    decreases |s|
  {
    var rest := SplitHead(s, c);
    var head := Split(s, c)[0];
    if rest == "" {
      assert s == head;
      SplitWithout(s, c);
      WholeSegment(s, segment, c);
    } else {
      var tail := rest[1..];
      assert s == head + [c] + tail;
      SplitPrefixed(head, tail, c);
      SegmentExactly(tail, segment, c);
      SegmentOfTail(head, tail, segment, c);
      assert segment in [head] + Split(tail, c) <==> segment == head || segment in Split(tail, c);
    }
  }

  lemma WholeSegment(s: string, segment: string, c: char)
    requires c !in s
    ensures HasSegment(s, segment, c) <==> segment == s
  {
    if segment == s {
      assert IsSegmentBetween(s, "", segment, "", c);
    }
    if before, after :| IsSegmentBetween(s, before, segment, after, c) {
      assert (forall x :: x in before ==> x in s) && (forall x :: x in after ==> x in s);
    }
  }

  lemma SegmentOfTail(head: string, tail: string, segment: string, c: char)
    requires c !in head && c !in segment
    ensures HasSegment(head + [c] + tail, segment, c) <==> segment == head || HasSegment(tail, segment, c)
  {
    if segment == head {
      SegmentIsHead(tail, segment, c);
    }
    if before, after :| IsSegmentBetween(tail, before, segment, after, c) {
      SegmentFurther(head, tail, before, segment, after, c);
    }
    if before, after :| IsSegmentBetween(head + [c] + tail, before, segment, after, c) {
      SegmentNearer(head, tail, before, segment, after, c);
    }
  }

  lemma SegmentIsHead(tail: string, segment: string, c: char)
    ensures HasSegment(segment + [c] + tail, segment, c)
  {
    assert segment + [c] + tail == "" + segment + ([c] + tail);
    assert IsSegmentBetween(segment + [c] + tail, "", segment, [c] + tail, c);
  }

  lemma SegmentFurther(head: string, tail: string, before: string, segment: string, after: string, c: char)
    requires IsSegmentBetween(tail, before, segment, after, c)
    ensures HasSegment(head + [c] + tail, segment, c)
  {
    assert head + [c] + tail == (head + [c] + before) + segment + after;
    assert IsSegmentBetween(head + [c] + tail, head + [c] + before, segment, after, c);
  }

  lemma SegmentNearer(head: string, tail: string, before: string, segment: string, after: string, c: char)
    requires c !in head && c !in segment && IsSegmentBetween(head + [c] + tail, before, segment, after, c)
    ensures segment == head || HasSegment(tail, segment, c)
  {
    if before == "" {
      assert before + segment + after == segment + after;
      HeadSegment(head, tail, segment, after, c);
    } else {
      SegmentBehind(head, tail, before, segment, after, c);
    }
  }

  lemma SegmentBehind(head: string, tail: string, before: string, segment: string, after: string, c: char)
    requires c !in head && before != "" && IsSegmentBetween(head + [c] + tail, before, segment, after, c)
    ensures HasSegment(tail, segment, c)
  {
    var s, n := head + [c] + tail, |head| + 1;
    assert s[|before| - 1] == c && forall i :: 0 <= i < |head| ==> s[i] == head[i];
    assert |before| >= n;
    assert tail == s[n..] == before[n..] + segment + after;
    assert IsSegmentBetween(tail, before[n..], segment, after, c);
  }

  lemma HeadSegment(head: string, tail: string, segment: string, after: string, c: char)
    requires c !in head && c !in segment && head + [c] + tail == segment + after && (after == "" || after[0] == c)
    ensures segment == head
  {
    var s := head + [c] + tail;
    assert forall i :: 0 <= i < |head| ==> s[i] == head[i];
    assert forall i :: 0 <= i < |segment| ==> s[i] == segment[i];
    assert s[|head|] == c;
    assert |segment| <= |head|;
    assert s[|segment|] == after[0];
    assert |segment| == |head|;
    assert segment == s[..|head|] == head;
  }

  /** `stem` behind the run of `c` at the start of `s`. */
  predicate IsUnrun(stem: string, s: string, c: char) {
    |stem| <= |s| && s[|s| - |stem|..] == stem && (forall i :: 0 <= i < |s| - |stem| ==> s[i] == c) && (stem != "" ==> stem[0] != c)
  }

  lemma {:induction false} TrimStartOfIsUnrun(s: string, c: char)
    ensures IsUnrun(TrimStartOf(s, c), s, c)
  {
    if s != [] && s[0] == c {
      TrimStartOfIsUnrun(s[1..], c);
      UnrunOneMore(TrimStartOf(s[1..], c), s[1..], c);
      assert s == [c] + s[1..];
    }
  }

  lemma UnrunOneMore(stem: string, rest: string, c: char)
    requires IsUnrun(stem, rest, c)
    ensures IsUnrun(stem, [c] + rest, c)
  {
    var s := [c] + rest;
    assert s[|s| - |stem|..] == rest[|rest| - |stem|..];
    forall i | 0 <= i < |s| - |stem| ensures s[i] == c {
      assert i > 0 ==> s[i] == rest[i - 1];
    }
  }

  lemma UnrunIsUnique(a: string, b: string, s: string, c: char)
    requires IsUnrun(a, s, c) && IsUnrun(b, s, c)
    ensures a == b
  {
    assert a != "" ==> s[|s| - |a|] == a[0];
    assert b != "" ==> s[|s| - |b|] == b[0];
  }
}
