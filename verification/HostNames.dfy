/** What a host header and an entry of the manifest mean, letter by letter. */
module HostNames {
  import opened Common
  import opened Text
  import opened Hosts
  import opened HostResolution

  predicate IsLetterOrDigit(c: char) {
    'a' <= c <= 'z' || 'A' <= c <= 'Z' || '0' <= c <= '9'
  }

  /** Letters, digits, hyphens and dots; a letter or digit at both ends and on both sides of every dot. */
  ghost predicate IsHostName(host: string) {
    && host != "" && IsLetterOrDigit(host[0]) && IsLetterOrDigit(host[|host| - 1])
    && (forall i :: 0 <= i < |host| ==> IsLetterOrDigit(host[i]) || host[i] == '-' || host[i] == '.')
    && (forall i :: 0 < i < |host| && host[i - 1] == '.' ==> IsLetterOrDigit(host[i]))
    && (forall i :: 0 < i < |host| && host[i] == '.' ==> IsLetterOrDigit(host[i - 1]))
  }

  ghost predicate LabelsValid(s: string) {
    forall part :: part in Split(s, '.') ==> IsValidHostLabel(part)
  }

  lemma LabelExactly(part: string)
    requires '.' !in part
    ensures IsValidHostLabel(part) <==> IsHostName(part)
  {
    if IsValidHostLabel(part) {
      assert part[0] in part && part[|part| - 1] in part;
      forall i | 0 <= i < |part| ensures (IsLetterOrDigit(part[i]) || part[i] == '-') && part[i] != '.' {
        assert part[i] in part;
      }
    }
    if IsHostName(part) {
      forall c | c in part ensures IsLabelChar(c) {}
    }
  }

  lemma NameOfTwo(head: string, tail: string)
    requires '.' !in head
    ensures IsHostName(head + "." + tail) <==> IsHostName(head) && IsHostName(tail)
  {
    var s, n := head + "." + tail, |head| + 1;
    assert forall i :: 0 <= i < |head| ==> s[i] == head[i];
    assert s[|head|] == '.';
    assert forall i :: 0 <= i < |tail| ==> tail[i] == s[i + n];
    if IsHostName(s) {
      assert IsLetterOrDigit(s[n - 2]);
      assert n < |s| && IsLetterOrDigit(s[n]);
      assert tail[0] == s[n];
      assert tail[|tail| - 1] == s[|s| - 1];
      NameOfHead(head, s);
      NameOfTail(tail, s, n);
    }
    if IsHostName(head) && IsHostName(tail) {
      NameOfBoth(head, tail);
    }
  }

  lemma NameOfHead(head: string, s: string)
    requires IsHostName(s) && head <= s && head != "" && IsLetterOrDigit(head[|head| - 1])
    ensures IsHostName(head)
  {
    assert forall i :: 0 <= i < |head| ==> s[i] == head[i];
  }

  lemma NameOfTail(tail: string, s: string, n: nat)
    requires IsHostName(s) && n < |s| && s[n..] == tail && IsLetterOrDigit(s[n])
    ensures IsHostName(tail)
  {
    forall i | 0 <= i < |tail| ensures IsLetterOrDigit(tail[i]) || tail[i] == '-' || tail[i] == '.' {
      assert tail[i] == s[n + i];
    }
    forall i | 0 < i < |tail| ensures (tail[i - 1] == '.' ==> IsLetterOrDigit(tail[i])) && (tail[i] == '.' ==> IsLetterOrDigit(tail[i - 1])) {
      assert tail[i] == s[n + i] && tail[i - 1] == s[n + i - 1];
    }
  }

  lemma NameOfBoth(head: string, tail: string)
    requires IsHostName(head) && IsHostName(tail)
    ensures IsHostName(head + "." + tail)
  {
    var s, n := head + "." + tail, |head| + 1;
    assert s[0] == head[0] && s[|s| - 1] == tail[|tail| - 1] && s[n] == tail[0] && s[n - 2] == head[|head| - 1];
    assert forall i :: 0 <= i < |head| ==> s[i] == head[i];
    forall i | n <= i < |s| ensures s[i] == tail[i - n] {}
    forall i | 0 <= i < |s| ensures IsLetterOrDigit(s[i]) || s[i] == '-' || s[i] == '.' {}
    forall i | 0 < i < |s| ensures (s[i - 1] == '.' ==> IsLetterOrDigit(s[i])) && (s[i] == '.' ==> IsLetterOrDigit(s[i - 1])) {
      if i > n {
        assert s[i] == tail[i - n] && s[i - 1] == tail[i - 1 - n];
      }
    }
  }

  lemma {:induction false} LabelsExactly(s: string)
    ensures LabelsValid(s) <==> IsHostName(s)
    decreases |s|
  {
    var rest := SplitHead(s, '.');
    var head := Split(s, '.')[0];
    LabelExactly(head);
    if rest == "" {
      assert s == head;
      SplitWithout(s, '.');
    } else {
      var tail := rest[1..];
      assert s == head + "." + tail;
      SplitPrefixed(head, tail, '.');
      LabelsExactly(tail);
      NameOfTwo(head, tail);
      assert Split(s, '.') == [head] + Split(tail, '.');
    }
  }

  lemma ValidHostExactly(host: string)
    ensures IsValidHost(host) <==> IsHostName(host)
  {
    LabelsExactly(host);
  }

  /** A colon and at least one digit. */
  predicate IsPort(s: string) {
    |s| > 1 && s[0] == ':' && forall i :: 1 <= i < |s| ==> '0' <= s[i] <= '9'
  }

  /** The header is a host name in some spelling, perhaps with a port, and white space around both. */
  ghost predicate Spells(header: string, host: string) {
    exists before, name, gap, port, after :: SpelledAs(header, before, name, gap, port, after, host)
  }

  ghost predicate SpelledAs(header: string, before: string, name: string, gap: string, port: string, after: string, host: string) {
    && header == before + name + gap + port + after
    && AllWhite(before) && AllWhite(gap) && AllWhite(after) && (port == "" || IsPort(port))
    && IsHostName(host) && !HasCapitals(host) && SameUpToCase(name, host)
  }

  lemma {:induction false} LastColon(head: string, tail: string, c: char)
    requires c !in tail
    ensures RsplitOnce(head + [c] + tail, c) == Some((head, tail))
  {
    var s := head + [c] + tail;
    if tail == "" {
      assert s[..|s| - 1] == head;
    } else {
      var init := tail[..|tail| - 1];
      assert s[..|s| - 1] == head + [c] + init;
      assert s[|s| - 1] == tail[|tail| - 1];
      LastColon(head, init, c);
      assert init + [tail[|tail| - 1]] == tail;
    }
  }

  lemma {:induction false} RsplitMeaning(s: string, c: char)
    ensures RsplitOnce(s, c).None? <==> c !in s
    ensures RsplitOnce(s, c).Some? ==> s == RsplitOnce(s, c).value.0 + [c] + RsplitOnce(s, c).value.1 && c !in RsplitOnce(s, c).value.1
  {
    if s != "" {
      var init, last := s[..|s| - 1], s[|s| - 1];
      assert s == init + [last];
      RsplitMeaning(init, c);
    }
  }

  lemma NameEnds(name: string, host: string)
    requires IsHostName(host) && SameUpToCase(name, host)
    ensures name != "" && !IsWhitespace(name[0]) && !IsWhitespace(name[|name| - 1]) && ':' !in name
  {
    forall i | 0 <= i < |name| ensures name[i] != ':' {
      assert name[i] == host[i] || 'A' <= name[i] <= 'Z';
    }
  }

  lemma PortlessNormalizes(header: string, before: string, name: string, after: string, host: string)
    requires header == before + name + after && AllWhite(before) && AllWhite(after)
    requires IsHostName(host) && !HasCapitals(host) && SameUpToCase(name, host)
    ensures NormalizeHost(header) == Some(host)
  {
    NameEnds(name, host);
    ValidHostExactly(host);
    LowerIsSameUpToCase(name, host);
    TrimOf(before, name, after);
    TrimKeeps(name);
    RsplitMeaning(name, ':');
  }

  lemma PortNormalizes(header: string, before: string, name: string, gap: string, port: string, after: string, host: string)
    requires SpelledAs(header, before, name, gap, port, after, host) && port != ""
    ensures NormalizeHost(header) == Some(host)
  {
    ValidHostExactly(host);
    LowerIsSameUpToCase(name, host);
    SpelledTrimmed(header, before, name, gap, port, after, host);
    PortOff(name, gap, port, host);
  }

  lemma PortOff(name: string, gap: string, port: string, host: string)
    requires AllWhite(gap) && IsPort(port) && IsHostName(host) && SameUpToCase(name, host)
    ensures RsplitOnce(name + gap + port, ':') == Some((name + gap, port[1..])) && Trim(name + gap) == name
  {
    NameEnds(name, host);
    assert name + gap + port == (name + gap) + [':'] + port[1..];
    LastColon(name + gap, port[1..], ':');
    TrimOf("", name, gap);
    assert "" + name + gap == name + gap;
  }

  lemma SpellingNormalizes(header: string, before: string, name: string, gap: string, port: string, after: string, host: string)
    requires SpelledAs(header, before, name, gap, port, after, host)
    ensures NormalizeHost(header) == Some(host)
  {
    if port == "" {
      assert header == before + name + (gap + after);
      PortlessNormalizes(header, before, name, gap + after, host);
    } else {
      PortNormalizes(header, before, name, gap, port, after, host);
    }
  }

  /** An accepted header, trimmed, is a name and perhaps a port. */
  lemma PortCut(header: string) returns (raw: string, port: string)
    requires NormalizeHost(header).Some?
    ensures Trim(header) == raw + port && (port == "" || IsPort(port))
    ensures NormalizeHost(header).value == ToAsciiLower(Trim(raw)) && IsValidHost(ToAsciiLower(Trim(raw)))
  {
    var value := Trim(header);
    RsplitMeaning(value, ':');
    var split := RsplitOnce(value, ':');
    if split.Some? {
      raw, port := split.value.0, [':'] + split.value.1;
      assert forall i :: 1 <= i < |port| ==> port[i] == split.value.1[i - 1] && split.value.1[i - 1] in split.value.1;
    } else {
      raw, port := value, "";
    }
  }

  lemma NormalizesSpelled(header: string, host: string)
    requires NormalizeHost(header) == Some(host)
    ensures Spells(header, host)
  {
    var raw, port := PortCut(header);
    var before, after := TrimMeaning(header);
    var front, gap := TrimMeaning(raw);
    ValidHostExactly(host);
    NoCapitalsLeft(Trim(raw));
    LowerIsSameUpToCase(Trim(raw), host);
    Regrouped(before, front, Trim(raw), gap, port, after);
    assert SpelledAs(header, before + front, Trim(raw), gap, port, after, host);
  }

  lemma Regrouped(before: string, front: string, name: string, gap: string, port: string, after: string)
    ensures before + (front + name + gap + port) + after == (before + front) + name + gap + port + after
    ensures AllWhite(before) && AllWhite(front) ==> AllWhite(before + front)
  {
  }

  lemma NoCapitalsLeft(name: string)
    ensures !HasCapitals(ToAsciiLower(name))
  {
    var lower := ToAsciiLower(name);
    forall i | 0 <= i < |lower| ensures !('A' <= lower[i] <= 'Z') {
      assert lower[i] == LowerChar(name[i]);
    }
  }

  /** A header names a host exactly when it spells it: the port is dropped, capitals and white space do not count. */
  lemma NormalizeHostExactly(header: string, host: string)
    ensures NormalizeHost(header) == Some(host) <==> Spells(header, host)
  {
    if Spells(header, host) {
      var before, name, gap, port, after :| SpelledAs(header, before, name, gap, port, after, host);
      SpellingNormalizes(header, before, name, gap, port, after, host);
    } else if NormalizeHost(header) == Some(host) {
      NormalizesSpelled(header, host);
    }
  }

  // ----- entries of the manifest

  lemma LowerOfTwo(a: string, b: string)
    ensures ToAsciiLower(a + b) == ToAsciiLower(a) + ToAsciiLower(b)
  {
    assert forall i :: 0 <= i < |a + b| ==> ToAsciiLower(a + b)[i] == (ToAsciiLower(a) + ToAsciiLower(b))[i];
  }

  lemma LowerKeepsWhite(s: string)
    ensures AllWhite(ToAsciiLower(s)) <==> AllWhite(s)
    ensures AllWhite(s) ==> ToAsciiLower(s) == s
  {
    var lower := ToAsciiLower(s);
    assert forall i :: 0 <= i < |s| ==> lower[i] == LowerChar(s[i]);
    forall i | 0 <= i < |s| ensures IsWhitespace(lower[i]) <==> IsWhitespace(s[i]) {}
    if AllWhite(s) {
      assert forall i :: 0 <= i < |s| ==> lower[i] == s[i];
    }
  }

  lemma LowerKeepsPort(s: string)
    ensures IsPort(ToAsciiLower(s)) <==> IsPort(s)
    ensures IsPort(s) ==> ToAsciiLower(s) == s
  {
    var lower := ToAsciiLower(s);
    assert forall i :: 0 <= i < |s| ==> lower[i] == LowerChar(s[i]);
    if IsPort(s) {
      assert forall i :: 0 <= i < |s| ==> lower[i] == s[i];
    }
  }

  /** A text in small letters, cut in five, is cut in the same places in its own letters. */
  lemma CutBefore(s: string, a: string, b: string) returns (x: string, y: string)
    requires ToAsciiLower(s) == a + b
    ensures s == x + y && ToAsciiLower(x) == a && ToAsciiLower(y) == b
  {
    x, y := s[..|a|], s[|a|..];
    assert s == x + y;
    LowerOfTwo(x, y);
    assert ToAsciiLower(x) == (a + b)[..|a|] == a;
    assert ToAsciiLower(y) == (a + b)[|a|..] == b;
  }

  lemma SpelledInCapitals(s: string, host: string)
    requires Spells(ToAsciiLower(s), host)
    ensures Spells(s, host)
  {
    var before, name, gap, port, after :| SpelledAs(ToAsciiLower(s), before, name, gap, port, after, host);
    var s4, a := CutBefore(s, before + name + gap + port, after);
    var s3, p := CutBefore(s4, before + name + gap, port);
    var s2, g := CutBefore(s3, before + name, gap);
    var b, n := CutBefore(s2, before, name);
    LowerKeepsWhite(a);
    LowerKeepsPort(p);
    LowerKeepsWhite(g);
    LowerKeepsWhite(b);
    LowerIsSameUpToCase(name, host);
    ToAsciiLowerIdempotent(n);
    LowerIsSameUpToCase(n, host);
    assert SpelledAs(s, b, n, g, p, a, host);
  }

  lemma SpelledUntrimmed(s: string, host: string)
    requires Spells(Trim(s), host)
    ensures Spells(s, host)
  {
    var before, name, gap, port, after :| SpelledAs(Trim(s), before, name, gap, port, after, host);
    var b, a := TrimMeaning(s);
    Widened(b, before, name, gap, port, after, a);
    assert SpelledAs(s, b + before, name, gap, port, after + a, host);
  }

  lemma Widened(b: string, before: string, name: string, gap: string, port: string, after: string, a: string)
    ensures b + (before + name + gap + port + after) + a == (b + before) + name + gap + port + (after + a)
    ensures AllWhite(b) && AllWhite(before) ==> AllWhite(b + before)
    ensures AllWhite(after) && AllWhite(a) ==> AllWhite(after + a)
  {
  }

  /** Without the white space around it, a spelling keeps the gap only before a port. */
  lemma SpelledTrimmed(s: string, before: string, name: string, gap: string, port: string, after: string, host: string)
    requires SpelledAs(s, before, name, gap, port, after, host)
    ensures Trim(s) == if port == "" then name else name + gap + port
  {
    NameEnds(name, host);
    if port == "" {
      assert s == before + name + (gap + after);
      TrimOf(before, name, gap + after);
    } else {
      var value := name + gap + port;
      assert value[0] == name[0] && value[|value| - 1] == port[|port| - 1];
      assert s == before + value + after;
      TrimOf(before, value, after);
    }
  }

  lemma BareSpelling(name: string, gap: string, port: string, host: string)
    requires IsHostName(host) && !HasCapitals(host) && SameUpToCase(name, host)
    requires AllWhite(gap) && (port == "" || IsPort(port))
    ensures Spells(name + gap + port, host)
  {
    assert name + gap + port == "" + name + gap + port + "";
    assert SpelledAs(name + gap + port, "", name, gap, port, "", host);
  }

  /** An entry that spells a host spells it trimmed and in small letters too, and is no wildcard. */
  lemma SpelledNormalized(s: string, host: string)
    requires Spells(s, host)
    ensures Spells(ToAsciiLower(Trim(s)), host)
    ensures ToAsciiLower(Trim(s)) != "" && IsLetterOrDigit(ToAsciiLower(Trim(s))[0])
  {
    var before, name, gap, port, after :| SpelledAs(s, before, name, gap, port, after, host);
    SpelledTrimmed(s, before, name, gap, port, after, host);
    LowerIsSameUpToCase(name, host);
    if port == "" {
      BareSpelling(host, "", "", host);
      assert host + "" + "" == host;
    } else {
      LowerKept(name, gap, port);
      BareSpelling(host, gap, port, host);
      assert (host + gap + port)[0] == host[0];
    }
  }

  lemma LowerKept(name: string, gap: string, port: string)
    requires AllWhite(gap) && IsPort(port)
    ensures ToAsciiLower(name + gap + port) == ToAsciiLower(name) + gap + port
  {
    LowerOfTwo(name + gap, port);
    LowerOfTwo(name, gap);
    LowerKeepsWhite(gap);
    LowerKeepsPort(port);
  }

  lemma SpelledEntry(s: string, host: string)
    ensures Spells(ToAsciiLower(Trim(s)), host) <==> Spells(s, host)
  {
    if Spells(ToAsciiLower(Trim(s)), host) {
      SpelledInCapitals(Trim(s), host);
      SpelledUntrimmed(s, host);
    }
    if Spells(s, host) {
      SpelledNormalized(s, host);
    }
  }

  ghost predicate IsStar(s: string) {
    exists before, after :: s == before + "*" + after && AllWhite(before) && AllWhite(after)
  }

  /** A star, a dot and a host name in some spelling, without a port, and white space around it. */
  ghost predicate IsStarOf(s: string, suffix: string) {
    exists before, name, after :: StarredAs(s, before, name, after, suffix)
  }

  ghost predicate StarredAs(s: string, before: string, name: string, after: string, suffix: string) {
    && s == before + "*." + name + after && AllWhite(before) && AllWhite(after)
    && IsHostName(suffix) && !HasCapitals(suffix) && SameUpToCase(name, suffix)
  }

  lemma StarExactly(s: string)
    ensures RuleOf(s) == Global <==> IsStar(s)
  {
    var before, after := TrimMeaning(s);
    if b, a :| s == b + "*" + a && AllWhite(b) && AllWhite(a) {
      TrimOf(b, "*", a);
    }
    if ToAsciiLower(Trim(s)) == "*" {
      assert Trim(s)[0] == '*';
      assert s == before + "*" + after;
    }
  }

  lemma OwnSpelling(host: string)
    ensures NormalizeHost(host) == Some(host) <==> IsHostName(host) && !HasCapitals(host)
  {
    NormalizeHostExactly(host, host);
    if IsHostName(host) && !HasCapitals(host) {
      assert SpelledAs(host, "", host, "", "", "", host);
    }
  }

  lemma StarOfExactly(s: string, suffix: string)
    ensures RuleOf(s) == Wild("." + suffix) <==> IsStarOf(s, suffix)
  {
    OwnSpelling(suffix);
    if before, name, after :| StarredAs(s, before, name, after, suffix) {
      StarredMeans(s, before, name, after, suffix);
      assert ("*." + suffix)[2..] == suffix;
    }
    if RuleOf(s) == Wild("." + suffix) {
      WildIsStarred(s, suffix);
    }
  }

  lemma WildIsStarred(s: string, suffix: string)
    requires RuleOf(s) == Wild("." + suffix)
    ensures IsStarOf(s, suffix)
  {
    WildSuffix(s, suffix);
    OwnSpelling(suffix);
    StarredText(s, Trim(s), suffix);
  }

  lemma StarredText(s: string, bare: string, suffix: string)
    requires bare == Trim(s) && ToAsciiLower(bare) == "*." + suffix && IsHostName(suffix) && !HasCapitals(suffix)
    ensures IsStarOf(s, suffix)
  {
    var star, name := CutBefore(bare, "*.", suffix);
    LowerIsSameUpToCase(name, suffix);
    StarOfLower(star);
    var before, after := TrimMeaning(s);
    StarredWhole(s, before, name, after, suffix);
  }

  lemma StarOfLower(star: string)
    requires ToAsciiLower(star) == "*."
    ensures star == "*."
  {
    assert ToAsciiLower(star)[0] == LowerChar(star[0]) && ToAsciiLower(star)[1] == LowerChar(star[1]);
  }

  lemma StarredWhole(s: string, before: string, name: string, after: string, suffix: string)
    requires s == before + ("*." + name) + after && AllWhite(before) && AllWhite(after)
    requires IsHostName(suffix) && !HasCapitals(suffix) && SameUpToCase(name, suffix)
    ensures IsStarOf(s, suffix)
  {
    assert s == before + "*." + name + after;
    assert StarredAs(s, before, name, after, suffix);
  }

  lemma WildSuffix(s: string, suffix: string)
    requires RuleOf(s) == Wild("." + suffix)
    ensures ToAsciiLower(Trim(s)) == "*." + suffix && NormalizeHost(suffix) == Some(suffix)
  {
    var normalized := ToAsciiLower(Trim(s));
    assert normalized[2..] == ("." + normalized[2..])[1..] == ("." + suffix)[1..] == suffix;
  }

  lemma LowerOfStarred(name: string, suffix: string)
    requires !HasCapitals(suffix) && SameUpToCase(name, suffix)
    ensures ToAsciiLower("*." + name) == "*." + suffix
  {
    var star := "*.";
    LowerOfTwo(star, name);
    LowerIsSameUpToCase(name, suffix);
    assert forall i :: 0 <= i < |star| ==> ToAsciiLower(star)[i] == star[i];
  }

  lemma TrimStarred(before: string, name: string, after: string, suffix: string)
    requires AllWhite(before) && AllWhite(after) && IsHostName(suffix) && SameUpToCase(name, suffix)
    ensures Trim(before + ("*." + name) + after) == "*." + name
  {
    var bare := "*." + name;
    NameEnds(name, suffix);
    assert bare[0] == '*' && bare[|bare| - 1] == name[|name| - 1];
    TrimOf(before, bare, after);
  }

  lemma StarredMeans(s: string, before: string, name: string, after: string, suffix: string)
    requires StarredAs(s, before, name, after, suffix)
    ensures ToAsciiLower(Trim(s)) == "*." + suffix
  {
    TrimStarred(before, name, after, suffix);
    LowerOfStarred(name, suffix);
    Grouped(before, "*.", name, after);
  }

  lemma Grouped(before: string, star: string, name: string, after: string)
    ensures before + star + name + after == before + (star + name) + after
  {
  }

  /** What an entry of the manifest is: everything, the hosts below one, one host, or unusable. */
  lemma RuleExactly(s: string)
    ensures RuleOf(s) == Global <==> IsStar(s)
    ensures forall suffix :: RuleOf(s) == Wild("." + suffix) <==> IsStarOf(s, suffix)
    ensures RuleOf(s).Wild? ==> exists suffix :: RuleOf(s) == Wild("." + suffix)
    ensures forall host :: RuleOf(s) == Exact(host) <==> Spells(s, host)
  {
    StarExactly(s);
    forall suffix ensures RuleOf(s) == Wild("." + suffix) <==> IsStarOf(s, suffix) {
      StarOfExactly(s, suffix);
    }
    var normalized := ToAsciiLower(Trim(s));
    forall host ensures RuleOf(s) == Exact(host) <==> Spells(s, host) {
      SpelledEntry(s, host);
      NormalizeHostExactly(normalized, host);
      if Spells(s, host) {
        SpelledNormalized(s, host);
      }
    }
  }

  /** A wildcard covers the hosts with something before its suffix, an exact entry covers itself. */
  lemma MatchesExactly(suffix: string, host: string)
    ensures RuleMatches(Wild(suffix), host) <==> exists front :: front != "" && host == front + suffix
    ensures forall h :: RuleMatches(Exact(h), host) <==> h == host
    ensures RuleMatches(Global, host) && !RuleMatches(Unusable, host)
  {
    if EndsWith(host, suffix) {
      assert host == host[..|host| - |suffix|] + suffix;
    }
    if front :| front != "" && host == front + suffix {
      assert host[|host| - |suffix|..] == suffix;
    }
  }
}
