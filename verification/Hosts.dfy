/** Host names: normalisation, the resolver built from a manifest, and what it resolves to. */
module Hosts {
  import opened Common
  import opened Text
  import opened Sorting

  // ----- normalisation

  function RsplitOnce(s: string, c: char): Option<(string, string)> {
    if s == [] then None
    else if s[|s| - 1] == c then Some((s[..|s| - 1], []))
    else match RsplitOnce(s[..|s| - 1], c)
      case None => None
      case Some((head, tail)) => Some((head, tail + [s[|s| - 1]]))
  }

  predicate IsLabelChar(c: char) {
    IsAsciiAlphanumeric(c) || c == '-'
  }

  predicate IsValidHostLabel(part: string) {
    part != "" && part[0] != '-' && part[|part| - 1] != '-' && forall c :: c in part ==> IsLabelChar(c)
  }

  predicate IsValidHost(host: string) {
    && host != "" && host[0] != '.' && host[|host| - 1] != '.'
    && forall part :: part in Split(host, '.') ==> IsValidHostLabel(part)
  }

  function NormalizeHost(header: string): Option<string> {
    var value := Trim(header);
    if value == "" then None
    else
      match RsplitOnce(value, ':')
      case Some((host, port)) =>
        if port == "" || (exists c :: c in port && !IsAsciiDigit(c)) then None else ValidHost(ToAsciiLower(Trim(host)))
      case None => ValidHost(ToAsciiLower(Trim(value)))
  }

  function ValidHost(host: string): Option<string> {
    if IsValidHost(host) then Some(host) else None
  }

  predicate IsHostChar(c: char) {
    IsLabelChar(c) || c == '.'
  }

  lemma {:induction false} SplitCovers(s: string, c: char, x: char)
    requires x in s && x != c
    ensures exists part :: part in Split(s, c) && x in part
  {
    var rest := Split(s[1..], c);
    var parts := Split(s, c);
    if s[0] == x {
      assert x in parts[0];
    } else {
      SplitCovers(s[1..], c, x);
      var part :| part in rest && x in part;
      var i :| 0 <= i < |rest| && rest[i] == part;
      if s[0] == c {
        assert parts[i + 1] == part;
      } else if i == 0 {
        assert x in parts[0];
      } else {
        assert parts[i] == part;
      }
    }
  }

  lemma ValidHostChars(host: string)
    requires IsValidHost(host)
    ensures forall x :: x in host ==> IsHostChar(x)
  {
    forall x | x in host ensures IsHostChar(x) {
      if x != '.' {
        SplitCovers(host, '.', x);
      }
    }
  }

  lemma {:induction false} NoColonNoSplit(s: string, c: char)
    requires c !in s
    ensures RsplitOnce(s, c).None?
  {
    if s != [] {
      NoColonNoSplit(s[..|s| - 1], c);
    }
  }

  /** A normalised host is in lower case and normalises to itself. */
  lemma NormalizeHostIdempotent(header: string)
    requires NormalizeHost(header).Some?
    ensures NormalizeHost(NormalizeHost(header).value) == NormalizeHost(header)
    ensures IsValidHost(NormalizeHost(header).value)
  {
    var host := NormalizeHost(header).value;
    var raw := match RsplitOnce(Trim(header), ':') case Some((h, _)) => Trim(h) case None => Trim(Trim(header));
    assert host == ToAsciiLower(raw);
    ValidHostIsFixed(host, raw);
  }

  lemma TrimKeeps(s: string)
    requires s != "" && !IsWhitespace(s[0]) && !IsWhitespace(s[|s| - 1])
    ensures Trim(s) == s
  {
  }

  lemma HostCharsFixed(host: string)
    requires host != "" && forall x :: x in host ==> IsHostChar(x)
    ensures Trim(host) == host && RsplitOnce(host, ':').None?
  {
    assert IsHostChar(host[0]) && IsHostChar(host[|host| - 1]);
    TrimKeeps(host);
    assert ':' !in host;
    NoColonNoSplit(host, ':');
  }

  lemma ValidHostIsFixed(host: string, raw: string)
    requires IsValidHost(host) && host == ToAsciiLower(raw)
    ensures NormalizeHost(host) == Some(host)
  {
    ValidHostChars(host);
    HostCharsFixed(host);
    ToAsciiLowerIdempotent(raw);
  }
}
