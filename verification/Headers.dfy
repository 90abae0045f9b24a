/** Header maps: lower-case insertion, the filter on what hooks may set, and merging. */
module Headers {
  import opened Common
  import opened Text

  type HeaderMap = map<string, string>

  function Inserted(headers: HeaderMap, name: string, value: string): HeaderMap {
    headers[ToAsciiLower(name) := value]
  }

  /** Insertion in the given order of names; names that differ only in case collide and the last stays. */
  function InsertedAll(target: HeaderMap, headers: HeaderMap, order: seq<string>): HeaderMap
    requires forall n :: n in order ==> n in headers
  {
    if order == [] then target
    else
      var last := order[|order| - 1];
      Inserted(InsertedAll(target, headers, order[..|order| - 1]), last, headers[last])
  }

  /** `apply_headers`. */
  function Applied(target: HeaderMap, headers: HeaderMap): HeaderMap {
    InsertedAll(target, headers, InOrder(headers.Keys))
  }

  method ApplyHeaders(target: HeaderMap, headers: HeaderMap) returns (result: HeaderMap)
    ensures result == Applied(target, headers)
  {
    result := target;
    var order := InOrder(headers.Keys);
    for i := 0 to |order|
      invariant result == InsertedAll(target, headers, order[..i])
    {
      assert order[..i + 1][..i] == order[..i];
      result := Inserted(result, order[i], headers[order[i]]);
    }
    assert order[..|order|] == order;
  }

  predicate LowerNames(headers: HeaderMap) {
    forall n :: n in headers ==> ToAsciiLower(n) == n
  }

  const UNSAFE_NAMES: set<string> := {
    "connection", "content-encoding", "content-length", "host", "keep-alive", "proxy-authenticate",
    "proxy-authorization", "te", "trailer", "transfer-encoding", "upgrade"}

  predicate IsUnsafe(name: string) {
    ToAsciiLower(name) in UNSAFE_NAMES
  }

  predicate SafeNames(headers: HeaderMap) {
    forall n :: n in headers ==> !IsUnsafe(n)
  }

  /** What of a hook's headers reaches a response. */
  function Filtered(headers: HeaderMap): HeaderMap {
    var safe := map n | n in headers && !IsUnsafe(n) :: headers[n];
    Applied(map[], safe)
  }

  predicate LowerOf(order: seq<string>, k: string) {
    exists n :: n in order && k == ToAsciiLower(n)
  }

  lemma {:induction false} InsertedName(target: HeaderMap, headers: HeaderMap, order: seq<string>, k: string)
    requires forall n :: n in order ==> n in headers
    ensures k in InsertedAll(target, headers, order) <==> k in target || LowerOf(order, k)
  {
    if order != [] {
      var init, last := order[..|order| - 1], order[|order| - 1];
      InsertedName(target, headers, init, k);
      assert order == init + [last];
      assert LowerOf(order, k) <==> LowerOf(init, k) || k == ToAsciiLower(last) by {
        assert last in order;
      }
    }
  }

  lemma {:induction false} InsertedLower(target: HeaderMap, headers: HeaderMap, order: seq<string>, k: string)
    requires LowerNames(headers) && forall n :: n in order ==> n in headers
    ensures var r := InsertedAll(target, headers, order);
      (k in r <==> k in target || k in order) && (k in r ==> r[k] == if k in order then headers[k] else target[k])
  {
    if order != [] {
      var init, last := order[..|order| - 1], order[|order| - 1];
      InsertedLower(target, headers, init, k);
      assert order == init + [last];
    }
  }

  /** With lower-case names nothing collides, so applying is overriding. */
  lemma AppliedIsOverride(target: HeaderMap, headers: HeaderMap)
    requires LowerNames(headers)
    ensures Applied(target, headers) == target + headers
  {
    var order := InOrder(headers.Keys);
    forall k ensures (k in Applied(target, headers) <==> k in target + headers)
                  && (k in Applied(target, headers) ==> Applied(target, headers)[k] == (target + headers)[k])
    {
      InsertedLower(target, headers, order, k);
    }
  }

  /** Filtered headers have lower-case names, none of them unsafe, and every safe name survives. */
  lemma FilteredIsSafe(headers: HeaderMap)
    ensures LowerNames(Filtered(headers)) && SafeNames(Filtered(headers))
    ensures forall n :: n in headers && !IsUnsafe(n) ==> ToAsciiLower(n) in Filtered(headers)
  {
    var safe := map n | n in headers && !IsUnsafe(n) :: headers[n];
    var order := InOrder(safe.Keys);
    forall k | k in Filtered(headers) ensures ToAsciiLower(k) == k && !IsUnsafe(k) {
      InsertedName(map[], safe, order, k);
      var n :| n in order && k == ToAsciiLower(n);
      ToAsciiLowerIdempotent(n);
      assert n in safe;
    }
    forall n | n in headers && !IsUnsafe(n) ensures ToAsciiLower(n) in Filtered(headers) {
      assert n in safe && n in order;
      InsertedName(map[], safe, order, ToAsciiLower(n));
    }
  }

  // ----- the filter in plain words

  lemma BannedAreLower(banned: string)
    requires banned in UNSAFE_NAMES
    ensures !HasCapitals(banned)
  {
  }

  /** The eleven names a hook may not set, in any spelling. */
  lemma UnsafeExactly(name: string)
    ensures IsUnsafe(name) <==> exists banned :: banned in UNSAFE_NAMES && SameUpToCase(name, banned)
  {
    forall banned | banned in UNSAFE_NAMES ensures ToAsciiLower(name) == banned <==> SameUpToCase(name, banned) {
      BannedAreLower(banned);
      LowerIsSameUpToCase(name, banned);
    }
  }

  /** The last of the names that are `k` up to case says the value. */
  ghost predicate SaidLast(headers: HeaderMap, k: string, name: string) {
    && name in headers && !IsUnsafe(name) && ToAsciiLower(name) == k
    && forall other :: other in headers && ToAsciiLower(other) == k ==> AtMost(other, name)
  }

  lemma {:induction false} InsertedSaid(headers: HeaderMap, order: seq<string>, k: string) returns (i: nat)
    requires (forall n :: n in order ==> n in headers) && LowerOf(order, k)
    ensures i < |order| && ToAsciiLower(order[i]) == k && forall j :: i < j < |order| ==> ToAsciiLower(order[j]) != k
    ensures var r := InsertedAll(map[], headers, order); k in r && r[k] == headers[order[i]]
  {
    var init, last := order[..|order| - 1], order[|order| - 1];
    assert order == init + [last];
    if ToAsciiLower(last) == k {
      i := |order| - 1;
    } else {
      i := InsertedSaid(headers, init, k);
    }
  }

  /** A filtered header is a safe one of the hook's, and has its value. */
  lemma FilteredSays(headers: HeaderMap, k: string)
    requires k in Filtered(headers)
    ensures exists name :: SaidLast(headers, k, name) && Filtered(headers)[k] == headers[name]
  {
    var safe := map n | n in headers && !IsUnsafe(n) :: headers[n];
    var order := InOrder(safe.Keys);
    InsertedName(map[], safe, order, k);
    var i := InsertedSaid(safe, order, k);
    assert order[i] in safe.Keys;
    forall other | other in headers && ToAsciiLower(other) == k ensures AtMost(other, order[i]) {
      assert other in safe.Keys;
      LastOfOrder(safe.Keys, i, other);
    }
    assert SaidLast(headers, k, order[i]);
  }

  lemma LastOfOrder(names: set<string>, i: nat, other: string)
    requires i < |InOrder(names)| && other in names
    requires forall j :: i < j < |InOrder(names)| ==> InOrder(names)[j] != other
    ensures AtMost(other, InOrder(names)[i])
  {
    var j :| 0 <= j < |InOrder(names)| && InOrder(names)[j] == other;
    InOrderAscends(names);
    AtMostTotal(other, other);
  }
}
