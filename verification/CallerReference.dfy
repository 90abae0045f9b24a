/** The bytes hashed into the caller reference of an invalidation, and a decoder that recovers them. */
module CallerReference {
  import opened Common

  /** What one invalidation is for; texts are UTF-8 bytes. */
  datatype Invalidation = Invalidation(namespace: Bytes, originId: Bytes, generation: nat, tenantId: Bytes, paths: seq<Bytes>)

  const TWO_64: nat := 0x1_0000_0000_0000_0000

  /** Every length and the generation fit the 64-bit fields they are written to. */
  predicate InRange(i: Invalidation) {
    && |i.namespace| < TWO_64 && |i.originId| < TWO_64 && i.generation < TWO_64 && |i.tenantId| < TWO_64 && |i.paths| < TWO_64
    && forall p :: p in i.paths ==> |p| < TWO_64
  }

  /** The low `width` bytes of `n`, most significant first. */
  function BigEndian(n: nat, width: nat): (bytes: Bytes)
    ensures |bytes| == width
  {
    if width == 0 then [] else BigEndian(n / 256, width - 1) + [(n % 256) as Byte]
  }

  function FromBigEndian(bytes: Bytes): nat {
    if bytes == [] then 0 else FromBigEndian(bytes[..|bytes| - 1]) * 256 + bytes[|bytes| - 1] as nat
  }

  function Pow256(width: nat): nat {
    if width == 0 then 1 else 256 * Pow256(width - 1)
  }

  lemma {:induction false} BigEndianRoundTrip(n: nat, width: nat)
    requires n < Pow256(width)
    ensures FromBigEndian(BigEndian(n, width)) == n
  {
    if width > 0 {
      BigEndianRoundTrip(n / 256, width - 1);
      var bytes := BigEndian(n, width);
      assert bytes[..width - 1] == BigEndian(n / 256, width - 1);
    }
  }

  /** `n as u64` in big-endian bytes. */
  function Be64(n: nat): Bytes {
    BigEndian(n % TWO_64, 8)
  }

  lemma Pow256Of8()
    ensures Pow256(8) == TWO_64
  {
    assert Pow256(1) == 0x100;
    assert Pow256(2) == 0x1_0000;
    assert Pow256(3) == 0x100_0000;
    assert Pow256(4) == 0x1_0000_0000;
    assert Pow256(5) == 0x100_0000_0000;
    assert Pow256(6) == 0x1_0000_0000_0000;
    assert Pow256(7) == 0x100_0000_0000_0000;
  }

  lemma Be64RoundTrip(n: nat)
    requires n < TWO_64
    ensures |Be64(n)| == 8 && FromBigEndian(Be64(n)) == n
  {
    Pow256Of8();
    BigEndianRoundTrip(n, 8);
  }

  function Component(value: Bytes): Bytes {
    Be64(|value|) + value
  }

  function Components(values: seq<Bytes>): Bytes {
    if values == [] then [] else Components(values[..|values| - 1]) + Component(values[|values| - 1])
  }

  /** Everything the digest is fed. */
  function Preimage(i: Invalidation): Bytes {
    Component(i.namespace) + Component(i.originId) + Be64(i.generation) + Component(i.tenantId) + Be64(|i.paths|) + Components(i.paths)
  }

  /** The digest as the source feeds it: one update after the other. */
  class Digest {
    var fed: Bytes

    constructor ()
      ensures fed == []
    {
      fed := [];
    }

    method Update(bytes: Bytes)
      modifies this
      ensures fed == old(fed) + bytes
    {
      fed := fed + bytes;
    }

    method HashComponent(value: Bytes)
      modifies this
      ensures fed == old(fed) + Component(value)
    {
      Update(Be64(|value|));
      Update(value);
    }
  }

  const REFERENCE_PREFIX := "rendermesh-"

  method HashPaths(digest: Digest, paths: seq<Bytes>)
    modifies digest
    ensures digest.fed == old(digest.fed) + Components(paths)
  {
    for n := 0 to |paths|
      invariant digest.fed == old(digest.fed) + Components(paths[..n])
    {
      OneMoreComponent(paths, n);
      digest.HashComponent(paths[n]);
    }
    assert paths[..|paths|] == paths;
  }

  lemma OneMoreComponent(values: seq<Bytes>, n: nat)
    requires n < |values|
    ensures Components(values[..n + 1]) == Components(values[..n]) + Component(values[n])
  {
    assert values[..n + 1][..n] == values[..n];
  }

  lemma FedInOrder(a: Bytes, b: Bytes, c: Bytes, d: Bytes, e: Bytes, f: Bytes)
    ensures [] + a + b + c + d + e + f == a + b + c + d + e + f == a + (b + (c + (d + (e + f))))
  {
    assert [] + a == a;
    assert a + b + c + d + e + f == a + b + c + d + (e + f);
    assert a + b + c + d + (e + f) == a + b + c + (d + (e + f));
    assert a + b + c + (d + (e + f)) == a + b + (c + (d + (e + f)));
  }

  method InvalidationCallerReference(i: Invalidation, sha256: Bytes -> string) returns (reference: string)
    ensures reference == REFERENCE_PREFIX + sha256(Preimage(i))
  {
    var digest := new Digest();
    digest.HashComponent(i.namespace);
    digest.HashComponent(i.originId);
    digest.Update(Be64(i.generation));
    digest.HashComponent(i.tenantId);
    digest.Update(Be64(|i.paths|));
    HashPaths(digest, i.paths);
    FedInOrder(Component(i.namespace), Component(i.originId), Be64(i.generation), Component(i.tenantId), Be64(|i.paths|), Components(i.paths));
    return REFERENCE_PREFIX + sha256(digest.fed);
  }

  // ----- the decoder

  function TakeNumber(input: Bytes): Option<(nat, Bytes)> {
    if |input| < 8 then None else Some((FromBigEndian(input[..8]), input[8..]))
  }

  function TakeComponent(input: Bytes): Option<(Bytes, Bytes)> {
    match TakeNumber(input)
    case None => None
    case Some((length, rest)) => if |rest| < length then None else Some((rest[..length], rest[length..]))
  }

  function TakeComponents(input: Bytes, count: nat): Option<(seq<Bytes>, Bytes)> {
    if count == 0 then Some(([], input))
    else match TakeComponent(input)
      case None => None
      case Some((first, rest)) =>
        match TakeComponents(rest, count - 1)
        case None => None
        case Some((others, left)) => Some(([first] + others, left))
  }

  function Decode(input: Bytes): Option<Invalidation> {
    match TakeComponent(input)
    case None => None
    case Some((namespace, a)) =>
      match TakeComponent(a)
      case None => None
      case Some((originId, b)) =>
        match TakeNumber(b)
        case None => None
        case Some((generation, c)) =>
          match TakeComponent(c)
          case None => None
          case Some((tenantId, d)) =>
            match TakeNumber(d)
            case None => None
            case Some((count, e)) =>
              match TakeComponents(e, count)
              case None => None
              case Some((paths, left)) => if left == [] then Some(Invalidation(namespace, originId, generation, tenantId, paths)) else None
  }

  lemma TakesNumber(n: nat, rest: Bytes)
    requires n < TWO_64
    ensures TakeNumber(Be64(n) + rest) == Some((n, rest))
  {
    Be64RoundTrip(n);
    assert (Be64(n) + rest)[..8] == Be64(n) && (Be64(n) + rest)[8..] == rest;
  }

  lemma TakesComponent(value: Bytes, rest: Bytes)
    requires |value| < TWO_64
    ensures TakeComponent(Component(value) + rest) == Some((value, rest))
  {
    TakesNumber(|value|, value + rest);
    assert Component(value) + rest == Be64(|value|) + (value + rest);
    assert (value + rest)[..|value|] == value && (value + rest)[|value|..] == rest;
  }

  lemma Reassociated(a: Bytes, b: Bytes, c: Bytes)
    ensures (a + b) + c == a + (b + c)
  {
  }

  lemma {:induction false} ComponentsFromFront(values: seq<Bytes>)
    requires values != []
    ensures Components(values) == Component(values[0]) + Components(values[1..])
  {
    var init, last, tail := values[..|values| - 1], values[|values| - 1], values[1..];
    if init == [] {
      assert tail == [] && last == values[0];
      assert Components(values) == Components(init) + Component(last);
    } else {
      ComponentsFromFront(init);
      assert tail[..|tail| - 1] == init[1..] && tail[|tail| - 1] == last && init[0] == values[0];
      Reassociated(Component(values[0]), Components(init[1..]), Component(last));
    }
  }

  lemma {:induction false} TakesComponents(values: seq<Bytes>)
    requires forall v :: v in values ==> |v| < TWO_64
    ensures TakeComponents(Components(values), |values|) == Some((values, []))
  {
    if values != [] {
      ComponentsFromFront(values);
      TakesComponent(values[0], Components(values[1..]));
      TakesComponents(values[1..]);
      assert values == [values[0]] + values[1..];
    }
  }

  /** Round trip: the decoder recovers every field from the hashed bytes. */
  lemma DecodeOfPreimage(i: Invalidation)
    requires InRange(i)
    ensures Decode(Preimage(i)) == Some(i)
  {
    var e := Components(i.paths);
    var d := Be64(|i.paths|) + e;
    var c := Component(i.tenantId) + d;
    var b := Be64(i.generation) + c;
    var a := Component(i.originId) + b;
    FedInOrder(Component(i.namespace), Component(i.originId), Be64(i.generation), Component(i.tenantId), Be64(|i.paths|), e);
    assert Preimage(i) == Component(i.namespace) + a;
    TakesComponent(i.namespace, a);
    TakesComponent(i.originId, b);
    TakesNumber(i.generation, c);
    TakesComponent(i.tenantId, d);
    TakesNumber(|i.paths|, e);
    TakesComponents(i.paths);
  }

  /** Two invalidations share a caller reference only if they are the same or the hash collides. */
  lemma ReferencesCollideOnlyIfHashDoes(i: Invalidation, j: Invalidation, sha256: Bytes -> string)
    requires InRange(i) && InRange(j)
    requires REFERENCE_PREFIX + sha256(Preimage(i)) == REFERENCE_PREFIX + sha256(Preimage(j))
    ensures i == j || (Preimage(i) != Preimage(j) && sha256(Preimage(i)) == sha256(Preimage(j)))
  {
    var p := REFERENCE_PREFIX;
    assert (p + sha256(Preimage(i)))[|p|..] == sha256(Preimage(i)) && (p + sha256(Preimage(j)))[|p|..] == sha256(Preimage(j));
    DecodeOfPreimage(i);
    DecodeOfPreimage(j);
  }
}
