/**
 The keys under which answers are cached: a hash of an encoding of the request. The encoding leaves out every
 field with a zero value, so that an optional field set to zero looks like one that is not set.
 */
module RequestKeys {
  import opened Options
  import opened RequestCache

  // ---- the encoding

  datatype Value =
    | Text(text: string)
    | Texts(texts: seq<string>)
    | Points(points: seq<seq<real>>)
    | Flag(flag: bool)
    | Number(number: real)
    | Optional(target: Option<real>)
    | Structs(structs: seq<map<nat, Value>>)
  {
    predicate IsZero() {
      match this
      case Text(t) => t == ""
      case Texts(ts) => ts == []
      case Points(ps) => ps == []
      case Flag(b) => !b
      case Number(x) => x == 0.0
      case Optional(p) => p.None? || p.value == 0.0
      case Structs(ss) => ss == []
    }

    predicate SameKind(that: Value) {
      match this
      case Text(_) => that.Text?
      case Texts(_) => that.Texts?
      case Points(_) => that.Points?
      case Flag(_) => that.Flag?
      case Number(_) => that.Number?
      case Optional(_) => that.Optional?
      case Structs(_) => that.Structs?
    }
  }

  type Encoding = map<nat, Value>

  function Encode(fields: seq<Value>): Encoding {
    map i: nat | i < |fields| && !fields[i].IsZero() :: fields[i]
  }

  predicate SameKinds(a: seq<Value>, b: seq<Value>) {
    |a| == |b| && forall i :: 0 <= i < |a| ==> a[i].SameKind(b[i])
  }

  /** What the encoding cannot tell apart: an optional field set to zero, and one not set. */
  predicate Alike(x: Value, y: Value) {
    x == y || (x.Optional? && y.Optional? && x.IsZero() && y.IsZero())
  }

  /** Two values of one type are encoded alike exactly when their fields agree, up to optional fields set to zero. */
  lemma EncodeIff(a: seq<Value>, b: seq<Value>)
    requires SameKinds(a, b)
    ensures Encode(a) == Encode(b) <==> forall i :: 0 <= i < |a| ==> Alike(a[i], b[i])
  {
    if Encode(a) == Encode(b) {
      forall i | 0 <= i < |a|
        ensures Alike(a[i], b[i])
      {
        assert i in Encode(a) <==> !a[i].IsZero();
        assert i in Encode(b) <==> !b[i].IsZero();
        if a[i].IsZero() && b[i].IsZero() {
          ZerosAlike(a[i], b[i]);
        }
        assert i in Encode(a) ==> Encode(a)[i] == Encode(b)[i];
      }
    } else if forall i :: 0 <= i < |a| ==> Alike(a[i], b[i]) {
      EncodeAlike(a, b);
    }
  }

  lemma ZerosAlike(x: Value, y: Value)
    requires x.SameKind(y) && x.IsZero() && y.IsZero()
    ensures Alike(x, y)
  {
  }

  lemma EncodeAlike(a: seq<Value>, b: seq<Value>)
    requires |a| == |b| && forall i :: 0 <= i < |a| ==> Alike(a[i], b[i])
    ensures Encode(a) == Encode(b)
  {
    forall i: nat
      ensures i in Encode(a) <==> i in Encode(b)
      ensures i in Encode(a) ==> Encode(a)[i] == Encode(b)[i]
    {
      if i < |a| {
        assert Alike(a[i], b[i]);
      }
    }
  }

  predicate AllSet(fields: seq<Value>) {
    forall i :: 0 <= i < |fields| && fields[i].Optional? ==> fields[i].target.Some?
  }

  /** Where every optional field is set, nothing is lost. */
  lemma EncodeSetIff(a: seq<Value>, b: seq<Value>)
    requires SameKinds(a, b) && AllSet(a) && AllSet(b)
    ensures Encode(a) == Encode(b) <==> a == b
  {
    EncodeIff(a, b);
    if forall i :: 0 <= i < |a| ==> Alike(a[i], b[i]) {
      assert forall i :: 0 <= i < |a| ==> a[i] == b[i];
    }
  }

  // ---- keys

  ghost predicate Injective<K(!new)>(hash: Encoding -> K) {
    forall x, y :: hash(x) == hash(y) ==> x == y
  }

  function KeyedBy<R, K, E>(encode: R -> Encoding, hash: Encoding -> K, execute: R -> Result<E>): Service<R, K, E> {
    Service(r => Ok(hash(encode(r))), execute)
  }

  /** Keys determine answers if the encoding tells apart all requests that are answered differently. */
  lemma KeysDetermine<R(!new), K(!new), E(!new)>(encode: R -> Encoding, hash: Encoding -> K, execute: R -> Result<E>)
    requires Injective(hash)
    requires forall r, q :: encode(r) == encode(q) ==> execute(r) == execute(q)
    ensures KeyDetermines(KeyedBy(encode, hash, execute))
  {
    var service := KeyedBy(encode, hash, execute);
    forall r, q | service.key(r) == service.key(q)
      ensures execute(r) == execute(q)
    {
      assert hash(encode(r)) == hash(encode(q));
    }
  }

  // ---- fence requests

  datatype FenceRequest = FenceRequest(vds: seq<string>, sas: seq<string>, binaryOperator: string,
                                       coordinateSystem: string, coordinates: seq<seq<real>>, interpolation: string,
                                       fillValue: Option<real>)

  /** The fields of a request without its access tokens. */
  function FenceFields(f: FenceRequest): seq<Value> {
    [Texts(f.vds), Texts([]), Text(f.binaryOperator), Text(f.coordinateSystem), Points(f.coordinates),
     Text(f.interpolation), Optional(f.fillValue)]
  }

  function PlainFenceEncoding(f: FenceRequest): Encoding {
    Encode(FenceFields(f))
  }

  /** The encoding of the wrapper, which also says whether there is a fill value. */
  function FenceEncoding(f: FenceRequest): Encoding {
    Encode(FenceFields(f) + [Flag(f.fillValue.Some?)])
  }

  predicate NoneOrZero(x: Option<real>) {
    x.None? || x.value == 0.0
  }

  /** Without the flag, no fill value and a fill value of zero look the same, and nothing else does. */
  lemma PlainFenceEncodingIff(f: FenceRequest, g: FenceRequest)
    ensures PlainFenceEncoding(f) == PlainFenceEncoding(g)
            <==> f.(sas := [], fillValue := None) == g.(sas := [], fillValue := None)
                 && (f.fillValue == g.fillValue || (NoneOrZero(f.fillValue) && NoneOrZero(g.fillValue)))
  {
    var a, b := FenceFields(f), FenceFields(g);
    EncodeIff(a, b);
    AlikeFence(f, g);
  }

  lemma AlikeFence(f: FenceRequest, g: FenceRequest)
    ensures (forall i :: 0 <= i < 7 ==> Alike(FenceFields(f)[i], FenceFields(g)[i]))
            <==> f.(sas := [], fillValue := None) == g.(sas := [], fillValue := None)
                 && Alike(Optional(f.fillValue), Optional(g.fillValue))
  {
    var a, b := FenceFields(f), FenceFields(g);
    if forall i :: 0 <= i < 7 ==> Alike(a[i], b[i]) {
      assert Alike(a[0], b[0]) && Alike(a[2], b[2]) && Alike(a[3], b[3]);
      assert Alike(a[4], b[4]) && Alike(a[5], b[5]) && Alike(a[6], b[6]);
    }
  }

  /** With the flag, exactly the requests that differ in nothing but their tokens look the same. */
  lemma FenceEncodingIff(f: FenceRequest, g: FenceRequest)
    ensures FenceEncoding(f) == FenceEncoding(g) <==> f.(sas := []) == g.(sas := [])
  {
    var a, b := FenceFields(f) + [Flag(f.fillValue.Some?)], FenceFields(g) + [Flag(g.fillValue.Some?)];
    EncodeIff(a, b);
    AlikeFence(f, g);
    if forall i :: 0 <= i < |a| ==> Alike(a[i], b[i]) {
      assert forall i :: 0 <= i < 7 ==> a[i] == FenceFields(f)[i] && b[i] == FenceFields(g)[i];
      assert Alike(a[7], b[7]);
    }
  }

  ghost predicate IgnoresTokens<E(!new)>(execute: FenceRequest -> Result<E>) {
    forall f: FenceRequest, g: FenceRequest :: f.(sas := []) == g.(sas := []) ==> execute(f) == execute(g)
  }

  /** Fence requests can be cached. */
  lemma FenceKeysDetermine<K(!new), E(!new)>(hash: Encoding -> K, execute: FenceRequest -> Result<E>)
    requires Injective(hash) && IgnoresTokens(execute)
    ensures KeyDetermines(KeyedBy(FenceEncoding, hash, execute))
  {
    forall f, g | FenceEncoding(f) == FenceEncoding(g)
      ensures execute(f) == execute(g)
    {
      FenceEncodingIff(f, g);
    }
    KeysDetermine(FenceEncoding, hash, execute);
  }

  /** Some fence succeeds with a fill value of zero, or without one, and has another answer in the other case. */
  ghost predicate ToldApart<E(!new)>(execute: FenceRequest -> Result<E>, f: FenceRequest) {
    execute(f.(fillValue := None)) != execute(f.(fillValue := Some(0.0)))
    && (execute(f.(fillValue := None)).Ok? || execute(f.(fillValue := Some(0.0))).Ok?)
  }

  /** Without the flag, they could be cached only if a fill value of zero never made a difference. */
  lemma PlainFenceKeysDetermineIff<K(!new), E(!new)>(hash: Encoding -> K, execute: FenceRequest -> Result<E>)
    requires Injective(hash) && IgnoresTokens(execute)
    ensures KeyDetermines(KeyedBy(PlainFenceEncoding, hash, execute)) <==> forall f :: !ToldApart(execute, f)
  {
    var service := KeyedBy(PlainFenceEncoding, hash, execute);
    if KeyDetermines(service) {
      forall f
        ensures !ToldApart(execute, f)
      {
        PlainFenceEncodingIff(f.(fillValue := None), f.(fillValue := Some(0.0)));
        assert service.key(f.(fillValue := None)) == service.key(f.(fillValue := Some(0.0)));
      }
    } else {
      var f, g :| service.key(f) == service.key(g) && service.execute(f).Ok? && execute(f) != execute(g);
      PlainFenceEncodingIff(f, g);
      assert ToldApart(execute, f);
    }
  }

  // ---- slice requests

  datatype SliceBound = SliceBound(direction: string, lower: int, upper: int)

  /** The line number, and the fields of a bound, are encoded as optional, but a request must set them. */
  datatype SliceRequest = SliceRequest(vds: seq<string>, sas: seq<string>, binaryOperator: string,
                                       direction: string, lineno: int, bounds: seq<SliceBound>)

  function BoundEncoding(b: SliceBound): Encoding {
    Encode([Text(b.direction), Optional(Some(b.lower as real)), Optional(Some(b.upper as real))])
  }

  function SliceFields(r: SliceRequest): seq<Value> {
    [Texts(r.vds), Texts([]), Text(r.binaryOperator), Text(r.direction), Optional(Some(r.lineno as real)),
     Structs(seq(|r.bounds|, i requires 0 <= i < |r.bounds| => BoundEncoding(r.bounds[i])))]
  }

  function SliceEncoding(r: SliceRequest): Encoding {
    Encode(SliceFields(r))
  }

  lemma BoundEncodingIff(b: SliceBound, c: SliceBound)
    ensures BoundEncoding(b) == BoundEncoding(c) <==> b == c
  {
    EncodeSetIff([Text(b.direction), Optional(Some(b.lower as real)), Optional(Some(b.upper as real))],
                 [Text(c.direction), Optional(Some(c.lower as real)), Optional(Some(c.upper as real))]);
  }

  /** Zeros are left out here as well, yet no two slices that differ in more than their tokens look the same. */
  lemma SliceEncodingIff(r: SliceRequest, q: SliceRequest)
    ensures SliceEncoding(r) == SliceEncoding(q) <==> r.(sas := []) == q.(sas := [])
  {
    var x, y := SliceFields(r), SliceFields(q);
    EncodeSetIff(x, y);
    if x == y {
      assert x[0] == y[0] && x[2] == y[2] && x[3] == y[3] && x[4] == y[4] && x[5] == y[5];
      BoundsAreEqual(r.bounds, q.bounds, x[5].structs, y[5].structs);
    }
  }

  lemma BoundsAreEqual(b: seq<SliceBound>, c: seq<SliceBound>, x: seq<Encoding>, y: seq<Encoding>)
    requires |b| == |x| && |c| == |y| && x == y
    requires forall i :: 0 <= i < |b| ==> x[i] == BoundEncoding(b[i])
    requires forall i :: 0 <= i < |c| ==> y[i] == BoundEncoding(c[i])
    ensures b == c
  {
    forall i | 0 <= i < |b|
      ensures b[i] == c[i]
    {
      BoundEncodingIff(b[i], c[i]);
    }
  }

  /** Slice requests can be cached. */
  lemma SliceKeysDetermine<K(!new), E(!new)>(hash: Encoding -> K, execute: SliceRequest -> Result<E>)
    requires Injective(hash)
    requires forall r: SliceRequest, q: SliceRequest :: r.(sas := []) == q.(sas := []) ==> execute(r) == execute(q)
    ensures KeyDetermines(KeyedBy(SliceEncoding, hash, execute))
  {
    forall r, q | SliceEncoding(r) == SliceEncoding(q)
      ensures execute(r) == execute(q)
    {
      SliceEncodingIff(r, q);
    }
    KeysDetermine(SliceEncoding, hash, execute);
  }

  // ---- attribute requests

  /** A surface as it is sent; all but the increments are optional in the encoding, but a request must set them. */
  datatype SentSurface = SentSurface(values: seq<seq<real>>, rotation: real, xori: real, yori: real, xinc: real, yinc: real,
                                     fillValue: real)

  function SurfaceFields(s: SentSurface): seq<Value> {
    [Points(s.values), Optional(Some(s.rotation)), Optional(Some(s.xori)), Optional(Some(s.yori)),
     Number(s.xinc), Number(s.yinc), Optional(Some(s.fillValue))]
  }

  function SurfaceEncoding(s: SentSurface): Encoding {
    Encode(SurfaceFields(s))
  }

  lemma SurfaceEncodingIff(s: SentSurface, t: SentSurface)
    ensures SurfaceEncoding(s) == SurfaceEncoding(t) <==> s == t
  {
    var x, y := SurfaceFields(s), SurfaceFields(t);
    EncodeSetIff(x, y);
    if x == y {
      assert x[0] == y[0] && x[1] == y[1] && x[2] == y[2] && x[3] == y[3] && x[4] == y[4] && x[5] == y[5] && x[6] == y[6];
    }
  }

  /** Along one surface, with distances above and below it, or between two surfaces. */
  datatype Extent = Along(surface: SentSurface, above: real, below: real) | Between(primary: SentSurface, secondary: SentSurface)

  datatype AttributeRequest = AttributeRequest(vds: seq<string>, sas: seq<string>, binaryOperator: string,
                                               interpolation: string, stepsize: real, attributes: seq<string>, extent: Extent)

  /** Which of the two types of request it is, is part of the encoding. */
  function ExtentFields(e: Extent): seq<Value> {
    match e
    case Along(surface, above, below) =>
      [Flag(true), Structs([SurfaceEncoding(surface)]), Structs([]), Number(above), Number(below)]
    case Between(primary, secondary) =>
      [Flag(false), Structs([SurfaceEncoding(primary)]), Structs([SurfaceEncoding(secondary)]), Number(0.0), Number(0.0)]
  }

  function AttributeFields(r: AttributeRequest): seq<Value> {
    CommonFields(r) + ExtentFields(r.extent)
  }

  function CommonFields(r: AttributeRequest): seq<Value> {
    [Texts(r.vds), Texts([]), Text(r.binaryOperator), Text(r.interpolation), Number(r.stepsize), Texts(r.attributes)]
  }

  function AttributeEncoding(r: AttributeRequest): Encoding {
    Encode(AttributeFields(r))
  }

  lemma ExtentFieldsIff(e: Extent, f: Extent)
    ensures ExtentFields(e) == ExtentFields(f) <==> e == f
  {
    var x, y := ExtentFields(e), ExtentFields(f);
    if x == y {
      assert x[0] == y[0] && x[1].structs[0] == y[1].structs[0] && x[3] == y[3] && x[4] == y[4];
      match e
      case Along(surface, _, _) => SurfaceEncodingIff(surface, f.surface);
      case Between(primary, secondary) =>
        assert x[2].structs[0] == y[2].structs[0];
        SurfaceEncodingIff(primary, f.primary);
        SurfaceEncodingIff(secondary, f.secondary);
    }
  }

  lemma CommonFieldsIff(r: AttributeRequest, q: AttributeRequest)
    requires r.extent == q.extent
    ensures CommonFields(r) == CommonFields(q) <==> r.(sas := []) == q.(sas := [])
  {
    var x, y := CommonFields(r), CommonFields(q);
    if x == y {
      assert x[0] == y[0] && x[2] == y[2] && x[3] == y[3] && x[4] == y[4] && x[5] == y[5];
    }
  }

  lemma KindsOfConcat(a: seq<Value>, b: seq<Value>, c: seq<Value>, d: seq<Value>)
    requires SameKinds(a, b) && SameKinds(c, d) && AllSet(a) && AllSet(b) && AllSet(c) && AllSet(d)
    ensures SameKinds(a + c, b + d) && AllSet(a + c) && AllSet(b + d)
    ensures a + c == b + d <==> a == b && c == d
  {
    if a + c == b + d {
      assert (a + c)[..|a|] == a && (b + d)[..|a|] == b && (a + c)[|a|..] == c && (b + d)[|a|..] == d;
    }
  }

  /** Step, distances and interpolation may be left out, which is the same as zero or empty; all else is told apart. */
  lemma AttributeEncodingIff(r: AttributeRequest, q: AttributeRequest)
    ensures AttributeEncoding(r) == AttributeEncoding(q) <==> r.(sas := []) == q.(sas := [])
  {
    KindsOfConcat(CommonFields(r), CommonFields(q), ExtentFields(r.extent), ExtentFields(q.extent));
    EncodeSetIff(AttributeFields(r), AttributeFields(q));
    ExtentFieldsIff(r.extent, q.extent);
    if r.extent == q.extent {
      CommonFieldsIff(r, q);
    }
  }

  /** Attribute requests can be cached. */
  lemma AttributeKeysDetermine<K(!new), E(!new)>(hash: Encoding -> K, execute: AttributeRequest -> Result<E>)
    requires Injective(hash)
    requires forall r: AttributeRequest, q: AttributeRequest :: r.(sas := []) == q.(sas := []) ==> execute(r) == execute(q)
    ensures KeyDetermines(KeyedBy(AttributeEncoding, hash, execute))
  {
    forall r, q | AttributeEncoding(r) == AttributeEncoding(q)
      ensures execute(r) == execute(q)
    {
      AttributeEncodingIff(r, q);
    }
    KeysDetermine(AttributeEncoding, hash, execute);
  }
}
