/** `fingerprint`: what the hasher is fed for a cacheable request, and when two requests share a key. */
module Fingerprint {
  import opened Common
  import opened Ordering
  import opened CanonicalJson

  const PIPE: Byte := 124

  /** The incremental hasher, observed by the bytes it has been fed. */
  class Hasher {
    var fed: Bytes

    constructor ()
      ensures fed == []
    {
      fed := [];
    }

    method Update(bytes: Bytes)
      modifies this
      ensures fed == old(fed) + bytes
    {
      fed := fed + bytes;
    }
  }

  method HashLen(n: nat, hasher: Hasher)
    modifies hasher
    ensures hasher.fed == old(hasher.fed) + Len(n)
  {
    hasher.Update(LeBytes(n, 8));
  }

  method HashCount(tag: Byte, n: nat, hasher: Hasher)
    modifies hasher
    ensures hasher.fed == old(hasher.fed) + ([tag] + Len(n))
  {
    hasher.Update([tag]);
    HashLen(n, hasher);
  }

  method HashText(tag: Byte, text: Bytes, hasher: Hasher)
    modifies hasher
    ensures hasher.fed == old(hasher.fed) + ([tag] + (Len(|text|) + text))
  {
    hasher.Update([tag]);
    HashLen(|text|, hasher);
    hasher.Update(text);
  }

  method HashJsonValue(v: Json, hasher: Hasher)
    modifies hasher
    ensures hasher.fed == old(hasher.fed) + Enc(v)
    decreases v
  {
    match v {
      case Null => hasher.Update([110]);
      case Bool(b) => hasher.Update(if b then [98, 49] else [98, 48]);
      case Number(text) => HashText(100, text, hasher);
      case Str(text) => HashText(115, text, hasher);
      case Array(items) =>
        HashCount(97, |items|, hasher);
        HashItems(items, hasher);
        Regroup(old(hasher.fed), [97], Len(|items|), EncItems(items));
      case Object(fields) =>
        var sorted := Sort(FieldLeq, fields);
        SortedParts(fields);
        HashCount(111, |sorted|, hasher);
        HashFields(v, sorted, hasher);
        Regroup(old(hasher.fed), [111], Len(|sorted|), EncFields(v, sorted));
    }
  }

  method HashItems(items: seq<Json>, hasher: Hasher)
    modifies hasher
    ensures hasher.fed == old(hasher.fed) + EncItems(items)
    decreases items
  {
    assert items[0..] == items;
    for i := 0 to |items|
      invariant hasher.fed + EncItems(items[i..]) == old(hasher.fed) + EncItems(items)
    {
      assert items[i..][1..] == items[i + 1..];
      HashJsonValue(items[i], hasher);
    }
  }

  method HashFields(ghost whole: Json, sorted: seq<Field>, hasher: Hasher)
    requires FieldParts(whole, sorted)
    modifies hasher
    ensures hasher.fed == old(hasher.fed) + EncFields(whole, sorted)
    decreases whole, 0
  {
    assert sorted[0..] == sorted;
    for i := 0 to |sorted|
      invariant hasher.fed + EncFields(whole, sorted[i..]) == old(hasher.fed) + EncFields(whole, sorted)
    {
      FieldsStep(hasher.fed, whole, sorted, i);
      HashField(whole, sorted[i], hasher);
    }
  }

  lemma FieldsStep(fed: Bytes, whole: Json, sorted: seq<Field>, i: nat)
    requires FieldParts(whole, sorted) && i < |sorted|
    ensures
      var f := sorted[i];
      fed + (Len(|f.key|) + f.key + Enc(f.value)) + EncFields(whole, sorted[i + 1..]) ==
          fed + EncFields(whole, sorted[i..])
  {
    var f, rest := sorted[i], EncFields(whole, sorted[i + 1..]);
    assert sorted[i..][0] == f && sorted[i..][1..] == sorted[i + 1..];
    Regroup(fed, Len(|f.key|) + f.key, Enc(f.value), rest);
  }

  method HashField(ghost whole: Json, f: Field, hasher: Hasher)
    requires f.value < whole
    modifies hasher
    ensures hasher.fed == old(hasher.fed) + (Len(|f.key|) + f.key + Enc(f.value))
    decreases whole, 0, 0
  {
    HashLen(|f.key|, hasher);
    hasher.Update(f.key);
    HashJsonValue(f.value, hasher);
  }

  /** `json` is the parsed body, absent when the body is not JSON. */
  datatype Inputs = Inputs(namespace: Bytes, endpoint: Bytes, scope: Option<Bytes>, body: Bytes, json: Option<Json>)

  ghost function Payload(inp: Inputs): Bytes {
    if inp.json.Some? then Enc(inp.json.value) else inp.body
  }

  ghost function Preimage(inp: Inputs): Bytes {
    inp.namespace + ([PIPE] + (inp.endpoint + ([PIPE] + (inp.scope.UnwrapOr([]) + ([PIPE] + Payload(inp))))))
  }

  /** A header string and the separator behind it. */
  method HashHeader(text: Bytes, hasher: Hasher)
    modifies hasher
    ensures hasher.fed == old(hasher.fed) + (text + [PIPE])
  {
    hasher.Update(text);
    hasher.Update([PIPE]);
  }

  lemma Headers(a: Bytes, b: Bytes, c: Bytes, d: Bytes)
    ensures [] + (a + [PIPE]) + (b + [PIPE]) + (c + [PIPE]) + d
         == a + ([PIPE] + (b + ([PIPE] + (c + ([PIPE] + d)))))
  {
    Regroup([] + (a + [PIPE]) + (b + [PIPE]), c, [PIPE], d);
    Regroup([] + (a + [PIPE]), b, [PIPE], c + ([PIPE] + d));
    Regroup([], a, [PIPE], b + ([PIPE] + (c + ([PIPE] + d))));
  }

  method HashInputs(inp: Inputs) returns (preimage: Bytes)
    ensures preimage == Preimage(inp)
  {
    var hasher := new Hasher();
    HashHeader(inp.namespace, hasher);
    HashHeader(inp.endpoint, hasher);
    HashHeader(if inp.scope.Some? then inp.scope.value else [], hasher);
    if inp.json.Some? {
      HashJsonValue(inp.json.value, hasher);
    } else {
      hasher.Update(inp.body);
    }
    preimage := hasher.fed;
    Headers(inp.namespace, inp.endpoint, inp.scope.UnwrapOr([]), Payload(inp));
  }

  // ---- When keys coincide ----

  lemma PipeSplits(a: Bytes, r: Bytes, b: Bytes, s: Bytes)
    requires PIPE !in a && PIPE !in b && a + ([PIPE] + r) == b + ([PIPE] + s)
    ensures a == b && r == s
  {
    var x, y := a + ([PIPE] + r), b + ([PIPE] + s);
    assert x[|a|] == PIPE && forall i :: 0 <= i < |a| ==> x[i] == a[i];
    assert y[|b|] == PIPE && forall i :: 0 <= i < |b| ==> y[i] == b[i];
    assert |a| == |b|;
    SplitEq(a, [PIPE] + r, b, [PIPE] + s);
    SplitEq([PIPE], r, [PIPE], s);
  }

  ghost predicate SameHeaders(x: Inputs, y: Inputs) {
    x.namespace == y.namespace && x.endpoint == y.endpoint && x.scope.UnwrapOr([]) == y.scope.UnwrapOr([])
  }

  /** No '|' in the endpoint or the scope; the namespace may hold any. */
  predicate PlainParts(inp: Inputs) {
    PIPE !in inp.endpoint && PIPE !in inp.scope.UnwrapOr([])
  }

  ghost predicate SameRequest(x: Inputs, y: Inputs)
    requires x.json.Some? && y.json.Some?
  {
    SameHeaders(x, y) && Meaning(x.json.value) == Meaning(y.json.value)
  }

  /** Within one namespace, which the cache key spells out as well, two JSON requests without '|' in endpoint
      or scope share a preimage exactly when endpoint and scope agree (an absent scope counts as the empty
      one) and the bodies are the same JSON value. */
  lemma SamePreimageExactly(x: Inputs, y: Inputs)
    requires PlainParts(x) && PlainParts(y) && x.json.Some? && y.json.Some?
    requires WellFormed(x.json.value) && WellFormed(y.json.value)
    ensures x.namespace == y.namespace && Preimage(x) == Preimage(y) <==> SameRequest(x, y)
  {
    if x.namespace == y.namespace && Preimage(x) == Preimage(y) {
      PartsDetermined(x, y);
      EncDetermines(x.json.value, [], y.json.value, []);
    }
    if Meaning(x.json.value) == Meaning(y.json.value) {
      MeaningDetermines(x.json.value, y.json.value);
    }
  }

  lemma PartsDetermined(x: Inputs, y: Inputs)
    requires PlainParts(x) && PlainParts(y) && x.namespace == y.namespace && Preimage(x) == Preimage(y)
    ensures SameHeaders(x, y) && Payload(x) == Payload(y)
  {
    var sx, sy := x.scope.UnwrapOr([]), y.scope.UnwrapOr([]);
    var px, py := sx + ([PIPE] + Payload(x)), sy + ([PIPE] + Payload(y));
    var ex, ey := x.endpoint + ([PIPE] + px), y.endpoint + ([PIPE] + py);
    SplitEq(x.namespace, [PIPE] + ex, y.namespace, [PIPE] + ey);
    SplitEq([PIPE], ex, [PIPE], ey);
    PipeSplits(x.endpoint, px, y.endpoint, py);
    PipeSplits(sx, Payload(x), sy, Payload(y));
  }

  // ---- Endpoints and keys ----

  const SLASH: Byte := 47
  const HEX_DIGITS: nat := 64

  function TrimSlashes(tail: Bytes): Bytes {
    if tail != [] && tail[0] == SLASH then TrimSlashes(tail[1..]) else tail
  }

  /** `/` and the rest of the URL without its leading slashes. */
  function UpstreamPath(tail: Bytes): Bytes {
    [SLASH] + TrimSlashes(tail)
  }

  predicate IsPath(endpoint: Bytes) {
    endpoint != [] && endpoint[0] == SLASH && (|endpoint| > 1 ==> endpoint[1] != SLASH)
  }

  lemma {:induction false} TrimmedTail(tail: Bytes)
    ensures TrimSlashes(tail) != [] ==> TrimSlashes(tail)[0] != SLASH
    ensures (tail != [] ==> tail[0] != SLASH) ==> TrimSlashes(tail) == tail
  {
    if tail != [] && tail[0] == SLASH {
      TrimmedTail(tail[1..]);
    }
  }

  /** The endpoints that occur are exactly the texts with one leading slash. */
  lemma PathsExactly(endpoint: Bytes)
    ensures IsPath(endpoint) <==> exists tail :: endpoint == UpstreamPath(tail)
  {
    if IsPath(endpoint) {
      TrimmedTail(endpoint[1..]);
      assert endpoint == UpstreamPath(endpoint[1..]);
    }
    forall tail | endpoint == UpstreamPath(tail) ensures IsPath(endpoint) {
      TrimmedTail(tail);
    }
  }

  /** A cache hash: always 64 hexadecimal digits. */
  ghost predicate IsHash(hash: Bytes -> Bytes) {
    forall b :: |hash(b)| == HEX_DIGITS
  }

  /** `resp:{namespace}:{fingerprint}`. */
  ghost function CacheKey(hash: Bytes -> Bytes, inp: Inputs): Bytes {
    [114, 101, 115, 112, 58] + (inp.namespace + ([58] + hash(Preimage(inp))))
  }

  /** A key spells out namespace and hash, even when the namespace holds ':'. */
  lemma KeySplits(hash: Bytes -> Bytes, x: Inputs, y: Inputs)
    requires IsHash(hash)
    ensures CacheKey(hash, x) == CacheKey(hash, y) <==>
              x.namespace == y.namespace && hash(Preimage(x)) == hash(Preimage(y))
  {
    if CacheKey(hash, x) == CacheKey(hash, y) {
      var hx, hy := hash(Preimage(x)), hash(Preimage(y));
      var tag: Bytes := [114, 101, 115, 112, 58];
      assert |hx| == HEX_DIGITS && |hy| == HEX_DIGITS;
      SplitEq(tag, x.namespace + ([58] + hx), tag, y.namespace + ([58] + hy));
      SplitEq(x.namespace, [58] + hx, y.namespace, [58] + hy);
      SplitEq([58], hx, [58], hy);
    }
  }

  /** Two keyed requests share a key exactly when they are the same request, unless the hash maps two
      different preimages to one value. */
  lemma SameKeyExactly(hash: Bytes -> Bytes, x: Inputs, y: Inputs)
    requires IsHash(hash) && (hash(Preimage(x)) == hash(Preimage(y)) ==> Preimage(x) == Preimage(y))
    requires PlainParts(x) && PlainParts(y) && x.json.Some? && y.json.Some?
    requires WellFormed(x.json.value) && WellFormed(y.json.value)
    ensures CacheKey(hash, x) == CacheKey(hash, y) <==> SameRequest(x, y)
  {
    KeySplits(hash, x, y);
    SamePreimageExactly(x, y);
  }

  /** What `HeaderValue::to_str` lets through: tab and printable ASCII. */
  predicate HeaderByte(b: Byte) {
    b == 9 || 32 <= b <= 126
  }

  predicate IsScope(scope: Option<Bytes>) {
    forall i :: 0 <= i < |scope.UnwrapOr([])| ==> HeaderByte(scope.UnwrapOr([])[i])
  }

  /** A request whose endpoint and scope can occur. */
  predicate Arrives(inp: Inputs) {
    IsPath(inp.endpoint) && IsScope(inp.scope)
  }

  /** A '|' with only header bytes behind it. */
  predicate PipeThenHeader(endpoint: Bytes, i: nat) {
    i < |endpoint| && endpoint[i] == PIPE && forall k :: i < k < |endpoint| ==> HeaderByte(endpoint[k])
  }

  /** The scope has a '|', or the endpoint has one that what follows could be taken for a scope. */
  ghost predicate Ambiguous(x: Inputs) {
    PIPE in x.scope.UnwrapOr([]) || exists i: nat :: PipeThenHeader(x.endpoint, i)
  }

  /** Another request that can occur, with the same namespace and body, and with the same key. */
  ghost predicate Partner(x: Inputs, y: Inputs) {
    && Arrives(y) && x.namespace == y.namespace && x.json == y.json && x.body == y.body
    && !SameHeaders(x, y) && Preimage(x) == Preimage(y)
  }

  lemma ScopePipePartner(x: Inputs, i: nat) returns (y: Inputs)
    requires Arrives(x) && i < |x.scope.UnwrapOr([])| && x.scope.UnwrapOr([])[i] == PIPE
    ensures Partner(x, y)
  {
    var scope := x.scope.UnwrapOr([]);
    var b, c := scope[..i], scope[i + 1..];
    assert scope == b + ([PIPE] + c);
    y := x.(endpoint := x.endpoint + ([PIPE] + b), scope := Some(c));
    Shift(x.endpoint, b, c, [PIPE] + Payload(x));
    assert |y.endpoint| > |x.endpoint|;
  }

  lemma EndpointPipePartner(x: Inputs, i: nat) returns (y: Inputs)
    requires Arrives(x) && PipeThenHeader(x.endpoint, i)
    ensures Partner(x, y)
  {
    var scope := x.scope.UnwrapOr([]);
    var b, c := x.endpoint[..i], x.endpoint[i + 1..];
    assert x.endpoint == b + ([PIPE] + c) && x.endpoint[0] == SLASH;
    y := x.(endpoint := b, scope := Some(c + ([PIPE] + scope)));
    Regroup(b, [PIPE], c, [PIPE] + (scope + ([PIPE] + Payload(x))));
    Regroup(c, [PIPE], scope, [PIPE] + Payload(x));
    assert |y.endpoint| < |x.endpoint|;
  }

  /** Endpoint and scope as they stand in the preimage. */
  ghost function Middle(inp: Inputs): Bytes {
    inp.endpoint + ([PIPE] + inp.scope.UnwrapOr([]))
  }

  lemma SameMiddle(x: Inputs, y: Inputs)
    requires x.namespace == y.namespace && Payload(x) == Payload(y) && Preimage(x) == Preimage(y)
    ensures Middle(x) == Middle(y)
  {
    var sx, sy, tail := x.scope.UnwrapOr([]), y.scope.UnwrapOr([]), [PIPE] + Payload(x);
    SplitEq(x.namespace, [PIPE] + (x.endpoint + ([PIPE] + (sx + tail))),
            y.namespace, [PIPE] + (y.endpoint + ([PIPE] + (sy + tail))));
    SplitEq([PIPE], x.endpoint + ([PIPE] + (sx + tail)), [PIPE], y.endpoint + ([PIPE] + (sy + tail)));
    Regroup(x.endpoint, [PIPE], sx, tail);
    Regroup(y.endpoint, [PIPE], sy, tail);
    assert Middle(x) + tail == x.endpoint + ([PIPE] + (sx + tail));
    assert Middle(y) + tail == y.endpoint + ([PIPE] + (sy + tail));
    assert |Middle(x)| == |Middle(y)|;
    SplitEq(Middle(x), tail, Middle(y), tail);
  }

  lemma PartnerIsAmbiguous(x: Inputs, y: Inputs)
    requires Partner(x, y)
    ensures Ambiguous(x)
  {
    SameMiddle(x, y);
    var sx, sy, n := x.scope.UnwrapOr([]), y.scope.UnwrapOr([]), |y.endpoint|;
    var m := Middle(x);
    assert m[n] == Middle(y)[n] == PIPE;
    if n == |x.endpoint| {
      SplitEq(x.endpoint, [PIPE] + sx, y.endpoint, [PIPE] + sy);
      SplitEq([PIPE], sx, [PIPE], sy);
    } else if n < |x.endpoint| {
      forall k | n < k < |x.endpoint| ensures HeaderByte(x.endpoint[k]) {
        assert x.endpoint[k] == m[k] == Middle(y)[k] == sy[k - n - 1];
      }
      assert PipeThenHeader(x.endpoint, n);
    } else {
      assert m[n] == sx[n - |x.endpoint| - 1];
    }
  }

  /** A request shares its key with another one of the same namespace and body if and only if its scope has a '|', or
      its endpoint has one with only header bytes behind it. */
  lemma PipeCollides(x: Inputs)
    requires Arrives(x)
    ensures (exists y :: Partner(x, y)) <==> Ambiguous(x)
  {
    if y :| Partner(x, y) {
      PartnerIsAmbiguous(x, y);
    }
    var scope := x.scope.UnwrapOr([]);
    if PIPE in scope {
      var i :| 0 <= i < |scope| && scope[i] == PIPE;
      var y := ScopePipePartner(x, i);
    } else if i: nat :| PipeThenHeader(x.endpoint, i) {
      var y := EndpointPipePartner(x, i);
    }
  }

  lemma Shift(p: Bytes, b: Bytes, c: Bytes, w: Bytes)
    ensures p + ([PIPE] + ((b + ([PIPE] + c)) + w)) == (p + ([PIPE] + b)) + ([PIPE] + (c + w))
  {
    Regroup(p, [PIPE], b, [PIPE] + (c + w));
    Regroup(b, [PIPE], c, w);
  }

  /** Why raw bodies must stay without a key: `fingerprint` feeds them unframed, so one would have the preimage of
      the JSON value whose stream it spells, and of no other. */
  lemma RawBodyCollides(x: Inputs, raw: Bytes)
    requires PlainParts(x) && x.json.Some?
    ensures Preimage(x) == Preimage(x.(json := None, body := raw)) <==> raw == Enc(x.json.value)
  {
    var y := x.(json := None, body := raw);
    if Preimage(x) == Preimage(y) {
      PartsDetermined(x, y);
    }
  }

  // ---- Field order ----

  lemma {:induction false} MeaningAt(whole: Json, fields: seq<Field>, x: Field)
    requires FieldParts(whole, fields) && DistinctKeys(fields) && x in fields
    ensures x.key in MeaningOfFields(whole, fields) && MeaningOfFields(whole, fields)[x.key] == Meaning(x.value)
  {
    if x != fields[0] {
      assert x in fields[1..];
      MeaningAt(whole, fields[1..], x);
    }
  }

  lemma Includes(v: Json, f: seq<Field>, w: Json, g: seq<Field>)
    requires FieldParts(v, f) && FieldParts(w, g) && DistinctKeys(f) && DistinctKeys(g)
    requires forall x :: x in f ==> x in g
    ensures forall k :: k in MeaningOfFields(v, f) ==>
              k in MeaningOfFields(w, g) && MeaningOfFields(v, f)[k] == MeaningOfFields(w, g)[k]
  {
    forall k | k in MeaningOfFields(v, f)
      ensures k in MeaningOfFields(w, g) && MeaningOfFields(v, f)[k] == MeaningOfFields(w, g)[k]
    {
      MeaningKeys(v, f, k);
      var x :| x in f && x.key == k;
      MeaningAt(v, f, x);
      MeaningAt(w, g, x);
    }
  }

  lemma SameFieldMap(v: Json, f: seq<Field>, w: Json, g: seq<Field>)
    requires FieldParts(v, f) && FieldParts(w, g) && DistinctKeys(f) && DistinctKeys(g) && multiset(f) == multiset(g)
    ensures MeaningOfFields(v, f) == MeaningOfFields(w, g)
  {
    forall x ensures x in f <==> x in g { assert x in multiset(f) <==> x in multiset(g); }
    Includes(v, f, w, g);
    Includes(w, g, v, f);
  }

  /** Any reordering of an object's fields gives the same stream. */
  lemma FieldOrderIrrelevant(f: seq<Field>, g: seq<Field>)
    requires WellFormed(Object(f)) && WellFormed(Object(g)) && multiset(f) == multiset(g)
    ensures Enc(Object(f)) == Enc(Object(g))
  {
    SortedParts(f);
    SortedParts(g);
    SameFieldMap(Object(f), f, Object(g), g);
    MeaningDetermines(Object(f), Object(g));
  }

  /** The bytes themselves: the header strings end in '|'. */
  lemma HeaderBytes(inp: Inputs)
    requires inp.scope.None?
    ensures
      var pipe := '|' as int;
      Preimage(inp) == inp.namespace + ([pipe] + (inp.endpoint + ([pipe] + ([] + ([pipe] + Payload(inp))))))
  {
  }

  /** Tags are letters, and a boolean's value follows its tag. */
  lemma TagBytes(b: bool, text: Bytes)
    ensures Enc(Null) == ['n' as int] && Enc(Bool(b)) == ['b' as int, if b then '1' as int else '0' as int]
    ensures Enc(Number(text))[0] == 'd' as int && Enc(Str(text))[0] == 's' as int
    ensures Enc(Array([]))[0] == 'a' as int && Enc(Object([]))[0] == 'o' as int
  {
  }

  /** Lengths take eight bytes, the lowest first. */
  lemma LengthBytes(n: nat)
    requires n < 256
    ensures Len(n)[0] == n && Len(256 * n)[0] == 0 && Len(256 * n)[1] == n
  {
    assert LeBytes(n, 8) == [n % 256] + LeBytes(n / 256, 7);
    assert LeBytes(256 * n, 8) == [0] + LeBytes(n, 7);
    assert LeBytes(n, 7) == [n % 256] + LeBytes(n / 256, 6);
  }
}
