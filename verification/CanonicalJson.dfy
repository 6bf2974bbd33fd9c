/**
The bytes fed to the cache-key hash. `Enc` is the canonical stream of one JSON value: objects in
key order, every variable-length part behind an eight-byte length. `Meaning` reads the same value
as a JSON value, with objects as maps. The theorems say that the two agree exactly: equal streams
and equal meanings are the same thing, and no stream is a prefix of another.
 */
module CanonicalJson {
  import opened Ordering

  datatype Field = Field(key: Bytes, value: Json)

  /** A parsed request body. Fields are in the order the parser met them; `Number` keeps its printed text. */
  datatype Json =
    | Null
    | Bool(b: bool)
    | Number(text: Bytes)
    | Str(text: Bytes)
    | Array(items: seq<Json>)
    | Object(fields: seq<Field>)

  datatype Value =
    | VNull
    | VBool(b: bool)
    | VNumber(text: Bytes)
    | VStr(text: Bytes)
    | VArray(items: seq<Value>)
    | VObject(fields: map<Bytes, Value>)

  const U64_RANGE: nat := 0x1_0000_0000_0000_0000

  predicate FieldLeq(f: Field, g: Field) {
    LexLeq(f.key, g.key)
  }

  predicate DistinctKeys(fields: seq<Field>) {
    forall i, j :: 0 <= i < j < |fields| ==> fields[i].key != fields[j].key
  }

  /** Object keys are distinct and every length fits in 64 bits, as in any parsed value. */
  ghost predicate WellFormed(v: Json) {
    match v
    case Number(t) => |t| < U64_RANGE
    case Str(t) => |t| < U64_RANGE
    case Array(items) => |items| < U64_RANGE && forall x :: x in items ==> WellFormed(x)
    case Object(fields) =>
      && |fields| < U64_RANGE && DistinctKeys(fields)
      && forall f :: f in fields ==> |f.key| < U64_RANGE && WellFormed(f.value)
    case _ => true
  }

  /** All values are parts of `whole`; what recursion over sorted fields descends by. */
  ghost predicate FieldParts(whole: Json, fields: seq<Field>) {
    forall f :: f in fields ==> f.value < whole
  }

  lemma SortedParts(fields: seq<Field>)
    ensures FieldParts(Object(fields), fields)
    ensures FieldParts(Object(fields), Sort(FieldLeq, fields))
  {
    forall f | f in Sort(FieldLeq, fields) ensures f in fields { SortMembers(FieldLeq, fields, f); }
  }

  ghost function Meaning(v: Json): Value
    decreases v
  {
    match v
    case Null => VNull
    case Bool(b) => VBool(b)
    case Number(t) => VNumber(t)
    case Str(t) => VStr(t)
    case Array(items) => VArray(MeaningOfItems(items))
    case Object(fields) => VObject(MeaningOfFields(v, fields))
  }

  ghost function MeaningOfItems(items: seq<Json>): (r: seq<Value>)
    ensures |r| == |items|
    decreases items
  {
    if items == [] then [] else [Meaning(items[0])] + MeaningOfItems(items[1..])
  }

  ghost function MeaningOfFields(whole: Json, fields: seq<Field>): map<Bytes, Value>
    requires FieldParts(whole, fields)
    decreases whole, |fields|
  {
    if fields == [] then map[]
    else MeaningOfFields(whole, fields[1..])[fields[0].key := Meaning(fields[0].value)]
  }

  // ---- The stream ----

  /** The low `k` bytes of `n`, least significant first. */
  function LeBytes(n: nat, k: nat): (r: Bytes)
    ensures |r| == k
  {
    if k == 0 then [] else [n % 256] + LeBytes(n / 256, k - 1)
  }

  /** `(len as u64).to_le_bytes()`. */
  function Len(n: nat): (r: Bytes)
    ensures |r| == 8
  {
    LeBytes(n, 8)
  }

  ghost function Enc(v: Json): Bytes
    decreases v
  {
    match v
    case Null => [110]
    case Bool(b) => [98, if b then 49 else 48]
    case Number(t) => [100] + (Len(|t|) + t)
    case Str(t) => [115] + (Len(|t|) + t)
    case Array(items) => [97] + (Len(|items|) + EncItems(items))
    case Object(fields) =>
      SortedParts(fields);
      [111] + (Len(|fields|) + EncFields(v, Sort(FieldLeq, fields)))
  }

  ghost function EncItems(items: seq<Json>): Bytes
    decreases items
  {
    if items == [] then [] else Enc(items[0]) + EncItems(items[1..])
  }

  ghost function EncFields(whole: Json, fields: seq<Field>): Bytes
    requires FieldParts(whole, fields)
    decreases whole, |fields|
  {
    if fields == [] then []
    else Len(|fields[0].key|) + fields[0].key + (Enc(fields[0].value) + EncFields(whole, fields[1..]))
  }

  // ---- Splitting a stream ----

  lemma SplitEq<T>(a: seq<T>, r: seq<T>, b: seq<T>, s: seq<T>)
    requires |a| == |b| && a + r == b + s
    ensures a == b && r == s
  {
    assert a == (a + r)[..|a|] && b == (b + s)[..|a|];
    assert r == (a + r)[|a|..] && s == (b + s)[|a|..];
  }

  /** `(a + b) + r` and `(c + d) + s` with the heads `a`, `c` of one length. */
  lemma SplitHead<T>(a: seq<T>, b: seq<T>, r: seq<T>, c: seq<T>, d: seq<T>, s: seq<T>)
    requires |a| == |c| && a + b + r == c + d + s
    ensures a == c && b + r == d + s
  {
    assert a + (b + r) == a + b + r && c + (d + s) == c + d + s;
    SplitEq(a, b + r, c, d + s);
  }

  lemma Regroup<T>(a: seq<T>, b: seq<T>, c: seq<T>, d: seq<T>)
    ensures a + (b + c) + d == a + (b + (c + d))
    ensures b + c + d == b + (c + d)
  {
  }

  function Pow256(k: nat): nat {
    if k == 0 then 1 else 256 * Pow256(k - 1)
  }

  lemma {:induction false} LeInjective(n: nat, m: nat, k: nat)
    requires LeBytes(n, k) == LeBytes(m, k) && n < Pow256(k) && m < Pow256(k)
    ensures n == m
  {
    if k > 0 {
      SplitEq([n % 256], LeBytes(n / 256, k - 1), [m % 256], LeBytes(m / 256, k - 1));
      LeInjective(n / 256, m / 256, k - 1);
    }
  }

  /** A length in front of a stream can be read in only one way. */
  lemma LenSplits(n: nat, x: Bytes, r: Bytes, m: nat, y: Bytes, s: Bytes)
    requires n < U64_RANGE && m < U64_RANGE && Len(n) + x + r == Len(m) + y + s
    ensures n == m && x + r == y + s
  {
    SplitHead(Len(n), x, r, Len(m), y, s);
    assert Pow256(8) == U64_RANGE;
    LeInjective(n, m, 8);
  }

  /** Likewise a length-prefixed text. */
  lemma TextSplits(t: Bytes, r: Bytes, u: Bytes, s: Bytes)
    requires |t| < U64_RANGE && |u| < U64_RANGE && Len(|t|) + t + r == Len(|u|) + u + s
    ensures t == u && r == s
  {
    LenSplits(|t|, t, r, |u|, u, s);
    SplitEq(t, r, u, s);
  }

  // ---- Sorting does not change the meaning ----

  lemma {:induction false} InsertMeaning(whole: Json, x: Field, s: seq<Field>)
    requires FieldParts(whole, s) && FieldParts(whole, Insert(FieldLeq, x, s)) && x.value < whole
    requires forall f :: f in s ==> f.key != x.key
    ensures MeaningOfFields(whole, Insert(FieldLeq, x, s)) == MeaningOfFields(whole, s)[x.key := Meaning(x.value)]
  {
    var t := Insert(FieldLeq, x, s);
    if s == [] || FieldLeq(x, s[0]) {
      assert t[0] == x && t[1..] == s;
    } else {
      var rest := Insert(FieldLeq, x, s[1..]);
      assert t[0] == s[0] && t[1..] == rest;
      assert FieldParts(whole, rest);
      InsertMeaning(whole, x, s[1..]);
      assert s[0] in s;
      SwapUpdates(MeaningOfFields(whole, s[1..]), x.key, Meaning(x.value), s[0].key, Meaning(s[0].value));
    }
  }

  lemma SwapUpdates<K, V>(m: map<K, V>, k: K, v: V, l: K, w: V)
    requires k != l
    ensures m[k := v][l := w] == m[l := w][k := v]
  {
  }

  lemma {:induction false} SortMeaning(whole: Json, s: seq<Field>)
    requires FieldParts(whole, s) && FieldParts(whole, Sort(FieldLeq, s)) && DistinctKeys(s)
    ensures MeaningOfFields(whole, Sort(FieldLeq, s)) == MeaningOfFields(whole, s)
  {
    if s != [] {
      forall f | f in Sort(FieldLeq, s[1..]) ensures f in s[1..] { SortMembers(FieldLeq, s[1..], f); }
      SortMeaning(whole, s[1..]);
      InsertMeaning(whole, s[0], Sort(FieldLeq, s[1..]));
    }
  }

  lemma SortedFacts(fields: seq<Field>)
    requires WellFormed(Object(fields))
    ensures
      var sorted := Sort(FieldLeq, fields);
      && Sorted(FieldLeq, sorted) && DistinctKeys(sorted)
      && forall f :: f in sorted ==> |f.key| < U64_RANGE && WellFormed(f.value)
  {
    FieldOrder();
    SortSorts(FieldLeq, fields);
    forall f | f in Sort(FieldLeq, fields) ensures f in fields { SortMembers(FieldLeq, fields, f); }
    SortKeepsKeysDistinct(fields);
  }

  lemma FieldOrder()
    ensures TotalPreorder(FieldLeq)
  {
    forall f, g ensures FieldLeq(f, g) || FieldLeq(g, f) { LexTotal(f.key, g.key); }
    forall f, g, h | FieldLeq(f, g) && FieldLeq(g, h) ensures FieldLeq(f, h) { LexTransitive(f.key, g.key, h.key); }
  }

  lemma {:induction false} SortKeepsKeysDistinct(s: seq<Field>)
    requires DistinctKeys(s)
    ensures DistinctKeys(Sort(FieldLeq, s))
  {
    if s != [] {
      SortKeepsKeysDistinct(s[1..]);
      forall f | f in Sort(FieldLeq, s[1..]) ensures f.key != s[0].key { SortMembers(FieldLeq, s[1..], f); }
      InsertKeepsKeysDistinct(s[0], Sort(FieldLeq, s[1..]));
    }
  }

  lemma {:induction false} InsertKeepsKeysDistinct(x: Field, s: seq<Field>)
    requires DistinctKeys(s) && forall f :: f in s ==> f.key != x.key
    ensures DistinctKeys(Insert(FieldLeq, x, s))
  {
    if s != [] && !FieldLeq(x, s[0]) {
      InsertKeepsKeysDistinct(x, s[1..]);
      var t := Insert(FieldLeq, x, s[1..]);
      forall f | f in t ensures f.key != s[0].key {
        assert f in multiset(t);
        assert f == x || f in s[1..];
      }
    }
  }

  // ---- Equal streams, equal values ----

  /** Prefix-freeness and injectivity: the front of a stream determines the value encoded there. */
  lemma {:induction false} EncDetermines(v: Json, r: Bytes, w: Json, s: Bytes)
    requires WellFormed(v) && WellFormed(w) && Enc(v) + r == Enc(w) + s
    ensures Meaning(v) == Meaning(w) && r == s
    decreases v
  {
    assert Enc(v)[0] == (Enc(v) + r)[0] == (Enc(w) + s)[0] == Enc(w)[0];
    match v {
      case Null => SplitEq(Enc(v), r, Enc(w), s);
      case Bool(_) => SplitEq(Enc(v), r, Enc(w), s);
      case Number(t) =>
        SplitHead([100], Len(|t|) + t, r, [100], Len(|w.text|) + w.text, s);
        TextSplits(t, r, w.text, s);
      case Str(t) =>
        SplitHead([115], Len(|t|) + t, r, [115], Len(|w.text|) + w.text, s);
        TextSplits(t, r, w.text, s);
      case Array(items) =>
        SplitHead([97], Len(|items|) + EncItems(items), r, [97], Len(|w.items|) + EncItems(w.items), s);
        LenSplits(|items|, EncItems(items), r, |w.items|, EncItems(w.items), s);
        ItemsDetermine(items, r, w.items, s);
      case Object(_) => ObjectDetermines(v, r, w, s);
    }
  }

  lemma {:induction false} ObjectDetermines(v: Json, r: Bytes, w: Json, s: Bytes)
    requires v.Object? && w.Object? && WellFormed(v) && WellFormed(w) && Enc(v) + r == Enc(w) + s
    ensures Meaning(v) == Meaning(w) && r == s
    decreases v, |v.fields| + 1
  {
    SortedParts(v.fields); SortedParts(w.fields);
    SortedFacts(v.fields); SortedFacts(w.fields);
    var f, g := Sort(FieldLeq, v.fields), Sort(FieldLeq, w.fields);
    SplitHead([111], Len(|f|) + EncFields(v, f), r, [111], Len(|g|) + EncFields(w, g), s);
    LenSplits(|f|, EncFields(v, f), r, |g|, EncFields(w, g), s);
    FieldsDetermine(v, f, r, w, g, s);
    SortMeaning(v, v.fields); SortMeaning(w, w.fields);
  }

  lemma {:induction false} ItemsDetermine(a: seq<Json>, r: Bytes, b: seq<Json>, s: Bytes)
    requires |a| == |b|
    requires (forall x :: x in a ==> WellFormed(x)) && (forall x :: x in b ==> WellFormed(x))
    requires EncItems(a) + r == EncItems(b) + s
    ensures r == s && MeaningOfItems(a) == MeaningOfItems(b)
    decreases a
  {
    if a != [] {
      var ra, rb := EncItems(a[1..]) + r, EncItems(b[1..]) + s;
      assert a[0] in a && b[0] in b;
      Regroup([], Enc(a[0]), EncItems(a[1..]), r);
      Regroup([], Enc(b[0]), EncItems(b[1..]), s);
      EncDetermines(a[0], ra, b[0], rb);
      ItemsDetermine(a[1..], r, b[1..], s);
    } else {
      SplitEq([], r, [], s);
    }
  }

  ghost predicate FieldsOk(fields: seq<Field>) {
    forall f :: f in fields ==> |f.key| < U64_RANGE && WellFormed(f.value)
  }

  lemma {:induction false} FieldsDetermine(v: Json, f: seq<Field>, r: Bytes, w: Json, g: seq<Field>, s: Bytes)
    requires |f| == |g| && FieldParts(v, f) && FieldParts(w, g) && FieldsOk(f) && FieldsOk(g)
    requires EncFields(v, f) + r == EncFields(w, g) + s
    ensures r == s && MeaningOfFields(v, f) == MeaningOfFields(w, g)
    decreases v, |f|
  {
    if f != [] {
      var kf, kg := f[0].key, g[0].key;
      var ef, eg := Enc(f[0].value), Enc(g[0].value);
      var rf, rg := EncFields(v, f[1..]) + r, EncFields(w, g[1..]) + s;
      assert f[0] in f && g[0] in g;
      Regroup(Len(|kf|) + kf, ef, EncFields(v, f[1..]), r);
      Regroup(Len(|kg|) + kg, eg, EncFields(w, g[1..]), s);
      TextSplits(kf, ef + rf, kg, eg + rg);
      EncDetermines(f[0].value, rf, g[0].value, rg);
      FieldsDetermine(v, f[1..], r, w, g[1..], s);
    } else {
      SplitEq([], r, [], s);
    }
  }

  // ---- Equal values, equal streams ----

  lemma {:induction false} MeaningDetermines(v: Json, w: Json)
    requires WellFormed(v) && WellFormed(w) && Meaning(v) == Meaning(w)
    ensures Enc(v) == Enc(w)
    decreases v
  {
    match v {
      case Array(items) => SameItems(items, w.items);
      case Object(fields) =>
        SortedParts(fields); SortedParts(w.fields);
        SortedFacts(fields); SortedFacts(w.fields);
        SortMeaning(v, fields); SortMeaning(w, w.fields);
        SameFields(v, Sort(FieldLeq, fields), w, Sort(FieldLeq, w.fields));
      case _ =>
    }
  }

  lemma {:induction false} SameItems(a: seq<Json>, b: seq<Json>)
    requires |a| == |b|
    requires (forall x :: x in a ==> WellFormed(x)) && (forall x :: x in b ==> WellFormed(x))
    requires MeaningOfItems(a) == MeaningOfItems(b)
    ensures EncItems(a) == EncItems(b)
    decreases a
  {
    if a != [] {
      SplitEq([Meaning(a[0])], MeaningOfItems(a[1..]), [Meaning(b[0])], MeaningOfItems(b[1..]));
      MeaningDetermines(a[0], b[0]);
      SameItems(a[1..], b[1..]);
    }
  }

  lemma {:induction false} MeaningKeys(whole: Json, fields: seq<Field>, k: Bytes)
    requires FieldParts(whole, fields)
    ensures k in MeaningOfFields(whole, fields) <==> exists f :: f in fields && f.key == k
  {
    if fields != [] {
      MeaningKeys(whole, fields[1..], k);
      if exists f :: f in fields && f.key == k {
        var f :| f in fields && f.key == k;
        assert f == fields[0] || f in fields[1..];
      }
    }
  }

  /** Sorted lists with distinct keys and the same meaning start with the same key. */
  lemma SameFirstKey(v: Json, f: seq<Field>, w: Json, g: seq<Field>)
    requires f != [] && g != [] && FieldParts(v, f) && FieldParts(w, g)
    requires Sorted(FieldLeq, f) && Sorted(FieldLeq, g)
    requires MeaningOfFields(v, f) == MeaningOfFields(w, g)
    ensures f[0].key == g[0].key
  {
    MeaningKeys(v, f, f[0].key); MeaningKeys(w, g, f[0].key);
    MeaningKeys(v, f, g[0].key); MeaningKeys(w, g, g[0].key);
    assert f[0] in f && g[0] in g;
    var x :| x in g && x.key == f[0].key;
    var y :| y in f && y.key == g[0].key;
    LexTotal(f[0].key, g[0].key);
  }

  lemma RestMeaning(whole: Json, f: seq<Field>)
    requires f != [] && FieldParts(whole, f) && DistinctKeys(f)
    ensures MeaningOfFields(whole, f[1..]) == MeaningOfFields(whole, f) - {f[0].key}
  {
    MeaningKeys(whole, f[1..], f[0].key);
  }

  lemma {:induction false} SameFields(v: Json, f: seq<Field>, w: Json, g: seq<Field>)
    requires FieldParts(v, f) && FieldParts(w, g) && FieldsOk(f) && FieldsOk(g)
    requires Sorted(FieldLeq, f) && Sorted(FieldLeq, g) && DistinctKeys(f) && DistinctKeys(g)
    requires MeaningOfFields(v, f) == MeaningOfFields(w, g)
    ensures |f| == |g| && EncFields(v, f) == EncFields(w, g)
    decreases v, |f|
  {
    assert f != [] ==> f[0].key in MeaningOfFields(v, f);
    assert g != [] ==> g[0].key in MeaningOfFields(w, g);
    if f != [] && g != [] {
      SameFirstField(v, f, w, g);
      TailFacts(v, f);
      TailFacts(w, g);
      MeaningDetermines(f[0].value, g[0].value);
      SameFields(v, f[1..], w, g[1..]);
    }
  }

  lemma TailFacts(whole: Json, f: seq<Field>)
    requires f != [] && FieldParts(whole, f) && FieldsOk(f) && Sorted(FieldLeq, f) && DistinctKeys(f)
    ensures f[0] in f && FieldParts(whole, f[1..]) && FieldsOk(f[1..]) && Sorted(FieldLeq, f[1..])
              && DistinctKeys(f[1..])
  {
  }

  lemma SameFirstField(v: Json, f: seq<Field>, w: Json, g: seq<Field>)
    requires f != [] && g != [] && FieldParts(v, f) && FieldParts(w, g)
    requires Sorted(FieldLeq, f) && Sorted(FieldLeq, g) && DistinctKeys(f) && DistinctKeys(g)
    requires MeaningOfFields(v, f) == MeaningOfFields(w, g)
    ensures f[0].key == g[0].key && Meaning(f[0].value) == Meaning(g[0].value)
    ensures MeaningOfFields(v, f[1..]) == MeaningOfFields(w, g[1..])
  {
    SameFirstKey(v, f, w, g);
    RestMeaning(v, f);
    RestMeaning(w, g);
    assert MeaningOfFields(v, f)[f[0].key] == Meaning(f[0].value);
    assert MeaningOfFields(w, g)[g[0].key] == Meaning(g[0].value);
  }

  /** The stream is canonical: two values have the same stream exactly when they are the same JSON value. */
  lemma EncIsCanonical(v: Json, w: Json)
    requires WellFormed(v) && WellFormed(w)
    ensures Enc(v) == Enc(w) <==> Meaning(v) == Meaning(w)
  {
    if Enc(v) == Enc(w) {
      EncDetermines(v, [], w, []);
    }
    if Meaning(v) == Meaning(w) {
      MeaningDetermines(v, w);
    }
  }
}
