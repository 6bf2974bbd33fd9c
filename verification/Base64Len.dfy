/** The size estimate shown for base64 payloads in logs, against the encodings of RFC 4648. */
module Base64Len {
  import opened Common
  import opened Ordering

  const USIZE_MAX: nat := 0xFFFF_FFFF_FFFF_FFFF
  const PAD: Byte := 61   // '='

  /** Space, tab, line feed, form feed, carriage return. */
  predicate IsWhitespace(b: Byte) {
    b == 32 || b == 9 || b == 10 || b == 12 || b == 13
  }

  function SaturatingAdd(a: nat, b: nat): nat {
    if a + b > USIZE_MAX then USIZE_MAX else a + b
  }

  function SaturatingMul(a: nat, b: nat): nat {
    if a * b > USIZE_MAX then USIZE_MAX else a * b
  }

  function SaturatingSub(a: nat, b: nat): nat {
    if a < b then 0 else a - b
  }

  /** The text without its whitespace. */
  function Strip(text: Bytes): Bytes {
    if text == [] then []
    else Strip(text[..|text| - 1]) + if IsWhitespace(text[|text| - 1]) then [] else [text[|text| - 1]]
  }

  function Pads(text: Bytes): nat {
    if text == [] then 0 else Pads(text[..|text| - 1]) + Unit(text[|text| - 1] == PAD)
  }

  /** Depends only on how many significant bytes there are and how many of them are padding. */
  method DecodedBase64Len(value: Bytes) returns (n: nat)
    ensures n == Estimate(|Strip(value)|, Pads(Strip(value)))
  {
    var significant, padding := 0, 0;
    for i := 0 to |value|
      invariant significant == Min(|Strip(value[..i])|, USIZE_MAX)
      invariant padding == Min(Pads(Strip(value[..i])), USIZE_MAX)
    {
      assert value[..i + 1][..i] == value[..i];
      var b := value[i];
      if IsWhitespace(b) {
        assert Strip(value[..i + 1]) == Strip(value[..i]);
        continue;
      }
      assert (Strip(value[..i]) + [b])[..|Strip(value[..i])|] == Strip(value[..i]);
      significant := SaturatingAdd(significant, 1);
      if b == PAD {
        padding := SaturatingAdd(padding, 1);
      }
    }
    assert value[..|value|] == value;
    n := SaturatingSub(SaturatingMul(significant, 6) / 8, Min(padding, 2));
  }

  function Estimate(significant: nat, padding: nat): nat {
    SaturatingSub(SaturatingMul(Min(significant, USIZE_MAX), 6) / 8, Min(Min(padding, USIZE_MAX), 2))
  }

  // ---- The encoding (sections 3.2 and 4 of RFC 4648) ----

  /** A-Z, a-z, 0-9, '+', '/'. */
  function Symbol(d: nat): (b: Byte)
    requires d < 64
    ensures b != PAD && !IsWhitespace(b)
  {
    if d < 26 then 65 + d
    else if d < 52 then 97 + (d - 26)
    else if d < 62 then 48 + (d - 52)
    else if d == 62 then 43
    else 47
  }

  function Padding(n: nat, padded: bool): (r: Bytes)
    ensures |r| == if padded then n else 0
    ensures forall i :: 0 <= i < |r| ==> r[i] == PAD
  {
    if padded then seq(n, _ => PAD) else []
  }

  function Encode(data: Bytes, padded: bool): Bytes {
    if data == [] then []
    else if |data| == 1 then
      [Symbol(data[0] / 4), Symbol(data[0] % 4 * 16)] + Padding(2, padded)
    else if |data| == 2 then
      [Symbol(data[0] / 4), Symbol(data[0] % 4 * 16 + data[1] / 16), Symbol(data[1] % 16 * 4)] + Padding(1, padded)
    else
      [Symbol(data[0] / 4), Symbol(data[0] % 4 * 16 + data[1] / 16)]
      + [Symbol(data[1] % 16 * 4 + data[2] / 64), Symbol(data[2] % 64)]
      + Encode(data[3..], padded)
  }

  /** Six bits for each encoded byte, less one byte for each padding byte. */
  ghost predicate Measures(significant: nat, padding: nat, n: nat) {
    significant * 6 / 8 == n + padding && padding <= 2
  }

  lemma {:induction false} PadsConcat(a: Bytes, b: Bytes)
    ensures Pads(a + b) == Pads(a) + Pads(b)
  {
    if b == [] {
      assert a + b == a;
    } else {
      assert (a + b)[..|a + b| - 1] == a + b[..|b| - 1];
      PadsConcat(a, b[..|b| - 1]);
    }
  }

  lemma {:induction false} PadsOf(text: Bytes)
    ensures (forall i :: 0 <= i < |text| ==> text[i] != PAD) ==> Pads(text) == 0
    ensures (forall i :: 0 <= i < |text| ==> text[i] == PAD) ==> Pads(text) == |text|
  {
    if text != [] {
      PadsOf(text[..|text| - 1]);
    }
  }

  lemma SplitPads(symbols: Bytes, rest: Bytes)
    requires forall i :: 0 <= i < |symbols| ==> symbols[i] != PAD
    ensures Pads(symbols + rest) == Pads(rest)
  {
    PadsConcat(symbols, rest);
    PadsOf(symbols);
  }

  lemma {:induction false} EncodingMeasures(data: Bytes, padded: bool)
    ensures Measures(|Encode(data, padded)|, Pads(Encode(data, padded)), |data|)
    decreases |data|
  {
    var e := Encode(data, padded);
    if |data| == 1 {
      SplitPads(e[..2], Padding(2, padded));
      PadsOf(Padding(2, padded));
      assert e == e[..2] + Padding(2, padded);
    } else if |data| == 2 {
      SplitPads(e[..3], Padding(1, padded));
      PadsOf(Padding(1, padded));
      assert e == e[..3] + Padding(1, padded);
    } else if |data| > 2 {
      EncodingMeasures(data[3..], padded);
      SplitPads(e[..4], Encode(data[3..], padded));
      assert e == e[..4] + Encode(data[3..], padded);
    }
  }

  /** For every byte string, either encoding of it and whitespace anywhere in between, the estimate is the exact
      number of bytes, unless six times the encoding's length exceeds the machine word: then it never is. */
  lemma EstimateIsExact(data: Bytes, padded: bool, text: Bytes)
    requires Strip(text) == Encode(data, padded)
    ensures Estimate(|Strip(text)|, Pads(Strip(text))) == |data| <==> |Strip(text)| * 6 <= USIZE_MAX
  {
    EncodingMeasures(data, padded);
    MeasureIsExact(|Strip(text)|, Pads(Strip(text)), |data|);
  }

  lemma MeasureIsExact(significant: nat, padding: nat, n: nat)
    requires Measures(significant, padding, n)
    ensures Estimate(significant, padding) == n <==> significant * 6 <= USIZE_MAX
  {
    var sixes := significant * 6;
    if sixes > USIZE_MAX {
      assert sixes / 8 > USIZE_MAX / 8;
      assert SaturatingMul(Min(significant, USIZE_MAX), 6) == USIZE_MAX;
    } else {
      assert SaturatingMul(Min(significant, USIZE_MAX), 6) == sixes;
    }
  }

  lemma {:induction false} StripLength(text: Bytes)
    ensures |Strip(text)| <= |text|
  {
    if text != [] {
      StripLength(text[..|text| - 1]);
    }
  }

  /** In particular for every text shorter than a sixth of the word range. */
  lemma ShortTextIsExact(data: Bytes, padded: bool, text: Bytes)
    requires Strip(text) == Encode(data, padded) && |text| <= USIZE_MAX / 6
    ensures Estimate(|Strip(text)|, Pads(Strip(text))) == |data|
  {
    StripLength(text);
    EstimateIsExact(data, padded, text);
  }

  /** Exactly space, tab, line feed, form feed and carriage return do not count. */
  lemma IgnoredBytes(b: Byte)
    ensures Strip([65, b, 66]) == [65, 66] <==> b in {9, 10, 12, 13, 32}
  {
    var text := [65, b, 66];
    assert text[..2] == [65, b] && [65, b][..1] == [65] && [65][..0] == [];
    assert Strip([]) == [];
    assert Strip([65]) == [65];
    assert Strip([65, b]) == [65] + if IsWhitespace(b) then [] else [b];
    assert Strip(text) == Strip([65, b]) + [66];
    assert IsWhitespace(b) ==> Strip(text) == [65, 66];
    assert !IsWhitespace(b) ==> |Strip(text)| == 3;
  }

  /** Nothing but padding is no bytes, and padding never adds any. */
  lemma PaddingOnly(significant: nat, padding: nat)
    ensures Estimate(1, 1) == 0 && Estimate(2, 2) == 0 && Estimate(0, 0) == 0
    ensures Estimate(significant, padding) <= Estimate(significant, 0)
  {
  }

  /** The encodings of "f", "fo" and "foo" given in section 10 of RFC 4648. */
  lemma Vectors()
    ensures Encode([102], true) == [90, 103, 61, 61] && Encode([102], false) == [90, 103]
    ensures Encode([102, 111], true) == [90, 109, 56, 61] && Encode([102, 111], false) == [90, 109, 56]
    ensures Encode([102, 111, 111], true) == [90, 109, 57, 118]
  {
    assert Padding(2, true) == [61, 61] && Padding(1, true) == [61];
    var foo: Bytes := [102, 111, 111];
    assert foo[3..] == [];
    assert Encode([], true) == [];
  }
}
