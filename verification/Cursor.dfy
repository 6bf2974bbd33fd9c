/** Page cursors: `<ts>:<id>`, with the timestamp in decimal. */
module Cursor {
  import opened Common

  function Digit(d: nat): (c: char)
    requires d < 10
    ensures IsDigit(c) && c as int - '0' as int == d
  {
    "0123456789"[d]
  }

  /** Decimal digits, most significant first. */
  function Decimal(n: nat): (s: string)
    ensures s != [] && AllDigits(s)
  {
    if n < 10 then [Digit(n)] else Decimal(n / 10) + [Digit(n % 10)]
  }

  function Format(n: int): string {
    if n < 0 then ['-'] + Decimal(-n) else Decimal(n)
  }

  function ValueOf(s: string): nat
    requires AllDigits(s)
  {
    if s == [] then 0 else ValueOf(s[..|s| - 1]) * 10 + (s[|s| - 1] as int - '0' as int)
  }

  /** `str::parse::<i64>`: an optional sign, at least one digit, nothing else, within range. */
  function ParseI64(s: string): (r: Option<I64>)
  {
    var signed := s != [] && (s[0] == '-' || s[0] == '+');
    var digits := if signed then s[1..] else s;
    if digits == [] || !AllDigits(digits) then None
    else
      var value: int := ValueOf(digits);
      var n := if signed && s[0] == '-' then -value else value;
      if I64_MIN <= n <= I64_MAX then Some(n) else None
  }

  /** `split_once`: split at the first `c`. */
  function SplitFirst(s: string, c: char): (r: Option<(string, string)>)
    ensures r.None? <==> c !in s
    ensures r.Some? ==> s == r.value.0 + [c] + r.value.1 && c !in r.value.0
  {
    if s == [] then None
    else if s[0] == c then Some(([], s[1..]))
    else
      match SplitFirst(s[1..], c)
      case None => None
      case Some((prefix, suffix)) => Some(([s[0]] + prefix, suffix))
  }

  function EncodeCursor(ts: I64, id: string): string {
    Format(ts) + [':'] + id
  }

  function ParseCursor(c: string): Option<(I64, string)> {
    match SplitFirst(c, ':')
    case None => None
    case Some((ts, id)) =>
      match ParseI64(ts)
      case None => None
      case Some(n) => Some((n, id))
  }

  lemma {:induction false} DecimalRoundTrip(n: nat)
    ensures ValueOf(Decimal(n)) == n
  {
    if n >= 10 {
      DecimalRoundTrip(n / 10);
      assert Decimal(n)[..|Decimal(n)| - 1] == Decimal(n / 10);
    } else {
      assert Decimal(n)[..0] == [];
    }
  }

  lemma ParseDigits(digits: string, negative: bool)
    requires digits != [] && AllDigits(digits)
    ensures
      var s := if negative then ['-'] + digits else digits;
      var m: int := ValueOf(digits);
      var n := if negative then -m else m;
      ':' !in s && (I64_MIN <= n <= I64_MAX ==> ParseI64(s) == Some(n))
  {
    if negative {
      assert (['-'] + digits)[1..] == digits;
    } else {
      assert IsDigit(digits[0]);
    }
  }

  lemma FormatRoundTrip(n: I64)
    ensures ParseI64(Format(n)) == Some(n) && ':' !in Format(n)
  {
    var m: int := n;
    var magnitude := if m < 0 then -m else m;
    DecimalRoundTrip(magnitude);
    ParseDigits(Decimal(magnitude), m < 0);
  }

  lemma {:induction false} SplitAtFirst(prefix: string, c: char, suffix: string)
    requires c !in prefix
    ensures SplitFirst(prefix + [c] + suffix, c) == Some((prefix, suffix))
  {
    var s := prefix + [c] + suffix;
    if prefix != [] {
      SplitAtFirst(prefix[1..], c, suffix);
      assert s[1..] == prefix[1..] + [c] + suffix;
      assert prefix == [prefix[0]] + prefix[1..];
    } else {
      assert s[1..] == suffix;
    }
  }

  /** Every row's cursor reads back as that row's place, whatever its id contains. */
  lemma CursorRoundTrip(ts: I64, id: string)
    ensures ParseCursor(EncodeCursor(ts, id)) == Some((ts, id))
  {
    FormatRoundTrip(ts);
    SplitAtFirst(Format(ts), ':', id);
  }

  /** Only negative numbers are written with a sign; both signs are read, and a sign alone is not a number. */
  lemma {:induction false} Signs(n: int, digits: string)
    requires digits != [] && AllDigits(digits)
    ensures n >= 0 ==> Format(n)[0] != '-'
    ensures n < 0 ==> Format(n)[0] == '-'
    ensures ParseI64(['+'] + digits) == ParseI64(digits)
    ensures ValueOf(digits) <= I64_MAX ==> ParseI64(digits) == Some(ValueOf(digits))
    ensures ValueOf(digits) > I64_MAX ==> ParseI64(digits) == None
    ensures ParseI64([]) == None && ParseI64(['-']) == None && ParseI64(['+']) == None
  {
    assert (['+'] + digits)[1..] == digits;
    assert IsDigit(digits[0]);
    assert ['-'][1..] == [] && ['+'][1..] == [];
    assert n >= 0 ==> IsDigit(Format(n)[0]);
  }
}
