/** Python values as they arrive in Lambda events and table items, the
    exceptions the scoreboard raises or lets through, and the coercions
    `int(v)`, `float(v)` and `str(v)` that the handlers apply to event fields
    (Python 2 semantics, base 10). */
module PyValue {

  datatype Option<+T> = None | Some(value: T)

  /** A Python value of the kinds an event, a table item or a JSON document carries. */
  datatype Value =
    | VNone
    | VBool(b: bool)
    | VInt(i: int)
    | VFloat(x: real)
    | VStr(s: string)
    | VList(items: seq<Value>)
    | VDict(fields: map<string, Value>)

  /** The Python exceptions the modelled code raises or lets propagate. */
  datatype Exception =
    | KeyError
    | TypeError
    | ValueError
    | IndexError
    | AttributeError
    | RuntimeError
    | StorageError(code: string)

  /** A value, or the exception raised instead of returning one. */
  datatype Result<+T> = Ok(value: T) | Err(exc: Exception)

  /** Outcome of Python's `int(v)`. */
  datatype IntResult = IntOk(n: int) | IntRaises(exc: Exception)

  // ---------------------------------------------------------------------------
  // Whitespace and digits

  /** The characters `int()` and `float()` strip around a literal. */
  predicate IsSpace(c: char) {
    c == ' ' || c == '\t' || c == '\n' || c == '\r' || c == 11 as char || c == 12 as char
  }

  predicate IsDigit(c: char) {
    '0' <= c <= '9'
  }

  predicate AllDigits(s: string) {
    forall i :: 0 <= i < |s| ==> IsDigit(s[i])
  }

  function TrimLeft(s: string): (r: string)
    ensures |r| <= |s| && r == s[|s| - |r|..]
    ensures r == [] || !IsSpace(r[0])
    ensures forall i :: 0 <= i < |s| - |r| ==> IsSpace(s[i])
  {
    if s != [] && IsSpace(s[0]) then
      var r := TrimLeft(s[1..]);
      assert s[1..][|s| - 1 - |r|..] == s[|s| - |r|..];
      assert forall i :: 1 <= i < |s| ==> s[i] == s[1..][i - 1];
      r
    else s
  }

  function TrimRight(s: string): (r: string)
    ensures |r| <= |s| && r == s[..|r|]
    ensures r == [] || !IsSpace(r[|r| - 1])
    ensures forall i :: |r| <= i < |s| ==> IsSpace(s[i])
  {
    if s != [] && IsSpace(s[|s| - 1]) then
      var r := TrimRight(s[..|s| - 1]);
      assert s[..|s| - 1][..|r|] == s[..|r|];
      r
    else s
  }

  /** `s.strip()`: `s` without its leading and trailing whitespace. */
  function Strip(s: string): (r: string)
    ensures |r| <= |s|
    ensures r == [] || (!IsSpace(r[0]) && !IsSpace(r[|r| - 1]))
  {
    TrimRight(TrimLeft(s))
  }

  /** The number a non-empty run of decimal digits denotes. */
  function DigitsValue(s: string): nat
    requires AllDigits(s)
  {
    if s == [] then 0 else 10 * DigitsValue(s[..|s| - 1]) + (s[|s| - 1] as int - '0' as int)
  }

  function Pow10(n: nat): (r: nat)
    ensures r >= 1
  {
    if n == 0 then 1 else 10 * Pow10(n - 1)
  }

  /** Index of the first occurrence of `c` in `s`, or `|s|` when there is none. */
  function IndexOf(s: string, c: char): (k: nat)
    ensures k <= |s|
    ensures k < |s| ==> s[k] == c
    ensures forall i :: 0 <= i < k ==> s[i] != c
  {
    if s == [] then 0 else if s[0] == c then 0 else 1 + IndexOf(s[1..], c)
  }

  // ---------------------------------------------------------------------------
  // int()

  /** A base-10 integer with an optional sign and no space anywhere (the
      exponent of a float literal, and the printed form of an integer). */
  function ParseSignedDigits(t: string): Option<int> {
    if t != [] && (t[0] == '+' || t[0] == '-') then
      var ds := t[1..];
      if ds != [] && AllDigits(ds) then
        var v: int := DigitsValue(ds);
        Some(if t[0] == '-' then -v else v)
      else None
    else if t != [] && AllDigits(t) then Some(DigitsValue(t))
    else None
  }

  /** `int(s)` for a string `s`: whitespace around the literal and between
      its sign and its digits is skipped; `None` where Python raises `ValueError`. */
  function ParseIntLiteral(s: string): Option<int> {
    var t := Strip(s);
    if t != [] && (t[0] == '+' || t[0] == '-') then SpacedSigned(t[0] == '-', t[1..])
    else ParseSignedDigits(t)
  }

  /** The digits after a sign, with the whitespace before them skipped. */
  function SpacedSigned(negative: bool, rest: string): Option<int> {
    if rest != [] && IsSpace(rest[0]) then SpacedSigned(negative, rest[1..])
    else if rest != [] && AllDigits(rest) then
      var v: int := DigitsValue(rest);
      Some(if negative then -v else v)
    else None
  }

  /** A sign may be followed by whitespace: `int("- 12") == -12`. The
      digits start at `k`, and only whitespace lies between them and the sign. */
  lemma SpaceAfterSignAccepted(t: string, k: nat)
    requires 1 <= k < |t| && (t[0] == '+' || t[0] == '-')
    requires forall i :: 1 <= i < k ==> IsSpace(t[i])
    requires AllDigits(t[k..])
    ensures ParseIntLiteral(t) == Some(if t[0] == '-' then -(DigitsValue(t[k..]) as int) else DigitsValue(t[k..]))
  {
    assert SpacedSigned(t[0] == '-', t[1..]) == SpacedSigned(t[0] == '-', t[k..]) by {
      SkipSpaces(t[0] == '-', t[1..], k - 1);
      assert t[1..][k - 1..] == t[k..];
    }
    assert t[|t| - 1] == t[k..][|t| - 1 - k] && IsDigit(t[k..][|t| - 1 - k]);
    DigitsAfterSign(t[0] == '-', t[k..]);
    SignedLiteral(t);
  }

  /** Whitespace before position `j` is skipped. */
  lemma {:induction false} SkipSpaces(negative: bool, rest: string, j: nat)
    requires j <= |rest|
    requires forall i :: 0 <= i < j ==> IsSpace(rest[i])
    ensures SpacedSigned(negative, rest) == SpacedSigned(negative, rest[j..])
  {
    if j > 0 {
      assert rest[1..][j - 1..] == rest[j..];
      SkipSpaces(negative, rest[1..], j - 1);
    }
  }

  /** A signed literal with no surrounding space parses as its signed part. */
  lemma SignedLiteral(t: string)
    requires t != [] && (t[0] == '+' || t[0] == '-') && !IsSpace(t[|t| - 1])
    ensures ParseIntLiteral(t) == SpacedSigned(t[0] == '-', t[1..])
  {
    StripKeeps(t);
  }

  /** Digits right after a sign have no whitespace to skip. */
  lemma DigitsAfterSign(negative: bool, ds: string)
    requires ds != [] && AllDigits(ds)
    ensures SpacedSigned(negative, ds) == Some(if negative then -(DigitsValue(ds) as int) else DigitsValue(ds))
  {
    assert IsDigit(ds[0]);
  }

  /** Truncation toward zero, as `int(x)` does to a float. */
  function Truncate(x: real): (n: int)
    ensures 0.0 <= x ==> n as real <= x < n as real + 1.0
    ensures x < 0.0 ==> n as real - 1.0 < x <= n as real
  {
    if x >= 0.0 then x.Floor else -((-x).Floor)
  }

  /** Python's `int(v)`. */
  function IntOf(v: Value): (r: IntResult)
    ensures r.IntRaises? ==> r.exc == ValueError || r.exc == TypeError
    ensures r.IntRaises? && r.exc == ValueError <==> v.VStr? && ParseIntLiteral(v.s).None?
    ensures r.IntRaises? && r.exc == TypeError <==> v.VNone? || v.VList? || v.VDict?
    ensures v.VBool? ==> r == IntOk(if v.b then 1 else 0)
    ensures v.VInt? ==> r == IntOk(v.i)
    ensures v.VFloat? ==> r == IntOk(Truncate(v.x))
    ensures v.VStr? && ParseIntLiteral(v.s).Some? ==> r == IntOk(ParseIntLiteral(v.s).value)
  {
    match v
    case VNone => IntRaises(TypeError)
    case VBool(b) => IntOk(if b then 1 else 0)
    case VInt(i) => IntOk(i)
    case VFloat(x) => IntOk(Truncate(x))
    case VStr(s) =>
      (match ParseIntLiteral(s)
       case Some(n) => IntOk(n)
       case None => IntRaises(ValueError))
    case VList(_) => IntRaises(TypeError)
    case VDict(_) => IntRaises(TypeError)
  }

  // ---------------------------------------------------------------------------
  // str()

  function DigitChar(d: nat): char
    requires d < 10
  {
    ('0' as int + d) as char
  }

  /** Decimal digits of a natural number, most significant first. */
  function NatToStr(n: nat): (s: string)
    ensures s != [] && AllDigits(s)
  {
    if n < 10 then [DigitChar(n)] else NatToStr(n / 10) + [DigitChar(n % 10)]
  }

  /** Python's `str(n)` for an integer. */
  function IntToStr(n: int): string {
    if n < 0 then "-" + NatToStr(-n) else NatToStr(n)
  }

  /** Python's `str(v)` for the scalar kinds; `None` for floats, lists and
      dicts, whose printed forms this model does not compute. */
  function StrOf(v: Value): Option<string> {
    match v
    case VNone => Some("None")
    case VBool(b) => Some(if b then "True" else "False")
    case VInt(i) => Some(IntToStr(i))
    case VStr(s) => Some(s)
    case _ => None
  }

  lemma {:induction false} NatToStrValue(n: nat)
    ensures DigitsValue(NatToStr(n)) == n
  {
    if n >= 10 {
      var s := NatToStr(n / 10) + [DigitChar(n % 10)];
      assert s[..|s| - 1] == NatToStr(n / 10);
      NatToStrValue(n / 10);
    }
  }

  lemma StripKeeps(s: string)
    requires s != [] && !IsSpace(s[0]) && !IsSpace(s[|s| - 1])
    ensures Strip(s) == s
  {
    assert TrimLeft(s) == s;
    assert TrimRight(s) == s;
  }

  /** The printed form of an integer has no surrounding space and is a signed digit run. */
  lemma IntToStrShape(n: int)
    ensures Strip(IntToStr(n)) == IntToStr(n)
    ensures ParseSignedDigits(IntToStr(n)) == Some(n)
  {
    var s := IntToStr(n);
    var m: nat := if n < 0 then -n else n;
    var ds := NatToStr(m);
    NatToStrValue(m);
    assert IsDigit(ds[0]) && IsDigit(ds[|ds| - 1]);
    if n < 0 {
      assert s[0] == '-' && s[1..] == ds;
      assert s[|s| - 1] == ds[|ds| - 1];
      StripKeeps(s);
    } else {
      assert s == ds;
      StripKeeps(s);
    }
  }

  /** `int(str(n)) == n`: the decimal form of an integer parses back to it. */
  lemma IntToStrRoundTrip(n: int)
    ensures ParseIntLiteral(IntToStr(n)) == Some(n)
    ensures IntOf(VStr(IntToStr(n))) == IntOk(n)
  {
    var s := IntToStr(n);
    IntToStrShape(n);
    if n < 0 {
      var m: nat := -n;
      NatToStrValue(m);
      assert s[0] == '-' && s[1..] == NatToStr(m);
      SignedLiteral(s);
      DigitsAfterSign(true, NatToStr(m));
    }
  }

  /** Distinct integers print differently, so `str(int(...))` names a team uniquely. */
  lemma IntToStrInjective(m: int, n: int)
    requires IntToStr(m) == IntToStr(n)
    ensures m == n
  {
    IntToStrRoundTrip(m);
    IntToStrRoundTrip(n);
  }

  // ---------------------------------------------------------------------------
  // float()

  /** The number `whole.frac` denotes. */
  function DecimalValue(whole: string, frac: string): real
    requires AllDigits(whole) && AllDigits(frac)
  {
    DigitsValue(whole) as real + DigitsValue(frac) as real / Pow10(|frac|) as real
  }

  /** Digits with an optional decimal point, at least one digit in all. */
  function ParseMantissa(m: string): (r: Option<real>)
    ensures r.Some? ==> r.value >= 0.0
  {
    var d := IndexOf(m, '.');
    if d < |m| then
      var whole, frac := m[..d], m[d + 1..];
      if AllDigits(whole) && AllDigits(frac) && (whole != [] || frac != []) then
        Some(DecimalValue(whole, frac))
      else None
    else if m != [] && AllDigits(m) then Some(DigitsValue(m) as real)
    else None
  }

  /** A mantissa with an optional exponent `e<int>` / `E<int>`. */
  function ParseUnsignedFloat(t: string): (r: Option<real>)
    ensures r.Some? ==> r.value >= 0.0
  {
    var e := IndexOf(t, 'e');
    var e' := IndexOf(t, 'E');
    var k := if e < e' then e else e';
    if k < |t| then
      match (ParseMantissa(t[..k]), ParseSignedDigits(t[k + 1..]))
      case (Some(x), Some(p)) =>
        var scale := Pow10(if p >= 0 then p else -p) as real;
        NonNegativeScaled(x, scale);
        Some(if p >= 0 then x * scale else x / scale)
      case _ => None
    else ParseMantissa(t)
  }

  lemma NonNegativeScaled(x: real, scale: real)
    requires x >= 0.0 && scale >= 1.0
    ensures x * scale >= 0.0 && x / scale >= 0.0
  {
  }

  /** `float(s)` for a string `s`: `None` where Python raises `ValueError`
      (and for the spellings of infinity and NaN, which `real` cannot hold). */
  function ParseFloatLiteral(s: string): Option<real> {
    var t := Strip(s);
    if t != [] && (t[0] == '+' || t[0] == '-') then
      match ParseUnsignedFloat(t[1..])
      case Some(x) => Some(if t[0] == '-' then -x else x)
      case None => None
    else ParseUnsignedFloat(t)
  }

  /** Python's `float(v)` under a bare `except`: `None` whenever it raises. */
  function FloatOf(v: Value): Option<real> {
    match v
    case VBool(b) => Some(if b then 1.0 else 0.0)
    case VInt(i) => Some(i as real)
    case VFloat(x) => Some(x)
    case VStr(s) => ParseFloatLiteral(s)
    case _ => None
  }

  /** An optional event field read with `float(event[key])` inside `try/except: pass`. */
  function FloatField(event: map<string, Value>, key: string): (r: Option<real>)
    ensures key !in event ==> r.None?
    ensures key in event && event[key].VBool? ==> r == Some(if event[key].b then 1.0 else 0.0)
    ensures key in event && event[key].VInt? ==> r == Some(event[key].i as real)
    ensures key in event && event[key].VFloat? ==> r == Some(event[key].x)
    ensures key in event && event[key].VStr? ==> r == ParseFloatLiteral(event[key].s)
    ensures key in event && (event[key].VNone? || event[key].VList? || event[key].VDict?) ==> r.None?
  {
    if key in event then FloatOf(event[key]) else None
  }

  lemma DigitsParseAsFloat(ds: string)
    requires ds != [] && AllDigits(ds)
    ensures ParseUnsignedFloat(ds) == Some(DigitsValue(ds) as real)
  {
    NoLetterInDigits(ds, 'e');
    NoLetterInDigits(ds, 'E');
    NoLetterInDigits(ds, '.');
  }

  /** Lifetimes written as non-negative decimal integer strings, as in
      recorded events, parse to their value. */
  lemma IntStringParsesAsFloat(n: nat)
    ensures ParseFloatLiteral(IntToStr(n)) == Some(n as real)
  {
    var ds := NatToStr(n);
    NatToStrValue(n);
    DigitsParseAsFloatLiteral(ds);
    assert IntToStr(n) == ds;
  }

  /** A run of digits parses as a float to its value. */
  lemma DigitsParseAsFloatLiteral(ds: string)
    requires ds != [] && AllDigits(ds)
    ensures ParseFloatLiteral(ds) == Some(DigitsValue(ds) as real)
  {
    assert IsDigit(ds[0]) && IsDigit(ds[|ds| - 1]);
    StripKeeps(ds);
    DigitsParseAsFloat(ds);
  }

  /** A decimal `whole.frac`, both parts non-empty digit runs, parses as a
      float to the value the digits denote. */
  lemma DecimalParsesAsFloat(whole: string, frac: string)
    requires whole != [] && frac != [] && AllDigits(whole) && AllDigits(frac)
    ensures ParseFloatLiteral(whole + "." + frac) == Some(DecimalValue(whole, frac))
  {
    var s := whole + "." + frac;
    assert IsDigit(s[0]) && IsDigit(s[|s| - 1]);
    StripKeeps(s);
    assert !(s[0] == '+' || s[0] == '-');
    DecimalMantissa(whole, frac);
    Absent(s, 'e');
    Absent(s, 'E');
  }

  lemma DecimalMantissa(whole: string, frac: string)
    requires AllDigits(whole) && AllDigits(frac)
    requires whole != [] || frac != []
    ensures ParseMantissa(whole + "." + frac) == Some(DecimalValue(whole, frac))
  {
    var s := whole + "." + frac;
    IndexOfFirst(whole, '.', frac);
    var d := IndexOf(s, '.');
    assert d == |whole| < |s|;
    assert s[..d] == whole;
    assert s[d + 1..] == frac;
  }

  lemma {:induction false} Absent(s: string, c: char)
    requires forall i :: 0 <= i < |s| ==> s[i] != c
    ensures IndexOf(s, c) == |s|
  {
    if s != [] {
      Absent(s[1..], c);
    }
  }

  lemma {:induction false} IndexOfFirst(a: string, c: char, b: string)
    requires forall i :: 0 <= i < |a| ==> a[i] != c
    ensures IndexOf(a + [c] + b, c) == |a|
  {
    if a != [] {
      assert (a + [c] + b)[1..] == a[1..] + [c] + b;
      IndexOfFirst(a[1..], c, b);
    }
  }

  lemma NoLetterInDigits(ds: string, c: char)
    requires AllDigits(ds) && !IsDigit(c)
    ensures IndexOf(ds, c) == |ds|
  {
  }
}
