/** PHP values as they can appear in a model's property bag, and the three
    conversions the entity accessors apply to them: `is_numeric`, `intval`
    and `boolval` (PHP 8 on a 64-bit build). */
module PhpValues {

  const PhpIntMin: int := -0x8000_0000_0000_0000
  const PhpIntMax: int := 0x7FFF_FFFF_FFFF_FFFF
  const TwoTo64: int := 0x1_0000_0000_0000_0000

  /** A PHP `int`: a signed 64-bit integer. */
  type Int64 = i: int | PhpIntMin <= i <= PhpIntMax

  type Pos = n: int | n > 0 witness 1

  /** Keys of a PHP array. */
  datatype ArrayKey = IntKey(i: Int64) | StringKey(s: string)

  /** A case of a PHP enumeration (every enum case is a `UnitEnum`). */
  datatype UnitEnum = UnitEnum(enumClass: string, caseName: string)

  /** An object implementing `ModelInterface`; `attributes` is what its
      `toArray()` returns. */
  datatype Model = Model(modelClass: string, attributes: map<string, Value>)

  /** A PHP value. A `float` is a finite number `num / den`; every object that is
      neither an enum case nor a model is `VObject`. */
  datatype Value =
    | VNull
    | VBool(b: bool)
    | VInt(i: Int64)
    | VFloat(num: int, den: Pos)
    | VString(s: string)
    | VArray(entries: seq<(ArrayKey, Value)>)
    | VEnum(e: UnitEnum)
    | VModel(m: Model)
    | VObject(cls: string)

  /** `$model->toArray()`. */
  function ToArray(model: Model): map<string, Value>
  {
    model.attributes
  }

  /*----------------------------------------*
   * Characters of numeric strings
   *----------------------------------------*/

  /** The white space PHP skips around a numeric string: " \t\n\r\v\f". */
  predicate IsWhitespace(c: char)
  {
    c == ' ' || c == '\t' || c == '\n' || c == '\r' || c as int == 0x0B || c as int == 0x0C
  }

  predicate IsDigit(c: char)
  {
    '0' <= c <= '9'
  }

  predicate AllDigits(s: string)
  {
    forall i :: 0 <= i < |s| ==> IsDigit(s[i])
  }

  function DigitChar(d: int): (c: char)
    requires 0 <= d < 10
    ensures IsDigit(c) && c as int - '0' as int == d
  {
    ('0' as int + d) as char
  }

  /** `s` without its leading white space. */
  function SkipWhitespace(s: string): (r: string)
    ensures |r| <= |s| && r == s[|s| - |r|..]
    ensures r == [] || !IsWhitespace(r[0])
    ensures forall i :: 0 <= i < |s| - |r| ==> IsWhitespace(s[i])
  {
    if s != [] && IsWhitespace(s[0]) then
      var r := SkipWhitespace(s[1..]);
      assert forall i :: 1 <= i < |s| - |r| ==> s[i] == s[1..][i - 1];
      r
    else
      s
  }

  /** `t` without one leading '+' or '-'. */
  function StripSign(t: string): (u: string)
    ensures u == t || (t != [] && (t[0] == '+' || t[0] == '-') && u == t[1..])
  {
    if t != [] && (t[0] == '+' || t[0] == '-') then t[1..] else t
  }

  /** The length of the run of decimal digits that `s` starts with. */
  function DigitRun(s: string): (n: nat)
    ensures n <= |s| && AllDigits(s[..n])
    ensures n == |s| || !IsDigit(s[n])
  {
    if s != [] && IsDigit(s[0]) then
      var n := DigitRun(s[1..]);
      assert s[..n + 1] == [s[0]] + s[1..][..n];
      1 + n
    else
      0
  }

  /** The number a string of decimal digits denotes. */
  function DigitsValue(ds: string): nat
    requires AllDigits(ds)
  {
    if ds == [] then 0
    else 10 * DigitsValue(ds[..|ds| - 1]) + (ds[|ds| - 1] as int - '0' as int)
  }

  /** Clamps to the `int` range, as PHP does for an integer string too long for 64 bits. */
  function Saturate(n: int): Int64
  {
    if n < PhpIntMin then PhpIntMin else if n > PhpIntMax then PhpIntMax else n
  }

  /** Reduces to the `int` range modulo 2^64, as PHP does for an out-of-range `float`. */
  function Wrap(n: int): (r: Int64)
    ensures (r - n) % TwoTo64 == 0
    ensures PhpIntMin <= n <= PhpIntMax ==> r == n
  {
    var m := n % TwoTo64;
    if m <= PhpIntMax then m else m - TwoTo64
  }

  /** Truncation of `num / den` toward zero, as a C cast of a `double` does
      (Dafny's `/` rounds toward negative infinity for a negative `num`). */
  function TruncateTowardZero(num: int, den: Pos): (t: int)
    ensures 0 <= num ==> 0 <= t * den <= num < t * den + den
    ensures num < 0 ==> t * den - den < num <= t * den <= 0
  {
    if num >= 0 then
      DivisionBounds(num, den);
      num / den
    else
      var q := (-num) / den;
      DivisionBounds(-num, den);
      assert -q * den == -(q * den);
      -q
  }

  lemma DivisionBounds(a: nat, d: Pos)
    ensures 0 <= (a / d) * d <= a < (a / d) * d + d
  {
  }

  /*----------------------------------------*
   * is_numeric, intval, boolval
   *----------------------------------------*/

  /** A numeric string: optional leading white space, an optional sign, one or
      more decimal digits, optional trailing white space. */
  predicate IsNumericString(s: string)
    ensures IsNumericString(s) ==> exists i :: 0 <= i < |s| && IsDigit(s[i])
  {
    var u := StripSign(SkipWhitespace(s));
    var n := DigitRun(u);
    assert n > 0 ==> IsDigit(s[|s| - |u|]) by {
      if n > 0 { assert u[..n][0] == u[0] == s[|s| - |u|]; }
    }
    n > 0 && forall i :: n <= i < |u| ==> IsWhitespace(u[i])
  }

  /** `intval` of a string: the leading integer after white space and an
      optional sign, 0 when there is none, clamped to the `int` range. */
  function StringToInt(s: string): (r: Int64)
    ensures DigitRun(StripSign(SkipWhitespace(s))) == 0 ==> r == 0
    ensures SkipWhitespace(s) == [] || SkipWhitespace(s)[0] != '-' ==> r >= 0
  {
    var t := SkipWhitespace(s);
    var u := StripSign(t);
    var n := DigitRun(u);
    var magnitude: int := DigitsValue(u[..n]);
    var signed: int := if t != [] && t[0] == '-' then -magnitude else magnitude;
    Saturate(signed)
  }

  /** `is_numeric($v)`. */
  predicate IsNumeric(v: Value)
    ensures IsNumeric(v) ==> v.VInt? || v.VFloat? || v.VString?
    ensures v.VInt? || v.VFloat? ==> IsNumeric(v)
  {
    match v
    case VInt(_) => true
    case VFloat(_, _) => true
    case VString(s) => IsNumericString(s)
    case _ => false
  }

  /** `intval($v)`. An object that cannot be converted (every object here) gives 1. */
  function IntVal(v: Value): (r: Int64)
    ensures v.VNull? || v == VBool(false) || v == VArray([]) ==> r == 0
    ensures v == VBool(true) || (v.VArray? && v.entries != []) ==> r == 1
    ensures v.VEnum? || v.VModel? || v.VObject? ==> r == 1
    ensures v.VInt? ==> r == v.i
    ensures v.VFloat? ==> (r - TruncateTowardZero(v.num, v.den)) % TwoTo64 == 0
    ensures v.VString? ==> r == StringToInt(v.s)
  {
    match v
    case VNull => 0
    case VBool(b) => if b then 1 else 0
    case VInt(i) => i
    case VFloat(num, den) => Wrap(TruncateTowardZero(num, den))
    case VString(s) => StringToInt(s)
    case VArray(entries) => if entries == [] then 0 else 1
    case VEnum(_) => 1
    case VModel(_) => 1
    case VObject(_) => 1
  }

  /** `boolval($v)`: false exactly for null, false, 0, 0.0, "", "0" and the empty array. */
  function BoolVal(v: Value): (r: bool)
    ensures !r <==>
      v == VNull || v == VBool(false) || v == VInt(0) || (v.VFloat? && v.num == 0) ||
      v == VString("") || v == VString("0") || v == VArray([])
  {
    match v
    case VNull => false
    case VBool(b) => b
    case VInt(i) => i != 0
    case VFloat(num, _) => num != 0
    case VString(s) => s != "" && s != "0"
    case VArray(entries) => entries != []
    case VEnum(_) => true
    case VModel(_) => true
    case VObject(_) => true
  }

  /*----------------------------------------*
   * strval of an int
   *----------------------------------------*/

  /** The decimal digits of `n`, without leading zeros; they denote `n`. */
  function NatDigits(n: nat): (ds: string)
    ensures ds != [] && AllDigits(ds)
    ensures DigitsValue(ds) == n
    decreases n
  {
    if n < 10 then
      [DigitChar(n)]
    else
      var ds := NatDigits(n / 10) + [DigitChar(n % 10)];
      assert ds[..|ds| - 1] == NatDigits(n / 10);
      ds
  }

  /** `strval($n)` for an `int`. */
  function DecimalString(n: int): string
  {
    if n < 0 then "-" + NatDigits(-n) else NatDigits(n)
  }

  /*----------------------------------------*
   * Properties
   *----------------------------------------*/

  /** A string that consists of digits only reads back as the number they denote. */
  lemma {:induction false} DigitsReadBack(ds: string)
    requires ds != [] && AllDigits(ds)
    ensures DigitRun(ds) == |ds|
    ensures IsNumericString(ds)
    ensures StringToInt(ds) == Saturate(DigitsValue(ds))
  {
    assert SkipWhitespace(ds) == ds by { assert !IsWhitespace(ds[0]); }
    assert StripSign(ds) == ds by { assert IsDigit(ds[0]); }
    assert ds[..|ds|] == ds;
  }

  /** A run of digits at the head of a string is counted whole. */
  lemma {:induction false} DigitRunOfDigitsPrefix(ds: string, t: string)
    requires AllDigits(ds)
    ensures DigitRun(ds + t) == |ds| + DigitRun(t)
  {
    if ds == [] {
      assert ds + t == t;
    } else {
      assert (ds + t)[0] == ds[0] && IsDigit(ds[0]);
      assert (ds + t)[1..] == ds[1..] + t;
      DigitRunOfDigitsPrefix(ds[1..], t);
    }
  }

  /** Digits followed by a character that is neither a digit, white space, a
      decimal point nor an exponent do not make a numeric string ("12abc"),
      though `intval` reads their value. */
  lemma DigitsThenTextNotNumeric(ds: string, c: char, rest: string)
    requires ds != [] && AllDigits(ds) && !IsDigit(c) && !IsWhitespace(c)
    requires c != '.' && c != 'e' && c != 'E'
    ensures !IsNumericString(ds + [c] + rest)
    ensures StringToInt(ds + [c] + rest) == Saturate(DigitsValue(ds))
  {
    var s := ds + [c] + rest;
    assert s == ds + ([c] + rest);
    assert SkipWhitespace(s) == s by { assert IsDigit(s[0]); }
    assert StripSign(s) == s by { assert IsDigit(s[0]); }
    DigitRunOfDigitsPrefix(ds, [c] + rest);
    assert DigitRun([c] + rest) == 0;
    assert s[|ds|] == c;
    assert s[..|ds|] == ds;
  }

  /** `intval(strval($n)) === $n`, and `strval($n)` is numeric. */
  lemma {:induction false} DecimalStringRoundTrip(n: Int64)
    ensures IsNumericString(DecimalString(n))
    ensures StringToInt(DecimalString(n)) == n
  {
    if n >= 0 {
      DigitsReadBack(NatDigits(n));
    } else {
      var ds := NatDigits(-(n as int));
      var s := DecimalString(n);
      assert s == "-" + ds;
      assert SkipWhitespace(s) == s by { assert s[0] == '-'; }
      assert StripSign(s) == ds;
      assert DigitRun(ds) == |ds| by { DigitsReadBack(ds); }
      assert ds[..|ds|] == ds;
    }
  }

  /** Whenever `boolval` is false, `intval` is 0; the converse fails, e.g. for
      "abc", 0.5 or an enum case. */
  lemma {:induction false} FalsyValuesHaveIntValZero(v: Value)
    requires !BoolVal(v)
    ensures IntVal(v) == 0
  {
    if v.VString? {
      if v.s == "0" {
        DigitsReadBack("0");
      }
    } else if v.VFloat? {
      assert TruncateTowardZero(v.num, v.den) == 0;
    }
  }

  /** `intval` of a float is its truncation toward zero whenever that fits an `int`. */
  lemma FloatIntValTruncates(num: int, den: Pos)
    requires PhpIntMin <= TruncateTowardZero(num, den) <= PhpIntMax
    ensures var t := IntVal(VFloat(num, den));
      (0 <= num ==> 0 <= t * den <= num < t * den + den) &&
      (num < 0 ==> t * den - den < num <= t * den <= 0)
  {
  }
}
