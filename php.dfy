/**
 * The slice of PHP's value model that the scanner relies on: array keys and
 * values, `isset`, the `??` operator, `is_numeric`, the `(int)` cast and the
 * `(string)` conversion of an integer. PHP strings are byte strings; a Dafny
 * `string` stands for one with one character per byte.
 */
module Php {
  import opened Wrappers
  import opened OrderedMap

  datatype Key = IntKey(i: int) | StrKey(s: string)

  datatype Value =
    | Null
    | Bool(b: bool)
    | Int(i: int)
    | Float(r: real)
    | Str(s: string)
    | Arr(entries: seq<(Key, Value)>)

  type PhpArray = OMap<Key, Value>

  /** `$a['name']`, or None when the key is absent. */
  function Lookup(a: PhpArray, name: string): Option<Value> {
    Get(a, StrKey(name))
  }

  /** `isset($a['name'])`: present and not null. */
  predicate IsSet(a: PhpArray, name: string) {
    Lookup(a, name).Some? && Lookup(a, name).value != Null
  }

  /** `$a['name'] ?? $default`. */
  function Coalesce(a: PhpArray, name: string, default: Value): (r: Value)
    ensures IsSet(a, name) ==> Lookup(a, name) == Some(r)
    ensures !IsSet(a, name) ==> r == default
  {
    if IsSet(a, name) then Lookup(a, name).value else default
  }

  /** `$a['name'] = $v` on an array. */
  function Assign(a: PhpArray, name: string, v: Value): (r: PhpArray)
    ensures Lookup(r, name) == Some(v)
    ensures forall other :: other != name ==> Lookup(r, other) == Lookup(a, other)
    ensures forall k :: k != StrKey(name) ==> Get(r, k) == Get(a, k)
  {
    forall k ensures Get(Put(a, StrKey(name), v), k) == if k == StrKey(name) then Some(v) else Get(a, k) {
      GetPut(a, StrKey(name), v, k);
    }
    Put(a, StrKey(name), v)
  }

  // ----- strings as numbers -----

  predicate IsDigit(c: char) { '0' <= c <= '9' }

  /** The whitespace PHP allows around a numeric string: space, \t, \n, \r, \v, \f. */
  predicate IsNumericWhitespace(c: char) {
    c == ' ' || c == '\t' || c == '\n' || c == '\r' || c == '\U{000B}' || c == '\U{000C}'
  }

  predicate AllDigits(s: string) {
    forall i :: 0 <= i < |s| ==> IsDigit(s[i])
  }

  function DigitValue(c: char): nat
    requires IsDigit(c)
  {
    (c as int - '0' as int) as nat
  }

  /** The number a run of decimal digits denotes. */
  function DigitsValue(s: string): nat
    requires AllDigits(s)
  {
    if s == [] then 0 else 10 * DigitsValue(s[..|s| - 1]) + DigitValue(s[|s| - 1])
  }

  function LeadingDigits(s: string): (n: nat)
    ensures n <= |s| && AllDigits(s[..n])
    ensures n < |s| ==> !IsDigit(s[n])
  {
    if s != [] && IsDigit(s[0]) then 1 + LeadingDigits(s[1..]) else 0
  }

  function TrimStart(s: string): (r: string)
    ensures |r| <= |s| && r == s[|s| - |r|..]
    ensures r != [] ==> !IsNumericWhitespace(r[0])
  {
    if s != [] && IsNumericWhitespace(s[0]) then TrimStart(s[1..]) else s
  }

  function TrimEnd(s: string): (r: string)
    ensures |r| <= |s| && r == s[..|r|]
    ensures r != [] ==> !IsNumericWhitespace(r[|r| - 1])
  {
    if s != [] && IsNumericWhitespace(s[|s| - 1]) then TrimEnd(s[..|s| - 1]) else s
  }

  /** The string without its surrounding whitespace and without a leading sign. */
  function Unsigned(s: string): string {
    var t := TrimEnd(TrimStart(s));
    if t != [] && (t[0] == '+' || t[0] == '-') then t[1..] else t
  }

  predicate IsNegative(s: string) {
    var t := TrimEnd(TrimStart(s));
    t != [] && t[0] == '-'
  }

  /**
   * A decimal number without exponent: digits with an optional fraction
   * ("12", "12.", "12.5") or a bare fraction (".5").
   */
  predicate IsDecimal(u: string) {
    var n := LeadingDigits(u);
    (n == |u| && n > 0) ||
    (n < |u| && u[n] == '.' && AllDigits(u[n + 1..]) && (n > 0 || n + 1 < |u|))
  }

  /** `is_numeric($s)` for a string, restricted to the forms without exponent. */
  predicate IsNumericString(s: string) {
    IsDecimal(Unsigned(s))
  }

  /** `(int) $s` for a numeric string: the integer part, with its sign. */
  function NumericStringToInt(s: string): int
    requires IsNumericString(s)
  {
    var u := Unsigned(s);
    var magnitude: int := DigitsValue(u[..LeadingDigits(u)]);
    if IsNegative(s) then -magnitude else magnitude
  }

  /** `is_numeric($v)`. */
  predicate IsNumeric(v: Value) {
    match v
    case Int(_) => true
    case Float(_) => true
    case Str(s) => IsNumericString(s)
    case _ => false
  }

  /** `(int) $v` for a numeric value; a float is truncated toward zero. */
  function IntCast(v: Value): int
    requires IsNumeric(v)
  {
    match v
    case Int(i) => i
    case Float(r) => if r >= 0.0 then r.Floor else -((-r).Floor)
    case Str(s) => NumericStringToInt(s)
  }

  /** PHP's truthiness of a string: only "" and "0" are false. */
  predicate IsFalsyString(s: string) {
    s == "" || s == "0"
  }

  // ----- integers as strings -----

  function DigitChar(d: nat): (c: char)
    requires d < 10
    ensures IsDigit(c) && DigitValue(c) == d
  {
    ('0' as int + d) as char
  }

  function NatToDigits(n: nat): (s: string)
    ensures s != [] && AllDigits(s)
    decreases n
  {
    if n < 10 then [DigitChar(n)] else NatToDigits(n / 10) + [DigitChar(n % 10)]
  }

  /** `(string) $n` and `sprintf('%d', $n)`. */
  function DecimalString(n: int): string {
    if n < 0 then "-" + NatToDigits(-n) else NatToDigits(n)
  }

  lemma {:induction false} NatToDigitsValue(n: nat)
    ensures DigitsValue(NatToDigits(n)) == n
    decreases n
  {
    if n >= 10 {
      NatToDigitsValue(n / 10);
      var s := NatToDigits(n);
      assert s[..|s| - 1] == NatToDigits(n / 10);
    }
  }

  lemma {:induction false} LeadingDigitsAll(s: string)
    requires AllDigits(s)
    ensures LeadingDigits(s) == |s|
  {
    if s != [] {
      LeadingDigitsAll(s[1..]);
    }
  }

  lemma NoWhitespaceAtEnds(s: string)
    requires s != [] && !IsNumericWhitespace(s[0]) && !IsNumericWhitespace(s[|s| - 1])
    ensures TrimEnd(TrimStart(s)) == s
  {
  }

  lemma UnsignedDigits(d: string, negative: bool)
    requires d != [] && AllDigits(d)
    ensures Unsigned(if negative then "-" + d else d) == d
    ensures IsNegative(if negative then "-" + d else d) == negative
  {
    var s := if negative then "-" + d else d;
    assert !IsNumericWhitespace(s[0]);
    assert TrimStart(s) == s;
    assert s[|s| - 1] == d[|d| - 1];
    assert TrimEnd(s) == s;
    if negative {
      assert s[1..] == d;
    } else {
      assert s[0] != '+' && s[0] != '-';
    }
  }

  lemma DigitsAreDecimal(d: string)
    requires d != [] && AllDigits(d)
    ensures IsDecimal(d)
    ensures d[..LeadingDigits(d)] == d
  {
    LeadingDigitsAll(d);
  }

  lemma DigitsAreNumeric(d: string, negative: bool)
    requires d != [] && AllDigits(d)
    ensures IsNumericString(if negative then "-" + d else d)
    ensures NumericStringToInt(if negative then "-" + d else d) == (if negative then -1 else 1) * DigitsValue(d)
  {
    var s := if negative then "-" + d else d;
    UnsignedDigits(d, negative);
    DigitsAreDecimal(d);
    assert IsNumericString(s);
    var u := Unsigned(s);
    assert u == d;
    var magnitude: int := DigitsValue(u[..LeadingDigits(u)]);
    assert magnitude == DigitsValue(d);
  }

  /** The decimal form of an integer reads back as the same integer: `(int)(string) $n == $n`. */
  lemma DecimalStringRoundTrip(n: int)
    ensures IsNumeric(Str(DecimalString(n)))
    ensures IntCast(Str(DecimalString(n))) == n
  {
    var m: nat := if n < 0 then -n else n;
    DigitsAreNumeric(NatToDigits(m), n < 0);
    NatToDigitsValue(m);
  }
}
