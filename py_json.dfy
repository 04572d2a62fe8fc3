/** A JSON document as the Python back end sees it after `request.get_json()`,
    with the Python semantics of truthiness, `in`, `int()` and `str()` that
    the route handlers rely on. */
module PyJson {
  import opened Text

  /** A Python float or `Decimal`: a finite number, a not-a-number (quiet
      or signalling; the model never tells them apart) or an infinity. */
  datatype Num = Finite(r: real) | NaN | Inf(neg: bool)

  /** JSON values. `Float(Finite(r))` is a float whose `str()` is the
      decimal numeral of `r`; `json.loads` also reads the literals `NaN`,
      `Infinity` and `-Infinity` as floats. Booleans are kept apart from
      integers because `json.loads` produces `True`/`False`. */
  datatype Json =
    | Null
    | Bool(b: bool)
    | Int(i: int)
    | Float(f: Num)
    | Str(s: string)
    | List(elems: seq<Json>)
    | Dict(fields: map<string, Json>)

  /** Python's `bool(v)`. */
  predicate Truthy(v: Json) {
    match v
    case Null => false
    case Bool(b) => b
    case Int(i) => i != 0
    case Float(x) => x != Finite(0.0)
    case Str(s) => s != ""
    case List(e) => e != []
    case Dict(f) => f != map[]
  }

  /** Outcome of Python's `key in v` for a string key: `TypeError` for
      numbers and booleans, key membership for a dict, element equality for a
      list and substring search for a string. */
  datatype Membership = Member | NotMember | MembershipTypeError

  function StrIn(key: string, v: Json): (m: Membership)
    ensures m == MembershipTypeError <==> (v.Null? || v.Bool? || v.Int? || v.Float?)
    ensures v.Dict? ==> (m == Member <==> key in v.fields)
  {
    match v
    case Dict(f) => if key in f then Member else NotMember
    case List(e) => if Str(key) in e then Member else NotMember
    case Str(s) => if Contains(s, key) then Member else NotMember
    case _ => MembershipTypeError
  }

  /** `int(x)` truncates a float toward zero. */
  function TruncateTowardZero(r: real): (i: int)
    ensures r >= 0.0 ==> i as real <= r < i as real + 1.0
    ensures r < 0.0 ==> i as real - 1.0 < r <= i as real
  {
    if r >= 0.0 then r.Floor else -((-r).Floor)
  }

  /** Python's `str.isspace()` (Unicode whitespace). `int()` turns every
      non-ASCII one into a space before it parses. */
  predicate IsPySpace(c: char) {
    c == ' ' || ('\t' <= c <= '\r') || ('\U{001C}' <= c <= '\U{001F}')
    || c == '\U{0085}' || c == '\U{00A0}' || c == '\U{1680}' || ('\U{2000}' <= c <= '\U{200A}')
    || c == '\U{2028}' || c == '\U{2029}' || c == '\U{202F}' || c == '\U{205F}' || c == '\U{3000}'
  }

  /** The whitespace `int()` skips around a numeral after its first pass:
      the C `isspace` of ASCII, which leaves out U+001C to U+001F. */
  predicate IsCSpace(c: char) {
    c == ' ' || ('\t' <= c <= '\r')
  }

  /** The text without its leading C whitespace. */
  function StripStart(s: string): (r: string)
    ensures |r| <= |s| && (r == [] || !IsCSpace(r[0]))
    ensures r == s[|s| - |r|..]
    ensures forall k :: 0 <= k < |s| - |r| ==> IsCSpace(s[k])
  {
    if s != [] && IsCSpace(s[0]) then StripStart(s[1..]) else s
  }

  /** The text without its trailing C whitespace. */
  function StripEnd(s: string): (r: string)
    ensures |r| <= |s| && (r == [] || !IsCSpace(r[|r| - 1]))
    ensures r == s[..|r|]
    ensures forall k :: |r| <= k < |s| ==> IsCSpace(s[k])
  {
    if s != [] && IsCSpace(s[|s| - 1]) then StripEnd(s[..|s| - 1]) else s
  }

  function DigitValue(c: char): (d: nat)
    requires IsAsciiDigit(c)
    ensures d < 10
  {
    c as int - '0' as int
  }

  /** Digits with single underscores between them, as `int()` accepts them. */
  predicate IsDigitGroup(s: string) {
    && s != []
    && IsAsciiDigit(s[0]) && IsAsciiDigit(s[|s| - 1])
    && (forall k :: 0 <= k < |s| ==> IsAsciiDigit(s[k]) || s[k] == '_')
    && (forall k :: 0 <= k < |s| - 1 ==> !(s[k] == '_' && s[k + 1] == '_'))
  }

  /** Value of a digit string in base 10, underscores skipped. */
  function DigitsValue(s: string): nat
    requires forall k :: 0 <= k < |s| ==> IsAsciiDigit(s[k]) || s[k] == '_'
  {
    if s == [] then 0
    else if s[|s| - 1] == '_' then DigitsValue(s[..|s| - 1])
    else 10 * DigitsValue(s[..|s| - 1]) + DigitValue(s[|s| - 1])
  }

  /** The text `int()` parses after CPython's first pass over a string:
      every ASCII character stays as it is, every non-ASCII whitespace
      character becomes a space, every non-ASCII character with a decimal
      value becomes that ASCII digit, and any other non-ASCII character
      becomes `?`, which no numeral contains. The decimal value of a
      non-ASCII character (Unicode category Nd, such as Arabic-Indic `٣`)
      is the parameter `decimal`. */
  function AsciiOf(c: char, decimal: char -> Option<nat>): (a: char)
    ensures a as int < 0x80
    ensures c as int < 0x80 ==> a == c
    ensures IsAsciiDigit(a) <==> IsAsciiDigit(c) || (c as int >= 0x80 && !IsPySpace(c) && decimal(c).Some? && decimal(c).value < 10)
    ensures IsCSpace(a) <==> IsCSpace(c) || (c as int >= 0x80 && IsPySpace(c))
  {
    if c as int < 0x80 then c
    else if IsPySpace(c) then ' '
    else if decimal(c).Some? && decimal(c).value < 10 then ('0' as int + decimal(c).value) as char
    else '?'
  }

  function ToAscii(s: string, decimal: char -> Option<nat>): (r: string)
    ensures |r| == |s|
    ensures forall k :: 0 <= k < |s| ==> r[k] == AsciiOf(s[k], decimal)
  {
    if s == [] then [] else [AsciiOf(s[0], decimal)] + ToAscii(s[1..], decimal)
  }

  /** `int(s)` on a string: surrounding whitespace, an optional sign and a
      base-10 digit group, in any script's decimal digits; `None` where
      Python raises `ValueError`. */
  function IntOfString(s: string, decimal: char -> Option<nat>): Option<int> {
    IntOfNumeral(ToAscii(s, decimal))
  }

  /** The most digits `int()` converts from text: the default of
      `sys.set_int_max_str_digits` since Python 3.11. */
  const MAX_STR_DIGITS: nat := 4300

  /** The digits of a digit group, underscores left out. */
  function DigitCount(s: string): (n: nat)
    ensures n <= |s|
  {
    if s == [] then 0 else DigitCount(s[..|s| - 1]) + (if s[|s| - 1] == '_' then 0 else 1)
  }

  /** The parse of the text after the first pass: C whitespace around, an
      optional sign, then at most `MAX_STR_DIGITS` digits with single
      underscores between them. */
  function IntOfNumeral(a: string): Option<int> {
    var t := StripEnd(StripStart(a));
    if t == [] then None
    else
      var body := if t[0] == '-' || t[0] == '+' then t[1..] else t;
      if !IsDigitGroup(body) || DigitCount(body) > MAX_STR_DIGITS then None
      else
        var n: int := DigitsValue(body);
        Some(if t[0] == '-' then -n else n)
  }

  /** Text made only of ASCII characters reads the same whatever the
      decimal values of other scripts are. */
  lemma IntOfAsciiString(s: string, decimal: char -> Option<nat>, other: char -> Option<nat>)
    requires forall k :: 0 <= k < |s| ==> s[k] as int < 0x80
    ensures IntOfString(s, decimal) == IntOfString(s, other)
  {
    ToAsciiOfAscii(s, decimal, other);
  }

  lemma {:induction false} ToAsciiOfAscii(s: string, decimal: char -> Option<nat>, other: char -> Option<nat>)
    requires forall k :: 0 <= k < |s| ==> s[k] as int < 0x80
    ensures ToAscii(s, decimal) == ToAscii(s, other)
  {
    if s != [] {
      ToAsciiOfAscii(s[1..], decimal, other);
    }
  }

  /** A digit of another script counts as the digit it stands for:
      `int("٣")` is 3. */
  lemma IntOfArabicIndicThree(decimal: char -> Option<nat>)
    requires decimal('\U{0663}') == Some(3)
    ensures IntOfString("\U{0663}", decimal) == Some(3)
  {
    assert AsciiOf('\U{0663}', decimal) == '3' by {
      assert !IsPySpace('\U{0663}');
    }
    assert ToAscii("\U{0663}", decimal) == "3";
    ThreeNumeral();
  }

  lemma ThreeNumeral()
    ensures IntOfNumeral("3") == Some(3)
  {
    assert StripStart("3") == "3";
    assert StripEnd("3") == "3";
    assert IsDigitGroup("3");
    assert DigitsValue("3") == 10 * DigitsValue("") + DigitValue('3');
  }

  /** The ASCII separators U+001C to U+001F are whitespace to
      `str.isspace()` but not to `int()`, which refuses `"\x1c3"`. */
  lemma LeadingSeparatorNotSkipped(decimal: char -> Option<nat>)
    ensures IsPySpace('\U{001C}')
    ensures IntOfString("\U{001C}3", decimal).None?
  {
    var a := ToAscii("\U{001C}3", decimal);
    assert a[0] == '\U{001C}' && a[1] == '3';
    assert StripStart(a) == a && StripEnd(a) == a;
    assert !IsDigitGroup(a);
  }

  /** `int("3\x1f")` raises as well. */
  lemma TrailingSeparatorNotSkipped(decimal: char -> Option<nat>)
    ensures IsPySpace('\U{001F}')
    ensures IntOfString("3\U{001F}", decimal).None?
  {
    var b := ToAscii("3\U{001F}", decimal);
    assert b[0] == '3' && b[1] == '\U{001F}';
    assert StripStart(b) == b && StripEnd(b) == b;
    assert !IsDigitGroup(b);
  }

  lemma {:induction false} DigitCountZeros(n: nat)
    ensures DigitCount(Repeat('0', n) + "3") == n + 1
  {
    if n == 0 {
      assert Repeat('0', n) + "3" == "3";
      assert "3"[..0] == [];
    } else {
      DigitCountZeros(n - 1);
      var s := Repeat('0', n) + "3";
      var t := Repeat('0', n - 1) + "3";
      assert s == ['0'] + t;
      DigitCountCons('0', t);
    }
  }

  lemma {:induction false} DigitCountCons(c: char, s: string)
    requires c != '_'
    ensures DigitCount([c] + s) == DigitCount(s) + 1
    decreases |s|
  {
    if s != [] {
      var n := |s| - 1;
      assert ([c] + s)[..n + 1] == [c] + s[..n];
      DigitCountCons(c, s[..n]);
    }
  }

  /** ASCII text comes through the first pass unchanged. */
  lemma AsciiUnchanged(s: string, decimal: char -> Option<nat>)
    requires forall k :: 0 <= k < |s| ==> s[k] as int < 0x80
    ensures ToAscii(s, decimal) == s
  {
    var a := ToAscii(s, decimal);
    forall k | 0 <= k < |s| ensures a[k] == s[k] {
      assert a[k] == AsciiOf(s[k], decimal);
    }
  }

  /** A numeral of more than 4300 digits is refused even when its value is
      small: `int("0" * 4300 + "3")` raises. */
  lemma LongNumeralRefused(decimal: char -> Option<nat>)
    ensures IntOfString(Repeat('0', MAX_STR_DIGITS) + "3", decimal).None?
  {
    var s := Repeat('0', MAX_STR_DIGITS) + "3";
    ZerosThenThreeAscii(MAX_STR_DIGITS);
    AsciiUnchanged(s, decimal);
    DigitCountZeros(MAX_STR_DIGITS);
    NumeralTooLong(s);
  }

  lemma ZerosThenThreeAscii(n: nat)
    ensures var s := Repeat('0', n) + "3";
      s[0] in "03" && s[|s| - 1] == '3' && forall k :: 0 <= k < |s| ==> s[k] as int < 0x80
  {
    var s := Repeat('0', n) + "3";
    assert forall k :: 0 <= k < |s| ==> s[k] == '0' || s[k] == '3';
  }

  lemma NumeralTooLong(t: string)
    requires t != [] && !IsCSpace(t[0]) && !IsCSpace(t[|t| - 1]) && t[0] != '-' && t[0] != '+'
    requires DigitCount(t) > MAX_STR_DIGITS
    ensures IntOfNumeral(t).None?
  {
    assert StripStart(t) == t;
    assert StripEnd(t) == t;
  }

  /** Outcome of Python's `int(v)`: `None` where it raises (`ValueError`
      for a not-a-number, `OverflowError` for an infinity). */
  function IntOf(v: Json, decimal: char -> Option<nat>): (r: Option<int>)
    ensures v.Int? ==> r == Some(v.i)
    ensures v.Null? || v.List? || v.Dict? ==> r.None?
    ensures v.Float? ==> (r.Some? <==> v.f.Finite?)
  {
    match v
    case Int(i) => Some(i)
    case Bool(b) => Some(if b then 1 else 0)
    case Float(x) => if x.Finite? then Some(TruncateTowardZero(x.r)) else None
    case Str(s) => IntOfString(s, decimal)
    case _ => None
  }
}
