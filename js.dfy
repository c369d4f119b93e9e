/**
 * The slice of JavaScript the storefront's rules depend on: scalar values as
 * they arrive in JSON records, truthiness and `||`, the string operations the
 * pages call (case mapping, `trim`, `includes`, stripping non-digits), integer
 * printing and parsing (`String(n)`, `parseInt`, `Number(s)`), and the array
 * methods `filter` and `find`.
 *
 * Case mapping is restricted to ASCII letters; numbers are integers.
 */
module Js {

  datatype Option<+T> = None | Some(value: T)

  /** A scalar field of a record. JavaScript's `null` and `undefined` are both
      `Missing`; numbers are integers. */
  datatype Value = Missing | Num(n: int) | Text(s: string)

  /** JavaScript truthiness: `undefined`, `null`, `0` and `""` are falsy. */
  predicate Truthy(v: Value) {
    match v
    case Missing => false
    case Num(n) => n != 0
    case Text(s) => s != ""
  }

  /** `a || b`: the first operand when it is truthy, otherwise the second. */
  function Or(a: Value, b: Value): Value {
    if Truthy(a) then a else b
  }

  /** A plain object: field name to scalar value. */
  type JsObject = map<string, Value>

  /** `o.k`, which is `undefined` when the field is absent. */
  function Get(o: JsObject, k: string): Value {
    if k in o then o[k] else Missing
  }

  // ---------------------------------------------------------------------------
  // Characters and strings

  predicate IsDigit(c: char) {
    '0' <= c <= '9'
  }

  predicate IsHexDigit(c: char) {
    IsDigit(c) || 'a' <= c <= 'f' || 'A' <= c <= 'F'
  }

  /** The ECMAScript WhiteSpace and LineTerminator code points: what `trim()`,
      the regular-expression class `\s` and `parseInt` treat as white space. */
  predicate IsSpace(c: char) {
    || c == ' ' || c == '\t' || c == '\n' || c == '\r'
    || c == '\U{B}' || c == '\U{C}' || c == '\U{A0}' || c == '\U{1680}'
    || ('\U{2000}' <= c <= '\U{200A}')
    || c == '\U{2028}' || c == '\U{2029}' || c == '\U{202F}' || c == '\U{205F}'
    || c == '\U{3000}' || c == '\U{FEFF}'
  }

  function UpperChar(c: char): char {
    if 'a' <= c <= 'z' then (c as int - 32) as char else c
  }

  function LowerChar(c: char): char {
    if 'A' <= c <= 'Z' then (c as int + 32) as char else c
  }

  /** `s.toUpperCase()`, on ASCII letters. */
  function ToUpper(s: string): string {
    seq(|s|, i requires 0 <= i < |s| => UpperChar(s[i]))
  }

  /** `s.toLowerCase()`, on ASCII letters. */
  function ToLower(s: string): string {
    seq(|s|, i requires 0 <= i < |s| => LowerChar(s[i]))
  }

  /** Upper-casing forgets how a string was cased before. */
  lemma UpperOfLower(s: string)
    ensures ToUpper(ToLower(s)) == ToUpper(s)
  {
    assert forall i :: 0 <= i < |s| ==> ToUpper(ToLower(s))[i] == ToUpper(s)[i];
  }

  /** Lower-casing forgets how a string was cased before. */
  lemma LowerOfUpper(s: string)
    ensures ToLower(ToUpper(s)) == ToLower(s)
  {
    assert forall i :: 0 <= i < |s| ==> ToLower(ToUpper(s))[i] == ToLower(s)[i];
  }

  lemma LowerIdempotent(s: string)
    ensures ToLower(ToLower(s)) == ToLower(s)
  {
    assert forall i :: 0 <= i < |s| ==> ToLower(ToLower(s))[i] == ToLower(s)[i];
  }

  function TrimStart(s: string): string {
    if s != [] && IsSpace(s[0]) then TrimStart(s[1..]) else s
  }

  function TrimEnd(s: string): string {
    if s != [] && IsSpace(s[|s| - 1]) then TrimEnd(s[..|s| - 1]) else s
  }

  /** `s.trim()`. */
  function Trim(s: string): string {
    TrimEnd(TrimStart(s))
  }

  predicate AllSpace(s: string) {
    forall i :: 0 <= i < |s| ==> IsSpace(s[i])
  }

  predicate NoSpace(s: string) {
    forall i :: 0 <= i < |s| ==> !IsSpace(s[i])
  }

  /** `TrimStart` drops a run of white space from the front and nothing else. */
  lemma {:induction false} TrimStartShape(s: string)
    ensures |TrimStart(s)| <= |s|
    ensures TrimStart(s) == s[|s| - |TrimStart(s)|..]
    ensures AllSpace(s[..|s| - |TrimStart(s)|])
    ensures TrimStart(s) == [] || !IsSpace(TrimStart(s)[0])
    decreases |s|
  {
    if s != [] && IsSpace(s[0]) {
      TrimStartShape(s[1..]);
      var k := |s| - |TrimStart(s)|;
      assert s[1..][..k - 1] == s[1..k];
    }
  }

  /** `TrimEnd` drops a run of white space from the back and nothing else. */
  lemma {:induction false} TrimEndShape(s: string)
    ensures |TrimEnd(s)| <= |s|
    ensures TrimEnd(s) == s[..|TrimEnd(s)|]
    ensures AllSpace(s[|TrimEnd(s)|..])
    ensures TrimEnd(s) == [] || !IsSpace(TrimEnd(s)[|TrimEnd(s)| - 1])
    decreases |s|
  {
    if s != [] && IsSpace(s[|s| - 1]) {
      var t := s[..|s| - 1];
      TrimEndShape(t);
      var k := |TrimEnd(s)|;
      assert s[..k] == t[..k];
      forall i | k <= i < |s| ensures IsSpace(s[i]) {
        if i < |s| - 1 {
          assert s[i] == t[k..][i - k];
        }
      }
    }
  }

  /** A string without white space is its own trim. */
  lemma {:induction false} TrimNoSpace(s: string)
    requires NoSpace(s)
    ensures Trim(s) == s
  {
    assert TrimStart(s) == s;
    assert s == [] || !IsSpace(s[|s| - 1]);
  }

  /** A blank string (empty after trimming) consists of white space only. */
  lemma {:induction false} BlankIsAllSpace(s: string)
    requires Trim(s) == []
    ensures AllSpace(s)
  {
    TrimStartShape(s);
    var t := TrimStart(s);
    TrimEndShape(t);
    assert t == [];
    assert s[..|s| - |t|] == s;
  }

  /** Trimming twice is trimming once. */
  lemma TrimIdempotent(s: string)
    ensures Trim(Trim(s)) == Trim(s)
  {
    var t := TrimStart(s);
    var x := TrimEnd(t);
    TrimStartShape(s);
    TrimEndShape(t);
    if x != [] {
      assert x[0] == t[0];
      assert TrimStart(x) == x;
      assert TrimEnd(x) == x;
    }
  }

  /** `r` is what is left of `s` once the white space at both ends is cut
      off: `s` is white space, then `r`, then white space, and `r` neither
      starts nor ends with white space. */
  predicate IsTrimOf(r: string, s: string) {
    && (r == [] || (!IsSpace(r[0]) && !IsSpace(r[|r| - 1])))
    && exists i | 0 <= i && i + |r| <= |s| ::
         s[i..i + |r|] == r && AllSpace(s[..i]) && AllSpace(s[i + |r|..])
  }

  /** `trim` cuts white space off both ends and nothing else. */
  lemma TrimIsTrimOf(s: string)
    ensures IsTrimOf(Trim(s), s)
  {
    var t := TrimStart(s);
    var x := TrimEnd(t);
    TrimStartShape(s);
    TrimEndShape(t);
    var i := |s| - |t|;
    assert s[i..i + |x|] == x;
    assert s[i + |x|..] == t[|x|..];
    if x != [] {
      assert x[0] == t[0];
    }
  }

  /** `s.length`: JavaScript counts UTF-16 code units, so a character outside
      the Basic Multilingual Plane counts twice. */
  function Utf16Length(s: string): (r: nat)
    ensures |s| <= r <= 2 * |s|
    ensures (forall i :: 0 <= i < |s| ==> s[i] as int <= 0xFFFF) ==> r == |s|
    ensures |s| == 1 ==> r == if s[0] as int > 0xFFFF then 2 else 1
  {
    if s == [] then 0
    else Utf16Length(s[..|s| - 1]) + (if s[|s| - 1] as int > 0xFFFF then 2 else 1)
  }

  /** The length of a concatenation is the sum of the lengths; with the
      one-character case this fixes the length of every string. */
  lemma {:induction false} Utf16LengthOfConcat(a: string, b: string)
    ensures Utf16Length(a + b) == Utf16Length(a) + Utf16Length(b)
    decreases |b|
  {
    if b == [] {
      assert a + b == a;
    } else {
      var c := b[..|b| - 1];
      assert (a + b)[..|a + b| - 1] == a + c;
      assert (a + b)[|a + b| - 1] == b[|b| - 1];
      Utf16LengthOfConcat(a, c);
    }
  }

  /** `h.includes(n)`: `n` occurs in `h` as a contiguous substring. */
  predicate Includes(h: string, n: string) {
    exists i | 0 <= i <= |h| :: OccursAt(h, n, i)
  }

  predicate OccursAt(h: string, n: string, i: int) {
    0 <= i && i + |n| <= |h| && h[i..i + |n|] == n
  }

  lemma IncludesEmpty(h: string)
    ensures Includes(h, "")
  {
    assert OccursAt(h, "", 0);
  }

  /** `s.replace(/\D/g, '')`: the decimal digits of `s`, in order. */
  function DigitsOnly(s: string): string {
    Filter(s, IsDigit)
  }

  // ---------------------------------------------------------------------------
  // Integers as text

  function DigitChar(d: nat): char
    requires d < 10
  {
    ('0' as int + d) as char
  }

  function DigitValue(c: char): nat
    requires IsHexDigit(c)
  {
    if IsDigit(c) then c as int - '0' as int
    else if 'a' <= c <= 'f' then c as int - 'a' as int + 10
    else c as int - 'A' as int + 10
  }

  /** Decimal numeral of a natural number, most significant digit first. */
  function NatToDecimal(n: nat): string
    decreases n
  {
    if n < 10 then [DigitChar(n)] else NatToDecimal(n / 10) + [DigitChar(n % 10)]
  }

  /** `String(n)` for an integer `n`. */
  function IntToDecimal(n: int): string {
    if n < 0 then "-" + NatToDecimal(-n) else NatToDecimal(n)
  }

  /** `String(v)`, also what a template literal `${v}` and `v.toString()` give. */
  function ToText(v: Value): string {
    match v
    case Missing => "undefined"
    case Num(n) => IntToDecimal(n)
    case Text(s) => s
  }

  /** A truthy value never prints as the empty string. */
  lemma TextOfTruthy(v: Value)
    requires Truthy(v)
    ensures ToText(v) != ""
  {
    if v.Num? {
      NatToDecimalDigits(if v.n < 0 then -v.n else v.n);
    }
  }

  predicate IsRadixDigit(c: char, radix: nat) {
    if radix == 16 then IsHexDigit(c) else IsDigit(c)
  }

  predicate AllRadixDigits(s: string, radix: nat) {
    forall i :: 0 <= i < |s| ==> IsRadixDigit(s[i], radix)
  }

  /** The longest prefix of `s` made of digits of the radix. */
  function DigitPrefix(s: string, radix: nat): (r: string)
    ensures AllRadixDigits(r, radix)
  {
    if s != [] && IsRadixDigit(s[0], radix) then [s[0]] + DigitPrefix(s[1..], radix) else []
  }

  /** The number a string of digits denotes, read most significant digit first. */
  function DigitsValue(s: string, radix: nat): nat
    requires AllRadixDigits(s, radix)
  {
    if s == [] then 0
    else DigitsValue(s[..|s| - 1], radix) * radix + DigitValue(s[|s| - 1])
  }

  /** The magnitude `parseInt` reads after the sign: a `0x`/`0X` prefix selects
      base 16, then the longest run of digits is read. */
  function ParseMagnitude(u: string): Option<nat> {
    var hex := |u| >= 2 && u[0] == '0' && (u[1] == 'x' || u[1] == 'X');
    var radix := if hex then 16 else 10;
    var digits := DigitPrefix(if hex then u[2..] else u, radix);
    if digits == [] then None else Some(DigitsValue(digits, radix))
  }

  function Signed(negative: bool, magnitude: Option<nat>): Option<int> {
    match magnitude
    case None => None
    case Some(k) => var v: int := k; Some(if negative then -v else v)
  }

  /** `parseInt(s)` without a radix argument: skip leading white space, read an
      optional sign, then the magnitude. `None` stands for `NaN`. */
  function ParseInt(s: string): Option<int> {
    var t := TrimStart(s);
    if |t| > 0 && (t[0] == '-' || t[0] == '+') then Signed(t[0] == '-', ParseMagnitude(t[1..]))
    else Signed(false, ParseMagnitude(t))
  }

  /** A non-empty run of decimal digits and nothing else. */
  function DecimalMagnitude(u: string): Option<nat> {
    if u != [] && AllRadixDigits(u, 10) then Some(DigitsValue(u, 10)) else None
  }

  /** `Number(s)` for strings that spell an integer: surrounding white space is
      ignored, a blank string is 0, otherwise an optional sign and decimal digits.
      `None` stands for `NaN`. */
  function StringToNumber(s: string): Option<int> {
    var t := Trim(s);
    if t == [] then Some(0)
    else if t[0] == '-' || t[0] == '+' then Signed(t[0] == '-', DecimalMagnitude(t[1..]))
    else Signed(false, DecimalMagnitude(t))
  }

  /** The first position in `s` holding one of `cs`, or `|s|` when there is none. */
  function IndexOfAny(s: string, cs: set<char>): (i: nat)
    ensures i <= |s|
    ensures forall k :: 0 <= k < i ==> s[k] !in cs
    ensures i < |s| ==> s[i] in cs
  {
    if s == [] then 0
    else if s[0] in cs then 0
    else 1 + IndexOfAny(s[1..], cs)
  }

  /** Every character of `u` is the digit zero. */
  predicate AllZeros(u: string) {
    forall k :: 0 <= k < |u| ==> u[k] == '0'
  }

  /** A StrUnsignedDecimalLiteral of ECMAScript's `Number` conversion:
      digits with an optional fraction (at least one digit in all) and an
      optional exponent, or `Infinity`. `Some(b)` tells whether the value is
      positive; `None` stands for `NaN`. */
  function UnsignedDecimalSign(u: string): Option<bool> {
    if u == "Infinity" then Some(true)
    else
      var e := IndexOfAny(u, {'e', 'E'});
      var mantissa := u[..e];
      var exponent := if e < |u| then u[e + 1..] else [];
      var d := IndexOfAny(mantissa, {'.'});
      var whole := mantissa[..d];
      var fraction := if d < |mantissa| then mantissa[d + 1..] else [];
      var expDigits := if exponent != [] && (exponent[0] == '+' || exponent[0] == '-') then exponent[1..] else exponent;
      if && AllRadixDigits(whole, 10) && AllRadixDigits(fraction, 10) && whole + fraction != []
         && (e == |u| || (expDigits != [] && AllRadixDigits(expDigits, 10)))
      then Some(!AllZeros(whole + fraction))
      else None
  }

  /** A `0x`, `0o` or `0b` literal (no sign allowed) with a digit that is not zero. */
  predicate NonDecimalPositive(t: string) {
    && |t| >= 3 && t[0] == '0'
    && var digits := t[2..];
       && !AllZeros(digits)
       && (|| ((t[1] == 'x' || t[1] == 'X') && forall k :: 0 <= k < |digits| ==> IsHexDigit(digits[k]))
           || ((t[1] == 'o' || t[1] == 'O') && forall k :: 0 <= k < |digits| ==> '0' <= digits[k] <= '7')
           || ((t[1] == 'b' || t[1] == 'B') && forall k :: 0 <= k < |digits| ==> digits[k] == '0' || digits[k] == '1'))
  }

  /** `Number(s) > 0` for a string: surrounding white space is ignored; a
      leading `-` gives a negative number, minus zero or `NaN`, none of which is
      positive; a leading `+` admits only a decimal literal. */
  predicate NumberIsPositive(s: string) {
    var t := Trim(s);
    if t != [] && t[0] == '-' then false
    else if t != [] && t[0] == '+' then UnsignedDecimalSign(t[1..]) == Some(true)
    else UnsignedDecimalSign(t) == Some(true) || NonDecimalPositive(t)
  }

  /** A literal with a fraction is positive when one of its digits is not zero. */
  lemma FractionSign(w: string, f: string)
    requires AllRadixDigits(w, 10) && AllRadixDigits(f, 10) && w + f != []
    ensures UnsignedDecimalSign(w + "." + f) == Some(!AllZeros(w + f))
  {
    var u := w + "." + f;
    assert forall k :: 0 <= k < |u| ==> u[k] !in {'e', 'E'} by {
      forall k | 0 <= k < |u| ensures u[k] !in {'e', 'E'} {
        if k < |w| { assert u[k] == w[k]; } else if k > |w| { assert u[k] == f[k - |w| - 1]; }
      }
    }
    var e := IndexOfAny(u, {'e', 'E'});
    assert e == |u|;
    assert u[..e] == u;
    var d := IndexOfAny(u, {'.'});
    assert u[|w|] == '.';
    assert forall k :: 0 <= k < |w| ==> u[k] == w[k];
    assert d == |w|;
    assert u[..d] == w && u[d + 1..] == f;
  }

  /** A literal with an exponent is positive when one of the digits before the
      exponent is not zero. */
  lemma ExponentSign(m: string, x: string)
    requires AllRadixDigits(m, 10) && m != [] && AllRadixDigits(x, 10) && x != []
    ensures UnsignedDecimalSign(m + "e" + x) == Some(!AllZeros(m))
  {
    var u := m + "e" + x;
    var e := IndexOfAny(u, {'e', 'E'});
    assert u[|m|] == 'e';
    assert forall k :: 0 <= k < |m| ==> u[k] == m[k];
    assert e == |m|;
    assert u[..e] == m && u[e + 1..] == x;
    var d := IndexOfAny(m, {'.'});
    assert forall k :: 0 <= k < |m| ==> m[k] != '.';
    assert d == |m|;
    assert m[..d] == m && m + [] == m;
  }

  /** A literal without white space or a sign is positive when its decimal
      reading is. */
  lemma UnsignedIsPositive(s: string)
    requires NoSpace(s) && s != [] && s[0] != '-' && s[0] != '+'
    requires UnsignedDecimalSign(s) == Some(true)
    ensures NumberIsPositive(s)
  {
    TrimNoSpace(s);
  }

  /** Visible ASCII characters are not white space. */
  lemma VisibleAsciiNoSpace(s: string)
    requires forall i :: 0 <= i < |s| ==> '!' <= s[i] <= '~'
    ensures NoSpace(s)
  {
  }

  /** Fractions, exponents and `Infinity` are numbers above zero. */
  lemma PositiveLiterals()
    ensures NumberIsPositive("0.5") && NumberIsPositive("2.5")
    ensures NumberIsPositive("1e3") && NumberIsPositive("Infinity")
  {
    HalfIsPositive();
    TwoAndAHalfIsPositive();
    ThousandIsPositive();
    InfinityIsPositive();
  }

  lemma HalfIsPositive()
    ensures NumberIsPositive("0.5")
  {
    FractionSign("0", "5");
    assert "0" + "." + "5" == "0.5" && "0" + "5" == "05" && "05"[1] != '0';
    VisibleAsciiNoSpace("0.5");
    UnsignedIsPositive("0.5");
  }

  lemma TwoAndAHalfIsPositive()
    ensures NumberIsPositive("2.5")
  {
    FractionSign("2", "5");
    assert "2" + "." + "5" == "2.5" && "2" + "5" == "25" && "25"[0] != '0';
    VisibleAsciiNoSpace("2.5");
    UnsignedIsPositive("2.5");
  }

  lemma ThousandIsPositive()
    ensures NumberIsPositive("1e3")
  {
    ExponentSign("1", "3");
    assert "1" + "e" + "3" == "1e3" && "1"[0] != '0';
    VisibleAsciiNoSpace("1e3");
    UnsignedIsPositive("1e3");
  }

  lemma InfinityIsPositive()
    ensures NumberIsPositive("Infinity")
  {
    VisibleAsciiNoSpace("Infinity");
    UnsignedIsPositive("Infinity");
  }

  /** `parseInt` stops at the first character that is not a digit. */
  lemma ParseIntOfLiterals()
    ensures ParseInt("0.5") == Some(0) && ParseInt("2.5") == Some(2)
    ensures ParseInt("1e3") == Some(1) && ParseInt("Infinity") == None
  {
    DigitPrefixStops("0", ".5", 10);
    DigitPrefixStops("2", ".5", 10);
    DigitPrefixStops("1", "e3", 10);
    assert "0" + ".5" == "0.5" && "2" + ".5" == "2.5" && "1" + "e3" == "1e3";
    assert TrimStart("0.5") == "0.5" && TrimStart("2.5") == "2.5";
    assert TrimStart("1e3") == "1e3" && TrimStart("Infinity") == "Infinity";
  }

  /** A decimal numeral is positive exactly when one of its digits is not zero. */
  lemma {:induction false} DigitsValuePositive(u: string)
    requires AllRadixDigits(u, 10)
    ensures DigitsValue(u, 10) > 0 <==> !AllZeros(u)
    decreases |u|
  {
    if u != [] {
      var init := u[..|u| - 1];
      DigitsValuePositive(init);
      assert AllZeros(u) <==> AllZeros(init) && u[|u| - 1] == '0';
    }
  }

  /** A run of decimal digits is its own mantissa, with no fraction and no
      exponent. */
  lemma UnsignedDecimalOfDigits(u: string)
    requires u != [] && AllRadixDigits(u, 10)
    ensures UnsignedDecimalSign(u) == Some(DigitsValue(u, 10) > 0)
  {
    DigitsValuePositive(u);
    assert u != "Infinity" by { assert !IsDigit(u[0]) || u[0] != 'I'; }
    assert forall k :: 0 <= k < |u| ==> u[k] !in {'e', 'E'} && u[k] != '.';
    assert IndexOfAny(u, {'e', 'E'}) == |u|;
    assert u[..|u|] == u;
    assert IndexOfAny(u, {'.'}) == |u|;
    assert u + [] == u;
  }

  /** On the integer strings `StringToNumber` reads, `Number(s) > 0` is the
      comparison of that integer with zero. */
  lemma NumberIsPositiveOfInteger(s: string)
    ensures StringToNumber(s).Some? ==> (NumberIsPositive(s) <==> StringToNumber(s).value > 0)
  {
    var t := Trim(s);
    if StringToNumber(s).None? {
    } else if t == [] {
      assert IndexOfAny(t, {'e', 'E'}) == 0;
    } else if t[0] == '-' {
      DigitsValuePositive(t[1..]);
    } else if t[0] == '+' {
      UnsignedDecimalOfDigits(t[1..]);
    } else {
      UnsignedDecimalOfDigits(t);
      if |t| >= 3 { assert IsDigit(t[1]); }
    }
  }

  lemma {:induction false} NatToDecimalDigits(n: nat)
    ensures |NatToDecimal(n)| > 0
    ensures AllRadixDigits(NatToDecimal(n), 10)
    decreases n
  {
    if n >= 10 {
      NatToDecimalDigits(n / 10);
    }
  }

  /** Reading back a printed natural number gives the number. */
  lemma {:induction false} DecimalValue(n: nat)
    ensures AllRadixDigits(NatToDecimal(n), 10)
    ensures DigitsValue(NatToDecimal(n), 10) == n
    decreases n
  {
    NatToDecimalDigits(n);
    if n >= 10 {
      DecimalValue(n / 10);
      var s := NatToDecimal(n);
      assert s[..|s| - 1] == NatToDecimal(n / 10);
    }
  }

  /** The digit prefix of a digit string followed by a non-digit is that string. */
  lemma {:induction false} DigitPrefixStops(a: string, b: string, radix: nat)
    requires AllRadixDigits(a, radix)
    requires b == [] || !IsRadixDigit(b[0], radix)
    ensures DigitPrefix(a + b, radix) == a
    decreases |a|
  {
    if a == [] {
      assert a + b == b;
    } else {
      assert (a + b)[1..] == a[1..] + b;
      DigitPrefixStops(a[1..], b, radix);
    }
  }

  lemma MagnitudeOfDecimal(m: nat)
    ensures ParseMagnitude(NatToDecimal(m)) == Some(m)
  {
    var d := NatToDecimal(m);
    DecimalValue(m);
    NatToDecimalDigits(m);
    DigitPrefixStops(d, [], 10);
    assert d + [] == d;
    assert |d| >= 2 ==> IsDigit(d[1]);
  }

  /** `parseInt(String(n)) == n`: printing an integer and parsing it back is the
      identity. */
  lemma ParseIntOfDecimal(n: int)
    ensures ParseInt(IntToDecimal(n)) == Some(n)
  {
    var m: nat := if n < 0 then -n else n;
    MagnitudeOfDecimal(m);
    NatToDecimalDigits(m);
    var s := IntToDecimal(n);
    assert IsDigit(NatToDecimal(m)[0]);
    assert !IsSpace(s[0]);
    assert TrimStart(s) == s;
    if n < 0 {
      assert s[1..] == NatToDecimal(m);
    }
  }

  /** Decimal digits followed by white space: `parseInt` reads just the digits. */
  lemma {:induction false} MagnitudeBeforeSpace(u: string, tail: string)
    requires DecimalMagnitude(u).Some?
    requires AllSpace(tail)
    ensures ParseMagnitude(u + tail) == DecimalMagnitude(u)
  {
    DigitPrefixStops(u, tail, 10);
    var v := u + tail;
    if |v| >= 2 {
      assert v[1] == if |u| >= 2 then u[1] else tail[0];
    }
  }

  /** When `Number(s)` reads a numeral, `parseInt(s)` reads the same number. */
  lemma NumberAgreesWithParseInt(s: string)
    requires StringToNumber(s).Some? && Trim(s) != []
    ensures ParseInt(s) == StringToNumber(s)
  {
    var t := Trim(s);
    var u := TrimStart(s);
    TrimStartShape(s);
    TrimEndShape(u);
    var tail := u[|t|..];
    assert u == t + tail;
    if t[0] == '-' || t[0] == '+' {
      assert u[1..] == t[1..] + tail;
      MagnitudeBeforeSpace(t[1..], tail);
    } else {
      MagnitudeBeforeSpace(t, tail);
    }
  }

  // ---------------------------------------------------------------------------
  // Array methods

  /** `xs.filter(p)`. */
  function Filter<T(!new)>(xs: seq<T>, p: T -> bool): (r: seq<T>)
    ensures |r| <= |xs|
    ensures forall i :: 0 <= i < |r| ==> r[i] in xs && p(r[i])
    ensures forall i :: 0 <= i < |xs| && p(xs[i]) ==> xs[i] in r
  {
    if xs == [] then []
    else if p(xs[0]) then [xs[0]] + Filter(xs[1..], p)
    else Filter(xs[1..], p)
  }

  /** `filter` keeps every copy of a kept element: each element occurs in the
      result as often as in the input when it passes, and not at all when it
      fails. */
  lemma {:induction false} FilterCounts<T(!new)>(xs: seq<T>, p: T -> bool)
    ensures forall x :: multiset(Filter(xs, p))[x] == if p(x) then multiset(xs)[x] else 0
    decreases |xs|
  {
    if xs != [] {
      FilterCounts(xs[1..], p);
      assert xs == [xs[0]] + xs[1..];
    }
  }

  /** `s` can be obtained from `t` by deleting elements, keeping the order. */
  ghost predicate IsSubsequence<T>(s: seq<T>, t: seq<T>)
    decreases |t|
  {
    || s == []
    || (t != [] && ((s[0] == t[0] && IsSubsequence(s[1..], t[1..])) || IsSubsequence(s, t[1..])))
  }

  /** `filter` keeps the kept elements in their original order. */
  lemma {:induction false} FilterIsSubsequence<T(!new)>(xs: seq<T>, p: T -> bool)
    ensures IsSubsequence(Filter(xs, p), xs)
    decreases |xs|
  {
    if xs != [] {
      FilterIsSubsequence(xs[1..], p);
      var r := Filter(xs, p);
      if p(xs[0]) {
        assert r[0] == xs[0] && r[1..] == Filter(xs[1..], p);
      }
    }
  }

  /** A filter that every element passes changes nothing. */
  lemma {:induction false} FilterKeepsAll<T(!new)>(xs: seq<T>, p: T -> bool)
    requires forall i :: 0 <= i < |xs| ==> p(xs[i])
    ensures Filter(xs, p) == xs
    decreases |xs|
  {
    if xs != [] {
      FilterKeepsAll(xs[1..], p);
      assert [xs[0]] + xs[1..] == xs;
    }
  }

  /** The index `xs.findIndex(p)` returns, `None` for -1. */
  function FindIndex<T>(xs: seq<T>, p: T -> bool): (r: Option<nat>)
    ensures r.Some? ==> r.value < |xs| && p(xs[r.value])
    ensures r.Some? ==> forall j :: 0 <= j < r.value ==> !p(xs[j])
    ensures r.None? ==> forall j :: 0 <= j < |xs| ==> !p(xs[j])
  {
    if xs == [] then None
    else if p(xs[0]) then Some(0)
    else match FindIndex(xs[1..], p)
      case None => None
      case Some(k) => Some(k + 1)
  }

  /** Two predicates that agree on every element filter alike. */
  lemma {:induction false} FilterCongruence<T(!new)>(xs: seq<T>, p: T -> bool, q: T -> bool)
    requires forall i :: 0 <= i < |xs| ==> p(xs[i]) == q(xs[i])
    ensures Filter(xs, p) == Filter(xs, q)
    decreases |xs|
  {
    if xs != [] {
      FilterCongruence(xs[1..], p, q);
    }
  }

  /** Filtering a list that ends with a rejected element drops exactly it. */
  lemma {:induction false} FilterAppendRejected<T(!new)>(xs: seq<T>, x: T, p: T -> bool)
    requires !p(x)
    ensures Filter(xs + [x], p) == Filter(xs, p)
    decreases |xs|
  {
    if xs == [] {
      assert [x][1..] == [];
    } else {
      assert (xs + [x])[1..] == xs[1..] + [x];
      FilterAppendRejected(xs[1..], x, p);
    }
  }

  /** `xs.find(p)`: the first element satisfying `p`, `None` for `undefined`. */
  function Find<T>(xs: seq<T>, p: T -> bool): (r: Option<T>)
    ensures r.None? <==> forall j :: 0 <= j < |xs| ==> !p(xs[j])
    ensures r.Some? ==> exists i :: 0 <= i < |xs| && xs[i] == r.value && p(xs[i]) && forall j :: 0 <= j < i ==> !p(xs[j])
  {
    match FindIndex(xs, p)
    case None => None
    case Some(i) => Some(xs[i])
  }

  /** The element `find` returns is the element at every index that is the
      first match. */
  lemma FirstMatchIsUnique<T>(xs: seq<T>, p: T -> bool, found: Option<T>)
    requires found == Find(xs, p)
    ensures forall i :: 0 <= i < |xs| && p(xs[i]) && (forall j :: 0 <= j < i ==> !p(xs[j])) ==>
              found == Some(xs[i])
  {
    forall i | 0 <= i < |xs| && p(xs[i]) && (forall j :: 0 <= j < i ==> !p(xs[j]))
      ensures found == Some(xs[i])
    {
      assert found.Some?;
      var k :| 0 <= k < |xs| && xs[k] == found.value && p(xs[k]) && forall j :: 0 <= j < k ==> !p(xs[j]);
      assert k == i;
    }
  }
}
