/**
 * String operations the drive-test processor relies on: Python's `str.strip`,
 * `str.split(";")`, `in` on strings, decimal rendering of integers, `float()`
 * and `int()` on decimal text, and the `.2f` format used for every reported number.
 */
module Text {
  import opened Wrappers

  /**
   * The characters Python's `str.isspace()` accepts, which `str.strip()`
   * drops: the ASCII controls tab to carriage return and the file, group,
   * record and unit separators, the space, and the Unicode spaces and line
   * and paragraph separators.
   */
  predicate IsSpace(c: char) {
    ('\t' <= c <= '\r') || ('\U{001C}' <= c <= ' ') || c == '\U{0085}' || c == '\U{00A0}'
    || c == '\U{1680}' || ('\U{2000}' <= c <= '\U{200A}') || c == '\U{2028}' || c == '\U{2029}'
    || c == '\U{202F}' || c == '\U{205F}' || c == '\U{3000}'
  }

  /**
   * The whitespace `float()` and `int()` skip around a number. CPython turns
   * each non-ASCII space into ` ` and then skips only the ASCII space and tab
   * to carriage return, so the separators U+001C to U+001F, which
   * `str.strip()` drops, make the text malformed.
   */
  predicate IsNumberSpace(c: char) {
    IsSpace(c) && !('\U{001C}' <= c <= '\U{001F}')
  }

  predicate IsDigit(c: char) {
    '0' <= c <= '9'
  }

  predicate IsDigits(s: string) {
    forall i :: 0 <= i < |s| ==> IsDigit(s[i])
  }

  /** The whitespace a strip cuts off: `str.strip()`'s set, or with `number` the narrower set of `float()` and `int()`. */
  predicate Blank(c: char, number: bool) {
    if number then IsNumberSpace(c) else IsSpace(c)
  }

  predicate AllSpace(s: string) {
    forall i :: 0 <= i < |s| ==> IsSpace(s[i])
  }

  predicate AllBlank(s: string, number: bool) {
    forall i :: 0 <= i < |s| ==> Blank(s[i], number)
  }

  // ---------------------------------------------------------------- strip

  /** The first position at or after `i` that holds no whitespace, or `|s|`. */
  function Leading(s: string, i: nat, number: bool): (j: nat)
    requires i <= |s|
    ensures i <= j <= |s|
    ensures forall k :: i <= k < j ==> Blank(s[k], number)
    ensures j == |s| || !Blank(s[j], number)
    decreases |s| - i
  {
    if i < |s| && Blank(s[i], number) then Leading(s, i + 1, number) else i
  }

  /** The end of the prefix `s[..j]` once its trailing whitespace is dropped. */
  function Trailing(s: string, j: nat, number: bool): (i: nat)
    requires j <= |s|
    ensures i <= j
    ensures forall k :: i <= k < j ==> Blank(s[k], number)
    ensures i == 0 || !Blank(s[i - 1], number)
  {
    if j > 0 && Blank(s[j - 1], number) then Trailing(s, j - 1, number) else j
  }

  /** `s` with the whitespace of `Blank(_, number)` cut off both ends. */
  function Trim(s: string, number: bool): string {
    var b, e := Leading(s, 0, number), Trailing(s, |s|, number);
    if b < e then s[b..e] else ""
  }

  /** The trimmed text is the middle part of `s` that neither starts nor ends with such whitespace. */
  lemma TrimSpec(s: string, number: bool)
    ensures var r := Trim(s, number);
            && (r == "" || (!Blank(r[0], number) && !Blank(r[|r| - 1], number)))
            && ((r == "") <==> AllBlank(s, number))
            && exists b, e :: 0 <= b <= e <= |s| && r == s[b..e] && AllBlank(s[..b], number) && AllBlank(s[e..], number)
  {
    var b, e := Leading(s, 0, number), Trailing(s, |s|, number);
    if b < e {
      assert AllBlank(s[..b], number) && AllBlank(s[e..], number);
    } else {
      assert s[0..0] == "" && AllBlank(s[..0], number) && AllBlank(s[0..], number);
    }
  }

  /** Python's `s.strip()`: `s` with the `str.isspace()` characters cut off both ends. */
  function Strip(s: string): (r: string)
    ensures r == "" || (!IsSpace(r[0]) && !IsSpace(r[|r| - 1]))
    ensures (r == "") <==> AllSpace(s)
    ensures exists b, e :: 0 <= b <= e <= |s| && r == s[b..e] && AllSpace(s[..b]) && AllSpace(s[e..])
  {
    TrimSpec(s, false);
    Trim(s, false)
  }

  /** Python's truthiness of `s.strip()`: the text holds something other than whitespace. */
  predicate IsBlank(s: string) {
    Strip(s) == ""
  }

  // ---------------------------------------------------------------- substring

  predicate StartsWith(s: string, prefix: string) {
    |prefix| <= |s| && s[..|prefix|] == prefix
  }

  /** `sub` occurs in `s` starting at position `i`. */
  predicate OccursAt(s: string, sub: string, i: int) {
    0 <= i <= |s| - |sub| && s[i..i + |sub|] == sub
  }

  /** Python's `sub in s`: `sub` occurs in `s` at some position. */
  function Contains(s: string, sub: string): (b: bool)
    ensures b <==> exists i :: OccursAt(s, sub, i)
  {
    if StartsWith(s, sub) then
      assert OccursAt(s, sub, 0);
      true
    else if |s| == 0 then
      assert forall i :: !OccursAt(s, sub, i);
      false
    else
      var b := Contains(s[1..], sub);
      if b then
        var i :| OccursAt(s[1..], sub, i);
        assert s[1..][i..i + |sub|] == s[i + 1..i + 1 + |sub|];
        assert OccursAt(s, sub, i + 1);
        b
      else
        forall i | OccursAt(s, sub, i) && i > 0 ensures false {
          assert s[1..][i - 1..i - 1 + |sub|] == s[i..i + |sub|];
          assert OccursAt(s[1..], sub, i - 1);
        }
        b
  }

  // ---------------------------------------------------------------- split and join

  function CountChar(s: string, c: char): nat {
    if |s| == 0 then 0 else (if s[0] == c then 1 else 0) + CountChar(s[1..], c)
  }

  /** `parts` glued back together with `sep` between consecutive parts. */
  function Join(parts: seq<string>, sep: string): string {
    if |parts| == 0 then ""
    else if |parts| == 1 then parts[0]
    else parts[0] + sep + Join(parts[1..], sep)
  }

  /** Python's `s.split(sep)` for a one-character separator. */
  function Split(s: string, sep: char): (parts: seq<string>)
    ensures |parts| >= 1
  {
    if |s| == 0 then [""]
    else
      var rest := Split(s[1..], sep);
      if s[0] == sep then [""] + rest
      else [[s[0]] + rest[0]] + rest[1..]
  }

  /**
   * `split` gives one part more than there are separators (`"A;;"` gives
   * three parts, the empty text one part), no part holds the separator, and
   * joining the parts with it gives `s` back.
   */
  lemma {:induction false} SplitSpec(s: string, sep: char)
    ensures |Split(s, sep)| == CountChar(s, sep) + 1
    ensures forall i :: 0 <= i < |Split(s, sep)| ==> sep !in Split(s, sep)[i]
    ensures Join(Split(s, sep), [sep]) == s
  {
    if |s| > 0 {
      SplitSpec(s[1..], sep);
      var rest := Split(s[1..], sep);
      var parts := Split(s, sep);
      if s[0] == sep {
        assert parts[1..] == rest;
        assert s == [sep] + s[1..];
      } else {
        assert |rest| == 1 ==> Join(rest, [sep]) == rest[0];
        assert |rest| > 1 ==> Join(rest, [sep]) == rest[0] + [sep] + Join(rest[1..], [sep]);
        assert |parts| > 1 ==> parts[1..] == rest[1..];
        assert s == [s[0]] + s[1..];
      }
    }
  }

  // ---------------------------------------------------------------- decimal digits

  function DigitChar(d: nat): (c: char)
    requires d < 10
    ensures IsDigit(c) && DigitValue(c) == d
  {
    (('0' as int) + d) as char
  }

  function DigitValue(c: char): (d: nat)
    requires IsDigit(c)
    ensures d < 10
  {
    (c as int) - ('0' as int)
  }

  /** The number a string of decimal digits denotes; the empty string denotes 0. */
  function DigitsValue(s: string): nat
    requires IsDigits(s)
  {
    if |s| == 0 then 0 else DigitsValue(s[..|s| - 1]) * 10 + DigitValue(s[|s| - 1])
  }

  /** Python's `str(n)` for a natural number: non-empty decimal digits that denote `n`. */
  function NatToString(n: nat): (r: string)
    ensures |r| >= 1 && IsDigits(r)
    ensures DigitsValue(r) == n
    ensures |r| == 1 || r[0] != '0'
  {
    if n < 10 then
      [DigitChar(n)]
    else
      var r := NatToString(n / 10) + [DigitChar(n % 10)];
      assert r[..|r| - 1] == NatToString(n / 10);
      assert r[0] == NatToString(n / 10)[0];
      r
  }

  function Pow10(k: nat): (p: nat)
    ensures p >= 1
  {
    if k == 0 then 1 else 10 * Pow10(k - 1)
  }

  // ---------------------------------------------------------------- numeric parsing

  /** A plain decimal without sign: digits, optionally a `.` and more digits, at least one digit in all. */
  function ParseUnsignedDecimal(body: string): Option<real> {
    var parts := Split(body, '.');
    if |parts| == 1 then
      if |body| > 0 && IsDigits(body) then Some(DigitsValue(body) as real) else None
    else if |parts| == 2 then
      var whole, frac := parts[0], parts[1];
      if IsDigits(whole) && IsDigits(frac) && |whole| + |frac| > 0 then
        Some(DigitsValue(whole) as real + DigitsValue(frac) as real / Pow10(|frac|) as real)
      else None
    else None
  }

  /**
   * Python's `float(s)` on decimal text: surrounding whitespace is ignored and
   * a leading `+` or `-` is allowed; anything else that is not a decimal is a
   * `ValueError`, here `None`.
   */
  function ParseReal(s: string): Option<real> {
    ParseSignedDecimal(Trim(s, true))
  }

  /** `float()` rejects a trailing file separator that `str.strip()` would drop. */
  lemma SeparatorIsNotNumberSpace()
    ensures Strip("1\U{001C}") == "1"
    ensures ParseReal("1\U{001C}") == None
    ensures ParseInt("1\U{001C}") == None
  {
    var s := "1\U{001C}";
    assert Leading(s, 0, true) == 0;
    assert Trailing(s, 2, true) == 2;
    assert Trim(s, true) == s;
    assert !IsDigits(s);
    SplitWithout(s, '.');
  }

  /** A decimal with an optional leading `+` or `-`. */
  function ParseSignedDecimal(t: string): Option<real> {
    if |t| > 0 && (t[0] == '-' || t[0] == '+') then
      match ParseUnsignedDecimal(t[1..])
      case None => None
      case Some(v) => Some(if t[0] == '-' then -v else v)
    else
      ParseUnsignedDecimal(t)
  }

  /** Python's `int(s)` on decimal text, with surrounding whitespace and an optional sign. */
  function ParseInt(s: string): Option<int> {
    var t := Trim(s, true);
    var neg := |t| > 0 && t[0] == '-';
    var digits := if |t| > 0 && (t[0] == '-' || t[0] == '+') then t[1..] else t;
    if |digits| > 0 && IsDigits(digits) then
      Some(if neg then -(DigitsValue(digits) as int) else DigitsValue(digits) as int)
    else None
  }

  // ---------------------------------------------------------------- `.2f` formatting

  function Abs(x: real): real {
    if x < 0.0 then -x else x
  }

  /** Rounds to the nearest integer, ties to the even one. */
  function RoundHalfEven(x: real): (n: int)
    requires x >= 0.0
    ensures n >= 0
    ensures -0.5 <= x - n as real <= 0.5
    ensures x - n as real == 0.5 || n as real - x == 0.5 ==> n % 2 == 0
  {
    var f := x.Floor;
    var d := x - f as real;
    if d > 0.5 then f + 1
    else if d < 0.5 then f
    else if f % 2 == 0 then f else f + 1
  }

  /** The magnitude of `x` in hundredths, rounded as `.2f` rounds. */
  function Cents(x: real): nat {
    RoundHalfEven(Abs(x) * 100.0)
  }

  /** `v` with a minus sign when `neg`. */
  function Signed(neg: bool, v: real): real {
    if neg then -v else v
  }

  /** The sign `.2f` writes: `-` when `neg`, else nothing. */
  function SignText(neg: bool): string {
    if neg then "-" else ""
  }

  /** The value `f"{x:.2f}"` stands for: `x` rounded to two decimals. */
  function Round2(x: real): real {
    Signed(x < 0.0, Cents(x) as real / 100.0)
  }

  /** A count of hundredths written as digits, a point and exactly two more digits. */
  function CentsText(c: nat): string {
    PointText(NatToString(c / 100), c % 100)
  }

  /** The digits `whole`, a point, and the hundredths `f` in exactly two digits. */
  function PointText(whole: string, f: nat): string
    requires f < 100
  {
    whole + "." + [DigitChar(f / 10), DigitChar(f % 10)]
  }

  /** Python's `f"{x:.2f}"` on the exact value `x`: a `-` for negative `x`, then its rounded magnitude. */
  function Fixed2(x: real): string {
    SignText(x < 0.0) + CentsText(Cents(x))
  }

  // ---------------------------------------------------------------- read-back of `.2f` text

  lemma {:induction false} TrimUnpadded(s: string)
    requires s == "" || (!IsNumberSpace(s[0]) && !IsNumberSpace(s[|s| - 1]))
    ensures Trim(s, true) == s
  {
  }

  lemma {:induction false} SplitWithout(a: string, sep: char)
    requires sep !in a
    ensures Split(a, sep) == [a]
  {
    if |a| > 0 {
      SplitWithout(a[1..], sep);
      assert [a[0]] + a[1..] == a;
    }
  }

  lemma {:induction false} SplitOnce(a: string, sep: char, b: string)
    requires sep !in a && sep !in b
    ensures Split(a + [sep] + b, sep) == [a, b]
  {
    var s := a + [sep] + b;
    if |a| == 0 {
      assert s[1..] == b;
      SplitWithout(b, sep);
    } else {
      assert s[1..] == a[1..] + [sep] + b;
      SplitOnce(a[1..], sep, b);
      assert [a[0]] + a[1..] == a;
    }
  }

  lemma {:induction false} DigitsHaveNoPoint(s: string)
    requires IsDigits(s)
    ensures '.' !in s
  {
  }

  lemma {:induction false} TwoDigits(a: nat)
    requires a < 100
    ensures DigitsValue([DigitChar(a / 10), DigitChar(a % 10)]) == a
  {
    PairValue(a / 10, a % 10);
  }

  lemma {:induction false} PairValue(x: nat, y: nat)
    requires x < 10 && y < 10
    ensures DigitsValue([DigitChar(x), DigitChar(y)]) == 10 * x + y
  {
    var pair := [DigitChar(x), DigitChar(y)];
    assert pair[..1] == [DigitChar(x)];
    assert pair[..1][..0] == [];
    assert DigitsValue(pair[..1]) == x;
    assert pair[|pair| - 1] == DigitChar(y);
  }

  lemma {:induction false} PointTextValue(whole: string, f: nat)
    requires IsDigits(whole) && f < 100
    ensures ParseUnsignedDecimal(PointText(whole, f)) == Some(DigitsValue(whole) as real + f as real / 100.0)
  {
    var frac := [DigitChar(f / 10), DigitChar(f % 10)];
    DigitsHaveNoPoint(whole);
    DigitsHaveNoPoint(frac);
    SplitOnce(whole, '.', frac);
    assert PointText(whole, f) == whole + ['.'] + frac;
    TwoDigits(f);
    assert Pow10(|frac|) == 100;
  }

  lemma {:induction false} ParseSignedDigits(neg: bool, body: string, v: real)
    requires |body| > 0 && IsDigit(body[0]) && ParseUnsignedDecimal(body) == Some(v)
    ensures ParseSignedDecimal(SignText(neg) + body) == Some(Signed(neg, v))
  {
    var t := SignText(neg) + body;
    if neg {
      assert t[0] == '-' && t[1..] == body;
    } else {
      assert t == body;
      assert !(t[0] == '-' || t[0] == '+');
    }
  }

  lemma {:induction false} CentsTextValue(c: nat)
    ensures ParseUnsignedDecimal(CentsText(c)) == Some(c as real / 100.0)
  {
    var whole := NatToString(c / 100);
    PointTextValue(whole, c % 100);
    CentsSplit(c);
  }

  lemma {:induction false} CentsTextEnds(c: nat)
    ensures |CentsText(c)| > 0 && IsDigit(CentsText(c)[0]) && IsDigit(CentsText(c)[|CentsText(c)| - 1])
  {
    PointTextEnds(NatToString(c / 100), c % 100);
  }

  lemma {:induction false} SignedValue(neg: bool, body: string, v: real)
    requires |body| > 0 && IsDigit(body[0]) && IsDigit(body[|body| - 1])
    requires ParseUnsignedDecimal(body) == Some(v)
    ensures ParseReal(SignText(neg) + body) == Some(Signed(neg, v))
  {
    SignedUnpadded(neg, body);
    ParseSignedDigits(neg, body, v);
  }

  lemma {:induction false} PointTextEnds(whole: string, f: nat)
    requires |whole| > 0 && IsDigits(whole) && f < 100
    ensures |PointText(whole, f)| > 0 && IsDigit(PointText(whole, f)[0])
    ensures IsDigit(PointText(whole, f)[|PointText(whole, f)| - 1])
  {
    assert PointText(whole, f)[0] == whole[0];
  }

  /** Hundredths split into whole units and the rest. */
  lemma {:induction false} CentsSplit(c: nat)
    ensures c as real / 100.0 == (c / 100) as real + (c % 100) as real / 100.0
  {
    assert c == 100 * (c / 100) + c % 100;
  }

  lemma {:induction false} SignedUnpadded(neg: bool, body: string)
    requires |body| > 0 && IsDigit(body[0]) && IsDigit(body[|body| - 1])
    ensures Trim(SignText(neg) + body, true) == SignText(neg) + body
  {
    var t := SignText(neg) + body;
    assert t[|t| - 1] == body[|body| - 1];
    TrimUnpadded(t);
  }

  /**
   * Reading a `.2f` rendering back with `float()` gives the rounded value:
   * `float(f"{x:.2f}")` and `round(x, 2)` agree (for exact values).
   */
  lemma {:induction false} ParseFixed2(x: real)
    ensures ParseReal(Fixed2(x)) == Some(Round2(x))
  {
    var c := Cents(x);
    CentsTextEnds(c);
    CentsTextValue(c);
    assert Fixed2(x) == SignText(x < 0.0) + CentsText(c);
    assert Round2(x) == Signed(x < 0.0, c as real / 100.0);
    SignedValue(x < 0.0, CentsText(c), c as real / 100.0);
  }
}
