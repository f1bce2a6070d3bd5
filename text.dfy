/**
 * String helpers that the source borrows from JavaScript: `parseInt(s, 10)`,
 * the decimal rendering of a number in a template literal, `toLowerCase`,
 * and the code-unit order used when rows are ordered by a text column.
 */
module Text {
  import opened Wrappers

  predicate IsDigit(c: char) {
    '0' <= c <= '9'
  }

  /**
   * The whitespace that `parseInt` skips before the number: tab, line feed,
   * vertical tab, form feed, carriage return, the byte-order mark, the line
   * and paragraph separators, and every space separator of Unicode (space,
   * no-break space, ogham space mark, the spaces U+2000 to U+200A, narrow
   * no-break space, medium mathematical space, ideographic space).
   */
  predicate IsSpace(c: char) {
    || '\U{0009}' <= c <= '\U{000D}'
    || c == ' ' || c == '\U{00A0}' || c == '\U{1680}'
    || '\U{2000}' <= c <= '\U{200A}'
    || c == '\U{2028}' || c == '\U{2029}' || c == '\U{202F}' || c == '\U{205F}'
    || c == '\U{3000}' || c == '\U{FEFF}'
  }

  predicate AllDigits(s: string) {
    forall i :: 0 <= i < |s| ==> IsDigit(s[i])
  }

  function DigitValue(c: char): (d: nat)
    requires IsDigit(c)
    ensures d < 10
  {
    (c as int) - ('0' as int)
  }

  function DigitChar(d: nat): (c: char)
    requires d < 10
    ensures IsDigit(c) && DigitValue(c) == d
  {
    ('0' as int + d) as char
  }

  /** The number written by a string of decimal digits, most significant first. */
  function DigitsValue(s: string): nat
    requires AllDigits(s)
  {
    if s == [] then 0 else DigitsValue(s[..|s| - 1]) * 10 + DigitValue(s[|s| - 1])
  }

  /** Length of the longest prefix of `s` made of decimal digits. */
  function DigitRun(s: string): (n: nat)
    ensures n <= |s| && AllDigits(s[..n])
    ensures n < |s| ==> !IsDigit(s[n])
  {
    if s == [] || !IsDigit(s[0]) then 0
    else
      var n := 1 + DigitRun(s[1..]);
      assert s[..n] == [s[0]] + s[1..][..n - 1];
      n
  }

  /** `s` without its leading whitespace. */
  function TrimStart(s: string): (t: string)
    ensures t <= s || (|t| <= |s| && t == s[|s| - |t|..])
    ensures t != [] ==> !IsSpace(t[0])
  {
    if s != [] && IsSpace(s[0]) then TrimStart(s[1..]) else s
  }

  /**
   * JavaScript's `parseInt(s, 10)`: skip leading whitespace, read an optional
   * sign, then the longest run of decimal digits; `None` stands for `NaN`
   * (no digit where the number should start). Anything after the digits is ignored.
   */
  function ParseInt(s: string): (r: Option<int>)
  {
    ParseTrimmed(TrimStart(s))
  }

  /** What `parseInt` reads once the leading whitespace is gone. */
  function ParseTrimmed(t: string): (r: Option<int>)
  {
    var negative := |t| > 0 && t[0] == '-';
    var body := if |t| > 0 && (t[0] == '-' || t[0] == '+') then t[1..] else t;
    var n := DigitRun(body);
    if n == 0 then None
    else
      var v: int := DigitsValue(body[..n]);
      Some(if negative then -v else v)
  }

  /** Decimal rendering of a natural number, as a template literal prints it. */
  function ShowNat(n: nat): (s: string)
    ensures s != [] && AllDigits(s)
  {
    if n < 10 then [DigitChar(n)] else ShowNat(n / 10) + [DigitChar(n % 10)]
  }

  /** Decimal rendering of an integer, with a leading `-` when it is negative. */
  function ShowInt(i: int): string {
    if i < 0 then "-" + ShowNat(-i) else ShowNat(i)
  }

  lemma {:induction false} ShowNatValue(n: nat)
    ensures DigitsValue(ShowNat(n)) == n
  {
    if n >= 10 {
      var s := ShowNat(n);
      ShowNatValue(n / 10);
      assert s[..|s| - 1] == ShowNat(n / 10);
    }
  }

  lemma {:induction false} DigitRunOfDigitsThenOther(digits: string, rest: string)
    requires AllDigits(digits)
    requires rest == [] || !IsDigit(rest[0])
    ensures DigitRun(digits + rest) == |digits|
  {
    if digits != [] {
      assert (digits + rest)[1..] == digits[1..] + rest;
      DigitRunOfDigitsThenOther(digits[1..], rest);
    }
  }

  /**
   * `parseInt` reads back the decimal rendering of a natural number even when
   * other text follows it, as long as that text does not start with a digit.
   */
  lemma ParseIntDigitPrefix(n: nat, rest: string)
    requires rest == [] || !IsDigit(rest[0])
    ensures ParseInt(ShowNat(n) + rest) == Some(n)
  {
    var s := ShowNat(n) + rest;
    assert s[0] == ShowNat(n)[0];
    assert TrimStart(s) == s;
    DigitRunOfDigitsThenOther(ShowNat(n), rest);
    assert s[..|ShowNat(n)|] == ShowNat(n);
    ShowNatValue(n);
  }

  /** `parseInt` reads back a minus sign followed by the rendering of a natural number. */
  lemma ParseIntMinus(n: nat)
    ensures ParseInt(['-'] + ShowNat(n)) == Some(-(n as int))
  {
    var digits := ShowNat(n);
    var s := ['-'] + digits;
    assert s[0] == '-' && s[1..] == digits;
    assert TrimStart(s) == s;
    DigitRunOfDigitsThenOther(digits, []);
    assert digits + [] == digits;
    assert digits[..|digits|] == digits;
    ShowNatValue(n);
  }

  /** Round trip: `parseInt` of an integer's rendering gives the integer back. */
  lemma ParseIntShowInt(i: int)
    ensures ParseInt(ShowInt(i)) == Some(i)
  {
    if i < 0 {
      assert ShowInt(i) == ['-'] + ShowNat(-i);
      ParseIntMinus(-i);
    } else {
      ParseIntDigitPrefix(i, []);
      assert ShowNat(i) + [] == ShowNat(i);
    }
  }

  /** Leading whitespace does not change what `parseInt` reads. */
  lemma ParseIntSkipsSpace(c: char, s: string)
    requires IsSpace(c)
    ensures ParseInt([c] + s) == ParseInt(s)
  {
    assert ([c] + s)[1..] == s;
  }

  /** `parseInt` of a string that does not start (after blanks and a sign) with a digit is `NaN`. */
  lemma ParseIntNoDigit(s: string)
    requires s != [] && !IsDigit(s[0]) && !IsSpace(s[0]) && s[0] != '-' && s[0] != '+'
    ensures ParseInt(s) == None
  {
  }

  /** `toLowerCase` on one character (ASCII letters only). */
  function LowerChar(c: char): (l: char)
    ensures 'A' <= c <= 'Z' ==> 'a' <= l <= 'z' && l as int == c as int + 32
    ensures !('A' <= c <= 'Z') ==> l == c
  {
    if 'A' <= c <= 'Z' then (c as int + 32) as char else c
  }

  /** `toLowerCase` on a string, character by character. */
  function Lower(s: string): (l: string)
    ensures |l| == |s|
  {
    if s == [] then [] else [LowerChar(s[0])] + Lower(s[1..])
  }

  lemma {:induction false} LowerPointwise(s: string)
    ensures forall i :: 0 <= i < |s| ==> Lower(s)[i] == LowerChar(s[i])
  {
    if s != [] {
      LowerPointwise(s[1..]);
      forall i | 1 <= i < |s| ensures Lower(s)[i] == LowerChar(s[i]) {
        assert Lower(s)[i] == Lower(s[1..])[i - 1];
      }
    }
  }

  /** Lexicographic order on strings by character code. */
  predicate StrLe(a: string, b: string) {
    if a == [] then true
    else if b == [] then false
    else if a[0] != b[0] then a[0] < b[0]
    else StrLe(a[1..], b[1..])
  }

  lemma {:induction false} StrLeTotal(a: string, b: string)
    ensures StrLe(a, b) || StrLe(b, a)
  {
    if a != [] && b != [] && a[0] == b[0] {
      StrLeTotal(a[1..], b[1..]);
    }
  }

  lemma {:induction false} StrLeTransitive(a: string, b: string, c: string)
    requires StrLe(a, b) && StrLe(b, c)
    ensures StrLe(a, c)
  {
    if a != [] && b != [] && c != [] && a[0] == b[0] && b[0] == c[0] {
      StrLeTransitive(a[1..], b[1..], c[1..]);
    }
  }
}
