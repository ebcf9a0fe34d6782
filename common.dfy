/**
 * Small value-level helpers shared by every module of the model: an optional
 * value, the string operations Python and JavaScript perform on text (ASCII
 * case mapping, substring search, prefix slicing, decimal rendering and
 * parsing), splitting and joining on a separator, and the lexicographic
 * order SQLite and Python use to sort text.
 */
module Common {

  datatype Option<T> = None | Some(value: T)

  // ---------------------------------------------------------------------------
  // Characters and case
  // ---------------------------------------------------------------------------

  predicate IsAsciiUpper(c: char) { 'A' <= c <= 'Z' }
  predicate IsAsciiLower(c: char) { 'a' <= c <= 'z' }
  predicate IsAsciiLetter(c: char) { IsAsciiUpper(c) || IsAsciiLower(c) }
  predicate IsDigit(c: char) { '0' <= c <= '9' }

  function LowerChar(c: char): char {
    if IsAsciiUpper(c) then (c as int + 32) as char else c
  }

  function UpperChar(c: char): char {
    if IsAsciiLower(c) then (c as int - 32) as char else c
  }

  /** `str.lower()` restricted to ASCII letters (SQLite's LIKE folds the same set). */
  function Lower(s: string): string {
    seq(|s|, i requires 0 <= i < |s| => LowerChar(s[i]))
  }

  /**
   * `str.title()` over ASCII: a letter is upper-cased when the character
   * before it is not a letter, and lower-cased otherwise.
   */
  function TitleCase(s: string): string {
    seq(|s|, i requires 0 <= i < |s| =>
      if i == 0 || !IsAsciiLetter(s[i - 1]) then UpperChar(s[i]) else LowerChar(s[i]))
  }

  // ---------------------------------------------------------------------------
  // Substrings and slicing
  // ---------------------------------------------------------------------------

  /** `sub in s` for Python strings. */
  predicate IsSubstring(sub: string, s: string) {
    exists i | 0 <= i <= |s| - |sub| :: OccursAt(sub, s, i)
  }

  predicate OccursAt(sub: string, s: string, i: int)
    requires 0 <= i <= |s| - |sub|
  {
    s[i..i + |sub|] == sub
  }

  /** Django's `__icontains` lookup on SQLite: case-insensitive for ASCII letters. */
  predicate ContainsIgnoreCase(s: string, sub: string) {
    IsSubstring(Lower(sub), Lower(s))
  }

  /**
   * Python's `s[:n]`: a non-negative `n` keeps the first `n` items (all of
   * them when `n` exceeds the length); a negative `n` drops the last `-n`.
   */
  function SlicePrefix<T>(s: seq<T>, n: int): (r: seq<T>)
    ensures 0 <= n ==> |r| == if n < |s| then n else |s|
    ensures n < 0 ==> |r| == if -n < |s| then |s| + n else 0
    ensures r <= s
  {
    if 0 <= n then (if n < |s| then s[..n] else s)
    else if -n < |s| then s[..|s| + n] else []
  }

  // ---------------------------------------------------------------------------
  // Decimal numbers
  // ---------------------------------------------------------------------------

  function DigitChar(d: int): char
    requires 0 <= d < 10
  {
    ('0' as int + d) as char
  }

  function DigitValue(c: char): int
    requires IsDigit(c)
  {
    c as int - '0' as int
  }

  predicate AllDigits(s: string) {
    forall i | 0 <= i < |s| :: IsDigit(s[i])
  }

  /** `str(n)` for a non-negative integer: its decimal digits, no leading zero. */
  function NatToString(n: nat): (r: string)
    ensures |r| > 0 && AllDigits(r)
    decreases n
  {
    if n < 10 then [DigitChar(n)] else NatToString(n / 10) + [DigitChar(n % 10)]
  }

  /** `str(i)` for any integer, and a JavaScript template of an integral number. */
  function IntToString(i: int): string {
    if i < 0 then "-" + NatToString(-i) else NatToString(i)
  }

  /** The value of a string of decimal digits, leading zeros included. */
  function DigitsValue(s: string): nat
    requires AllDigits(s)
  {
    if s == [] then 0 else DigitsValue(s[..|s| - 1]) * 10 + DigitValue(s[|s| - 1])
  }

  /** `'%0*d' % (width, n)`: the decimal digits of `n`, left-padded with zeros. */
  function ZeroPad(n: nat, width: nat): (r: string)
    ensures AllDigits(r)
    ensures |r| == if |NatToString(n)| < width then width else |NatToString(n)|
  {
    var digits := NatToString(n);
    if |digits| < width then seq(width - |digits|, _ => '0') + digits else digits
  }

  lemma {:induction false} DigitsValueAppend(s: string, c: char)
    requires AllDigits(s) && IsDigit(c)
    ensures AllDigits(s + [c]) && DigitsValue(s + [c]) == DigitsValue(s) * 10 + DigitValue(c)
  {
    assert (s + [c])[..|s|] == s;
  }

  /** A string of `n` digits stands for a number below 10^n. */
  lemma {:induction false} DigitsValueBelow(s: string)
    requires AllDigits(s)
    ensures DigitsValue(s) < Pow10(|s|)
    decreases |s|
  {
    if s != [] {
      var init := s[..|s| - 1];
      DigitsValueBelow(init);
      assert DigitsValue(init) * 10 <= Pow10(|init|) * 10 - 10;
    }
  }

  lemma TwoDigitsValue(t: string)
    requires |t| == 2 && AllDigits(t)
    ensures DigitsValue(t) == DigitValue(t[0]) * 10 + DigitValue(t[1])
  {
    var first := t[..1];
    assert first[..0] == [] && first[0] == t[0];
    assert DigitsValue(first) == DigitValue(t[0]);
  }

  /** Reading back what `NatToString` printed gives the number again. */
  lemma {:induction false} NatToStringRoundTrip(n: nat)
    ensures DigitsValue(NatToString(n)) == n
    decreases n
  {
    if n >= 10 {
      NatToStringRoundTrip(n / 10);
      DigitsValueAppend(NatToString(n / 10), DigitChar(n % 10));
    }
  }

  lemma {:induction false} LeadingZerosIgnored(k: nat, s: string)
    requires AllDigits(s)
    ensures AllDigits(seq(k, _ => '0') + s)
    ensures DigitsValue(seq(k, _ => '0') + s) == DigitsValue(s)
    decreases |s|
  {
    var z: string := seq(k, _ => '0');
    if s == [] {
      assert z + s == z;
      ZerosValue(k);
    } else {
      var init := s[..|s| - 1];
      LeadingZerosIgnored(k, init);
      assert z + s == (z + init) + [s[|s| - 1]];
      DigitsValueAppend(z + init, s[|s| - 1]);
    }
  }

  lemma {:induction false} ZerosValue(k: nat)
    ensures AllDigits(seq(k, _ => '0'))
    ensures DigitsValue(seq(k, _ => '0')) == 0
  {
    if k > 0 {
      var z: string := seq(k, _ => '0');
      assert z[..k - 1] == seq(k - 1, _ => '0');
      ZerosValue(k - 1);
    }
  }

  /** A zero-padded rendering still reads back as the number it renders. */
  lemma ZeroPadRoundTrip(n: nat, width: nat)
    ensures DigitsValue(ZeroPad(n, width)) == n
  {
    var digits := NatToString(n);
    NatToStringRoundTrip(n);
    if |digits| < width {
      LeadingZerosIgnored(width - |digits|, digits);
    }
  }

  /**
   * The ASCII characters Python counts as white space, which `str.strip()`
   * and `int()` remove: blank, tab, newline, vertical tab, form feed,
   * carriage return, and the four separators \x1c to \x1f.
   */
  predicate IsSpace(c: char) {
    c == ' ' || '\t' <= c <= '\r' || '\U{001C}' <= c <= '\U{001F}'
  }

  /** `s` without its leading white space. */
  function TrimStart(s: string): (r: string)
    ensures |r| <= |s| && r == s[|s| - |r|..]
    ensures r == [] || !IsSpace(r[0])
    ensures forall i | 0 <= i < |s| - |r| :: IsSpace(s[i])
  {
    if s != [] && IsSpace(s[0]) then TrimStart(s[1..]) else s
  }

  /** `s` without its trailing white space. */
  function TrimEnd(s: string): (r: string)
    ensures |r| <= |s| && r == s[..|r|]
    ensures r == [] || !IsSpace(r[|r| - 1])
    ensures forall i | |r| <= i < |s| :: IsSpace(s[i])
  {
    if s != [] && IsSpace(s[|s| - 1]) then TrimEnd(s[..|s| - 1]) else s
  }

  predicate AllSpace(s: string) {
    forall i | 0 <= i < |s| :: IsSpace(s[i])
  }

  /** `s.strip()` on ASCII white space. */
  function Strip(s: string): string {
    TrimEnd(TrimStart(s))
  }

  /**
   * The digit part of an integer literal: digits, with single underscores
   * allowed between two digits. The result is the digits without the
   * underscores; anything else gives None.
   */
  function DigitGroups(s: string): (r: Option<string>)
    ensures r.Some? ==> r.value != [] && AllDigits(r.value) && |r.value| <= |s|
    ensures r.Some? ==> IsDigit(s[0]) && IsDigit(s[|s| - 1])
    ensures s != [] && AllDigits(s) ==> r == Some(s)
  {
    if s == [] || !IsDigit(s[0]) then None
    else if |s| == 1 then Some(s)
    else if s[1] == '_' then
      match DigitGroups(s[2..])
      case None => None
      case Some(d) => Some([s[0]] + d)
    else
      match DigitGroups(s[1..])
      case None => None
      case Some(d) => assert s == [s[0]] + s[1..]; Some([s[0]] + d)
  }

  /**
   * Python's `int(s)` on a string: surrounding white space is ignored, then
   * an optional sign and digits in which single underscores may separate two
   * digits; anything else raises ValueError (here: None).
   */
  function ParseInt(s: string): Option<int> {
    SignedDigits(Strip(s))
  }

  /** An optional sign followed by the digit part of an integer literal. */
  function SignedDigits(t: string): Option<int> {
    if |t| > 0 && (t[0] == '-' || t[0] == '+') then
      match DigitGroups(t[1..])
      case None => None
      case Some(d) =>
        var magnitude: int := DigitsValue(d);
        Some(if t[0] == '-' then -magnitude else magnitude)
    else
      match DigitGroups(t)
      case None => None
      case Some(d) => Some(DigitsValue(d))
  }

  /** Text with no white space at either end is left alone by `strip()`. */
  lemma StripKeepsTrimmed(t: string)
    requires t == [] || (!IsSpace(t[0]) && !IsSpace(t[|t| - 1]))
    ensures Strip(t) == t
  {
  }

  lemma ParseIntOfTrimmed(t: string)
    requires t == [] || (!IsSpace(t[0]) && !IsSpace(t[|t| - 1]))
    ensures ParseInt(t) == SignedDigits(t)
  {
    StripKeepsTrimmed(t);
  }

  lemma SignedDigitsNegative(d: string)
    requires d != [] && AllDigits(d)
    ensures SignedDigits("-" + d) == Some(-(DigitsValue(d) as int))
  {
    NegatedDigitGroups(d);
  }

  lemma NegatedDigitGroups(d: string)
    requires DigitGroups(d) == Some(d)
    ensures SignedDigits("-" + d) == Some(-(DigitsValue(d) as int))
  {
    var t := "-" + d;
    assert t[1..] == d;
  }

  /** `int(str(i)) == i`. */
  lemma ParseIntRoundTrip(i: int)
    ensures ParseInt(IntToString(i)) == Some(i)
  {
    if i < 0 {
      NegativeRoundTrip(-i);
    } else {
      var t := IntToString(i);
      assert IsDigit(t[0]) && IsDigit(t[|t| - 1]);
      ParseIntOfTrimmed(t);
      NatToStringRoundTrip(i);
    }
  }

  lemma NegativeRoundTrip(n: nat)
    requires n > 0
    ensures ParseInt(IntToString(-(n as int))) == Some(-(n as int))
  {
    var digits := NatToString(n);
    var t := "-" + digits;
    assert IntToString(-(n as int)) == t;
    assert t[|t| - 1] == digits[|digits| - 1];
    ParseIntOfTrimmed(t);
    NatToStringRoundTrip(n);
    SignedDigitsNegative(digits);
  }

  lemma {:induction false} TrimStartSkipsBlanks(pre: string, t: string)
    requires AllSpace(pre) && (t == [] || !IsSpace(t[0]))
    ensures TrimStart(pre + t) == t
    decreases |pre|
  {
    if pre != [] {
      assert (pre + t)[1..] == pre[1..] + t;
      TrimStartSkipsBlanks(pre[1..], t);
    } else {
      assert pre + t == t;
    }
  }

  lemma {:induction false} TrimEndSkipsBlanks(t: string, post: string)
    requires AllSpace(post) && (t == [] || !IsSpace(t[|t| - 1]))
    ensures TrimEnd(t + post) == t
    decreases |post|
  {
    if post != [] {
      var shorter := post[..|post| - 1];
      assert (t + post)[..|t + post| - 1] == t + shorter;
      TrimEndSkipsBlanks(t, shorter);
    } else {
      assert t + post == t;
    }
  }

  /** `int()` ignores white space around the number. */
  lemma ParseIntIgnoresBlanks(pre: string, t: string, post: string)
    requires AllSpace(pre) && AllSpace(post)
    requires t != [] && !IsSpace(t[0]) && !IsSpace(t[|t| - 1])
    ensures ParseInt(pre + t + post) == ParseInt(t)
  {
    assert pre + t + post == pre + (t + post);
    assert (t + post)[0] == t[0];
    TrimStartSkipsBlanks(pre, t + post);
    TrimEndSkipsBlanks(t, post);
    StripKeepsTrimmed(t);
  }

  lemma DigitGroupsCons(c: char, s: string)
    requires IsDigit(c) && DigitGroups(s).Some?
    ensures DigitGroups([c] + s) == Some([c] + DigitGroups(s).value)
    ensures DigitGroups([c, '_'] + s) == Some([c] + DigitGroups(s).value)
  {
    var t := [c] + s;
    assert t[0] == c && t[1] == s[0] && t[1..] == s;
    var u := [c, '_'] + s;
    assert u[0] == c && u[1] == '_' && u[2..] == s;
  }

  /** An underscore between two digits is ignored: `int("1_000") == int("1000")`. */
  lemma ParseIntAcceptsUnderscore(c: char, d: string)
    requires IsDigit(c) && d != [] && AllDigits(d)
    ensures ParseInt([c, '_'] + d) == ParseInt([c] + d)
    ensures ParseInt([c, '_'] + d).Some?
  {
    var u := [c, '_'] + d;
    var t := [c] + d;
    assert u[|u| - 1] == d[|d| - 1] && t[|t| - 1] == d[|d| - 1];
    ParseIntOfTrimmed(u);
    ParseIntOfTrimmed(t);
    DigitGroupsCons(c, d);
  }

  lemma {:induction false} DigitGroupsRefuseDoubleUnderscore(s: string, i: nat)
    requires i + 1 < |s| && s[i] == '_' && s[i + 1] == '_'
    ensures DigitGroups(s) == None
    decreases |s|
  {
    if i >= 2 {
      if s[1] == '_' {
        assert s[2..][i - 2] == s[i] && s[2..][i - 1] == s[i + 1];
        DigitGroupsRefuseDoubleUnderscore(s[2..], i - 2);
      } else {
        assert s[1..][i - 1] == s[i] && s[1..][i] == s[i + 1];
        DigitGroupsRefuseDoubleUnderscore(s[1..], i - 1);
      }
    } else if i == 1 {
      assert s[2..][0] == '_';
    }
  }

  /** Two underscores in a row make `int()` raise, wherever they stand. */
  lemma ParseIntRefusesDoubleUnderscore(s: string, i: nat)
    requires i + 1 < |s| && s[i] == '_' && s[i + 1] == '_'
    ensures ParseInt(s) == None
  {
    var l := TrimStart(s);
    var off := |s| - |l|;
    assert !IsSpace(s[i]);
    assert off <= i;
    var j := i - off;
    assert l[j] == s[i] && l[j + 1] == s[i + 1];
    var t := TrimEnd(l);
    assert !IsSpace(l[j + 1]);
    assert j + 1 < |t|;
    assert t[j] == l[j] && t[j + 1] == l[j + 1];
    SignedDigitsRefuseDoubleUnderscore(t, j);
  }

  lemma SignedDigitsRefuseDoubleUnderscore(t: string, j: nat)
    requires j + 1 < |t| && t[j] == '_' && t[j + 1] == '_'
    ensures SignedDigits(t) == None
  {
    if t[0] == '-' || t[0] == '+' {
      assert t[1..][j - 1] == '_' && t[1..][j] == '_';
      DigitGroupsRefuseDoubleUnderscore(t[1..], j - 1);
    } else {
      DigitGroupsRefuseDoubleUnderscore(t, j);
    }
  }

  function Pow10(w: nat): nat {
    if w == 0 then 1 else 10 * Pow10(w - 1)
  }

  lemma {:induction false} Pow10Positive(w: nat)
    ensures Pow10(w) >= 1
  {
    if w > 0 {
      Pow10Positive(w - 1);
    }
  }

  /**
   * Python's `float(s)` on plain decimal text: an optional sign, then digits
   * with at most one '.', and at least one digit. Exponents, `inf`, `nan`,
   * underscores and surrounding blanks, which `float` also takes, are refused
   * here (None), and the value is exact rather than rounded to a double.
   */
  function ParseDecimal(s: string): Option<real> {
    if |s| > 0 && (s[0] == '-' || s[0] == '+') then
      match UnsignedDecimal(s[1..])
      case Some(x) => Some(if s[0] == '-' then -x else x)
      case None => None
    else UnsignedDecimal(s)
  }

  function UnsignedDecimal(s: string): Option<real> {
    if s != [] && AllDigits(s) then Some(DigitsValue(s) as real)
    else DecimalWithPoint(s, 0)
  }

  /** `s` read as a decimal whose point is its first '.' at or after position `k`. */
  function DecimalWithPoint(s: string, k: nat): Option<real>
    decreases |s| - k
  {
    if k >= |s| then None
    else if s[k] == '.' then
      if |s| >= 2 && AllDigits(s[..k]) && AllDigits(s[k + 1..]) then
        Pow10Positive(|s| - k - 1);
        Some(DigitsValue(s[..k]) as real + DigitsValue(s[k + 1..]) as real / Pow10(|s| - k - 1) as real)
      else None
    else DecimalWithPoint(s, k + 1)
  }

  /** Characters that can occur in a text Python's `float()` accepts. */
  predicate FloatTextChar(c: char) {
    IsDigit(c) || c in "+-._eEiInNfFaAtTyY \t\n\r"
  }

  lemma {:induction false} DecimalWithPointRejects(s: string, k: nat, i: nat)
    requires i < |s| && !IsDigit(s[i]) && s[i] != '.'
    ensures DecimalWithPoint(s, k).None?
    decreases |s| - k
  {
    if k < |s| {
      if s[k] != '.' {
        DecimalWithPointRejects(s, k + 1, i);
      } else if k < i {
        assert s[k + 1..][i - k - 1] == s[i];
      } else {
        assert s[..k][i] == s[i];
      }
    }
  }

  /**
   * A text holding a character no float literal contains, such as a degree
   * sign, is refused — as Python's `float()` refuses it.
   */
  lemma {:induction false} ForeignCharacterRefused(s: string, i: nat)
    requires i < |s| && !FloatTextChar(s[i])
    ensures ParseDecimal(s).None?
  {
    var u := if |s| > 0 && (s[0] == '-' || s[0] == '+') then s[1..] else s;
    var j := if |s| > 0 && (s[0] == '-' || s[0] == '+') then i - 1 else i;
    assert j < |u| && u[j] == s[i];
    assert !AllDigits(u);
    DecimalWithPointRejects(u, 0, j);
  }

  // ---------------------------------------------------------------------------
  // Joining and splitting on a separator character
  // ---------------------------------------------------------------------------

  /** `sep.join(parts)`. */
  function Join(parts: seq<string>, sep: char): string {
    if parts == [] then ""
    else if |parts| == 1 then parts[0]
    else parts[0] + [sep] + Join(parts[1..], sep)
  }

  /** `s.split(sep)`: the pieces between separators, empty pieces kept. */
  function Split(s: string, sep: char): (r: seq<string>)
    ensures |r| > 0
    decreases |s|
  {
    if s == [] then [""]
    else
      var tail := Split(s[1..], sep);
      if s[0] == sep then [""] + tail else [[s[0]] + tail[0]] + tail[1..]
  }

  lemma {:induction false} SplitPrefixFree(p: string, rest: string, sep: char)
    requires sep !in p
    ensures Split(p + rest, sep) == [p + Split(rest, sep)[0]] + Split(rest, sep)[1..]
    decreases |p|
  {
    if p == [] {
      var parts := Split(rest, sep);
      assert p + rest == rest;
      assert p + parts[0] == parts[0];
      assert parts == [parts[0]] + parts[1..];
    } else {
      SplitPrefixFree(p[1..], rest, sep);
      assert (p + rest)[0] == p[0] && p[0] != sep;
      assert (p + rest)[1..] == p[1..] + rest;
      assert [p[0]] + (p[1..] + Split(rest, sep)[0]) == p + Split(rest, sep)[0];
    }
  }

  /**
   * Splitting a joined list gives the list back, provided no piece contains
   * the separator.
   */
  lemma {:induction false} SplitJoinRoundTrip(parts: seq<string>, sep: char)
    requires |parts| > 0
    requires forall i | 0 <= i < |parts| :: sep !in parts[i]
    ensures Split(Join(parts, sep), sep) == parts
    decreases |parts|
  {
    if |parts| == 1 {
      SplitPrefixFree(parts[0], "", sep);
      assert parts[0] + "" == parts[0];
    } else {
      var rest := Join(parts[1..], sep);
      SplitJoinRoundTrip(parts[1..], sep);
      SplitPrefixFree(parts[0], [sep] + rest, sep);
      assert parts[0] + [sep] + rest == parts[0] + ([sep] + rest);
      assert ([sep] + rest)[0] == sep;
      assert ([sep] + rest)[1..] == rest;
      assert Split([sep] + rest, sep) == [""] + Split(rest, sep);
      assert parts[0] + "" == parts[0];
      assert parts == [parts[0]] + parts[1..];
    }
  }

  // ---------------------------------------------------------------------------
  // Lexicographic order of text (Python's `<` on str, SQLite's BINARY collation)
  // ---------------------------------------------------------------------------

  predicate StrLe(a: string, b: string)
    decreases |a|
  {
    if a == [] then true
    else if b == [] then false
    else if a[0] != b[0] then a[0] < b[0]
    else StrLe(a[1..], b[1..])
  }

  lemma {:induction false} StrLeTotal(a: string, b: string)
    ensures StrLe(a, b) || StrLe(b, a)
    decreases |a|
  {
    if a != [] && b != [] && a[0] == b[0] {
      StrLeTotal(a[1..], b[1..]);
    }
  }

  lemma {:induction false} StrLeTransitive(a: string, b: string, c: string)
    requires StrLe(a, b) && StrLe(b, c)
    ensures StrLe(a, c)
    decreases |a|
  {
    if a != [] && b != [] && c != [] && a[0] == b[0] && b[0] == c[0] {
      StrLeTransitive(a[1..], b[1..], c[1..]);
    }
  }

  lemma {:induction false} StrLeAntisymmetric(a: string, b: string)
    requires StrLe(a, b) && StrLe(b, a)
    ensures a == b
    decreases |a|
  {
    if a != [] && b != [] {
      StrLeAntisymmetric(a[1..], b[1..]);
      assert a == [a[0]] + a[1..];
      assert b == [b[0]] + b[1..];
    }
  }

  lemma {:induction false} StrLeReflexive(a: string)
    ensures StrLe(a, a)
    decreases |a|
  {
    if a != [] {
      StrLeReflexive(a[1..]);
    }
  }
}
