/**
  The Python string primitives the program relies on: `str.strip()` with no
  argument, `str.endswith`, and `int(text)` on a decimal string.
 */
module Text {

  import opened Wrappers

  /** Python's `str.isspace` on one character: TAB to CR, the four ASCII
      separators FS to US, SPACE, NEL, NO-BREAK SPACE and the Unicode space
      separators. These are exactly the characters `str.strip()` removes. */
  predicate IsSpace(c: char) {
    var n := c as int;
    || n == 0x20 || (0x09 <= n <= 0x0D) || (0x1C <= n <= 0x1F)
    || n == 0x85 || n == 0xA0 || n == 0x1680 || (0x2000 <= n <= 0x200A)
    || n == 0x2028 || n == 0x2029 || n == 0x202F || n == 0x205F || n == 0x3000
  }

  /** Empty or made of whitespace only. */
  predicate IsBlank(s: string) {
    forall i :: 0 <= i < |s| ==> IsSpace(s[i])
  }

  /** `r` is what is left of `s` once a blank prefix and a blank suffix are cut off. */
  ghost predicate Trims(s: string, r: string) {
    exists i :: 0 <= i <= |s| - |r| && s[i..i + |r|] == r && IsBlank(s[..i]) && IsBlank(s[i + |r|..])
  }

  /** `str.lstrip()`. */
  function TrimLeft(s: string): string {
    if s != [] && IsSpace(s[0]) then TrimLeft(s[1..]) else s
  }

  /** What `lstrip` removes is a blank prefix; what it keeps is the rest of
      the text, which does not start with whitespace. */
  lemma {:induction false} TrimLeftCuts(s: string)
    ensures var r := TrimLeft(s);
            && |r| <= |s| && r == s[|s| - |r|..]
            && IsBlank(s[..|s| - |r|])
            && (r == [] || !IsSpace(r[0]))
  {
    if s != [] && IsSpace(s[0]) {
      TrimLeftCuts(s[1..]);
      var r := TrimLeft(s[1..]);
      assert s[..|s| - |r|] == [s[0]] + s[1..][..|s| - 1 - |r|];
    }
  }

  /** `str.rstrip()`. */
  function TrimRight(s: string): string {
    if s != [] && IsSpace(s[|s| - 1]) then TrimRight(s[..|s| - 1]) else s
  }

  /** What `rstrip` removes is a blank suffix; what it keeps does not end
      with whitespace. */
  lemma {:induction false} TrimRightCuts(s: string)
    ensures var r := TrimRight(s);
            && |r| <= |s| && r == s[..|r|]
            && IsBlank(s[|r|..])
            && (r == [] || !IsSpace(r[|r| - 1]))
  {
    if s != [] && IsSpace(s[|s| - 1]) {
      TrimRightCuts(s[..|s| - 1]);
      var r := TrimRight(s[..|s| - 1]);
      assert s[|r|..] == s[..|s| - 1][|r|..] + [s[|s| - 1]];
    }
  }

  /** `str.strip()`. */
  function Strip(s: string): string {
    TrimRight(TrimLeft(s))
  }

  /** Stripped text has no whitespace at either end, and is empty exactly
      when the text was blank. */
  lemma StripSpec(s: string)
    ensures var r := Strip(s);
            && (r == [] || (!IsSpace(r[0]) && !IsSpace(r[|r| - 1])))
            && (r == [] <==> IsBlank(s))
  {
    var t := TrimLeft(s);
    TrimLeftCuts(s);
    TrimRightCuts(t);
    var r := TrimRight(t);
    var i := |s| - |t|;
    if r != [] {
      assert r[0] == t[0];
    }
    assert r == [] ==> IsBlank(s) by {
      if r == [] {
        assert s == s[..i] + t;
      }
    }
    assert IsBlank(s) ==> t == [];
  }

  /** Strip cuts off a blank prefix and a blank suffix, and nothing else. */
  lemma StripTrims(s: string)
    ensures Trims(s, Strip(s))
  {
    var t := TrimLeft(s);
    TrimLeftCuts(s);
    TrimRightCuts(t);
    var r := TrimRight(t);
    var i := |s| - |t|;
    assert s[i..i + |r|] == r;
    assert s[i + |r|..] == t[|r|..];
    assert IsBlank(s[..i]) && IsBlank(s[i + |r|..]);
  }

  /** Text that already has no whitespace at either end is left as it is. */
  lemma StripClean(s: string)
    requires s == [] || (!IsSpace(s[0]) && !IsSpace(s[|s| - 1]))
    ensures Strip(s) == s
  {
  }

  /** Stripping twice is the same as stripping once. */
  lemma StripIdempotent(s: string)
    ensures Strip(Strip(s)) == Strip(s)
  {
    StripSpec(s);
    StripClean(Strip(s));
  }

  /** A line read from a file keeps its terminator; strip removes it. */
  lemma StripLine(s: string)
    requires s != [] && !IsSpace(s[0]) && !IsSpace(s[|s| - 1])
    ensures Strip(s + "\n") == s
  {
    var t := s + "\n";
    assert TrimLeft(t) == t;
    assert t[..|t| - 1] == s;
    assert TrimRight(t) == TrimRight(s);
  }

  /** `s.endswith(suffix)`. */
  predicate EndsWith(s: string, suffix: string) {
    |suffix| <= |s| && s[|s| - |suffix|..] == suffix
  }

  lemma EndsWithAppend(prefix: string, suffix: string)
    ensures EndsWith(prefix + suffix, suffix)
  {
    assert (prefix + suffix)[|prefix|..] == suffix;
  }

  predicate IsDigit(c: char) {
    '0' <= c <= '9'
  }

  predicate AllDigits(s: string) {
    forall i :: 0 <= i < |s| ==> IsDigit(s[i])
  }

  /** Digits and underscores only. */
  predicate DigitsOrUnderscores(t: string) {
    forall i :: 0 <= i < |t| ==> IsDigit(t[i]) || t[i] == '_'
  }

  /** A decimal literal as `int()` accepts it: digits, with single underscores
      allowed between two digits. */
  predicate IsNumeral(t: string) {
    && |t| > 0 && IsDigit(t[0]) && IsDigit(t[|t| - 1])
    && DigitsOrUnderscores(t)
    && (forall i :: 0 <= i < |t| - 1 ==> t[i] == '_' ==> t[i + 1] != '_')
  }

  /** The digits of a literal, with its underscores dropped. */
  function RemoveUnderscores(t: string): (d: string)
    ensures DigitsOrUnderscores(t) ==> AllDigits(d)
    ensures AllDigits(t) ==> d == t
  {
    if t == [] then []
    else (if t[0] == '_' then [] else [t[0]]) + RemoveUnderscores(t[1..])
  }

  /** Only the underscores go: the digits stay, in their order. */
  lemma {:induction false} RemoveUnderscoresAppend(a: string, b: string)
    ensures RemoveUnderscores(a + b) == RemoveUnderscores(a) + RemoveUnderscores(b)
  {
    if a == [] {
      assert a + b == b;
    } else {
      var ab := a + b;
      assert ab[0] == a[0];
      assert ab[1..] == a[1..] + b;
      RemoveUnderscoresAppend(a[1..], b);
    }
  }

  /** Value of a string of decimal digits, most significant first. */
  function DigitsValue(s: string): nat
    requires AllDigits(s)
  {
    if s == [] then 0 else DigitsValue(s[..|s| - 1]) * 10 + (s[|s| - 1] as int - '0' as int)
  }

  function ParseNumeral(t: string): Option<int>
  {
    if IsNumeral(t) then Some(DigitsValue(RemoveUnderscores(t))) else None
  }

  /** The whitespace `int()` skips around its literal: every character of
      `IsSpace` except the four separators U+001C to U+001F, which count as
      whitespace for `str.strip()` but not for `int()`. */
  predicate IsIntSpace(c: char) {
    IsSpace(c) && !(0x1C <= c as int <= 0x1F)
  }

  function TrimIntLeft(s: string): string
  {
    if s != [] && IsIntSpace(s[0]) then TrimIntLeft(s[1..]) else s
  }

  function TrimIntRight(s: string): string
  {
    if s != [] && IsIntSpace(s[|s| - 1]) then TrimIntRight(s[..|s| - 1]) else s
  }

  /** A string that neither starts nor ends with whitespace of `int()` is
      left as it is. */
  lemma IntStripClean(s: string)
    requires s == [] || (!IsIntSpace(s[0]) && !IsIntSpace(s[|s| - 1]))
    ensures TrimIntRight(TrimIntLeft(s)) == s
  {
  }

  /** `int(s)` for base 10; None stands for the ValueError it raises.
      `int()` ignores surrounding whitespace and takes an optional sign. */
  function ParseInt(s: string): Option<int>
  {
    ParseSigned(TrimIntRight(TrimIntLeft(s)))
  }

  /** An optionally signed decimal literal. */
  function ParseSigned(t: string): Option<int>
  {
    if |t| > 0 && (t[0] == '+' || t[0] == '-') then
      match ParseNumeral(t[1..])
      case Some(n) => Some(if t[0] == '-' then -n else n)
      case None => None
    else
      ParseNumeral(t)
  }

  /** The decimal rendering of `n`, as an f-string prints it. */
  function NatToString(n: nat): (s: string)
    ensures |s| > 0 && AllDigits(s)
    ensures DigitsValue(s) == n
  {
    if n < 10 then [('0' as int + n) as char]
    else
      var front := NatToString(n / 10);
      var s := front + [('0' as int + n % 10) as char];
      assert s[..|s| - 1] == front;
      s
  }

  /** `int(str(n)) == n`: typing back a printed number gives that number. */
  lemma ParseNatToString(n: nat)
    ensures ParseInt(NatToString(n)) == Some(n)
  {
    var s := NatToString(n);
    assert !IsIntSpace(s[0]) && !IsIntSpace(s[|s| - 1]);
    IntStripClean(s);
    assert s[0] != '+' && s[0] != '-';
    assert IsNumeral(s);
    assert RemoveUnderscores(s) == s;
    assert ParseNumeral(s) == Some(n);
  }

  /** `int()` of a bare numeral: the value of its digits, underscores dropped. */
  lemma ParseNumeralText(t: string)
    requires IsNumeral(t)
    ensures ParseInt(t) == Some(DigitsValue(RemoveUnderscores(t)))
  {
    IntStripClean(t);
    assert ParseSigned(t) == ParseNumeral(t);
  }

  /** Joining two numerals, with or without one underscore between them,
      gives a numeral. */
  lemma NumeralJoin(a: string, b: string)
    requires IsNumeral(a) && IsNumeral(b)
    ensures IsNumeral(a + b) && IsNumeral(a + "_" + b)
  {
    var u, v := a + "_" + b, a + b;
    assert forall i :: 0 <= i < |a| ==> u[i] == a[i];
    assert forall i :: 0 <= i < |b| ==> u[|a| + 1 + i] == b[i];
    assert forall i :: 0 <= i < |a| ==> v[i] == a[i];
    assert forall i :: 0 <= i < |b| ==> v[|a| + i] == b[i];
  }

  /** One underscore between two groups of digits leaves the same digits. */
  lemma DropSeparator(a: string, b: string)
    ensures RemoveUnderscores(a + "_" + b) == RemoveUnderscores(a + b)
  {
    var x := a + "_";
    RemoveUnderscoresAppend(x, b);
    RemoveUnderscoresAppend(a, "_");
    RemoveUnderscoresAppend(a, b);
    assert RemoveUnderscores("_") == [];
    assert RemoveUnderscores(x) == RemoveUnderscores(a);
  }

  /** An underscore between two groups of digits is ignored:
      `int("1_000") == int("1000")`. */
  lemma UnderscoreSeparator(a: string, b: string)
    requires IsNumeral(a) && IsNumeral(b)
    ensures ParseInt(a + "_" + b) == ParseInt(a + b)
    ensures ParseInt(a + b).Some?
  {
    var u, v := a + "_" + b, a + b;
    NumeralJoin(a, b);
    DropSeparator(a, b);
    ParseNumeralText(u);
    ParseNumeralText(v);
  }

  /** A file separator in front of a number is not skipped by `int()`,
      though `str.strip()` removes it: `int("\x1c1")` raises ValueError
      while `"\x1c1".strip() == "1"`. */
  lemma SeparatorIsNotIntSpace(digit: char)
    requires IsDigit(digit)
    ensures ParseInt([28 as char, digit]) == None
    ensures Strip([28 as char, digit]) == [digit]
  {
    var s := [28 as char, digit];
    IntStripClean(s);
    assert !IsDigit(s[0]);
    assert TrimLeft(s) == [digit] by {
      assert s[1..] == [digit];
    }
    StripClean([digit]);
  }
}
