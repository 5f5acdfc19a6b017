/**
 * The two string operations the orchestration code relies on: Python's
 * substring test (`sub in s`) and `int(...)` on a device-name suffix.
 */
module Text {
  import opened Wrappers

  /** `sub in s` for Python strings: `sub` occurs somewhere inside `s`. */
  predicate Contains(s: string, sub: string)
    decreases |s|
  {
    sub <= s || (|s| > 0 && Contains(s[1..], sub))
  }

  /** Only a string at least as long as `sub` can contain it. */
  lemma {:induction false} ContainsNeedsRoom(s: string, sub: string)
    ensures Contains(s, sub) ==> |sub| <= |s|
    decreases |s|
  {
    if |s| > 0 {
      ContainsNeedsRoom(s[1..], sub);
    }
  }

  predicate IsDigit(c: char) { '0' <= c <= '9' }

  function DigitValue(c: char): (d: nat)
    requires IsDigit(c)
    ensures d < 10
  {
    (c as int) - ('0' as int)
  }

  /** The value of a non-empty run of decimal digits, most significant first. */
  function DigitsValue(s: string): nat
    requires forall i :: 0 <= i < |s| ==> IsDigit(s[i])
  {
    if s == [] then 0 else 10 * DigitsValue(s[..|s| - 1]) + DigitValue(s[|s| - 1])
  }

  function DecimalString(n: nat): (s: string)
    ensures |s| > 0 && forall i :: 0 <= i < |s| ==> IsDigit(s[i])
  {
    if n < 10 then [('0' as int + n) as char]
    else DecimalString(n / 10) + [('0' as int + n % 10) as char]
  }

  lemma {:induction false} DecimalStringValue(n: nat)
    ensures DigitsValue(DecimalString(n)) == n
  {
    var s := DecimalString(n);
    if n >= 10 {
      DecimalStringValue(n / 10);
      assert s[..|s| - 1] == DecimalString(n / 10);
    }
  }

  /**
   * The characters Python 3's `int()` strips from both ends of its argument:
   * those `str.isspace()` accepts.
   */
  predicate IsSpace(c: char)
  {
    ('\t' <= c <= '\r') || ('\U{1C}' <= c <= ' ') || c == '\U{85}' || c == '\U{A0}' || c == '\U{1680}' ||
    ('\U{2000}' <= c <= '\U{200A}') || c == '\U{2028}' || c == '\U{2029}' || c == '\U{202F}' ||
    c == '\U{205F}' || c == '\U{3000}'
  }

  /** `s` without its leading whitespace. */
  function TrimStart(s: string): (r: string)
    ensures |r| <= |s|
  {
    if s != [] && IsSpace(s[0]) then TrimStart(s[1..]) else s
  }

  /** `TrimStart` keeps a suffix of `s` that does not start with whitespace, and drops only whitespace. */
  lemma {:induction false} TrimStartMeaning(s: string)
    ensures var r := TrimStart(s);
      r == s[|s| - |r|..] && (forall i :: 0 <= i < |s| - |r| ==> IsSpace(s[i])) && (r == [] || !IsSpace(r[0]))
  {
    if s != [] && IsSpace(s[0]) {
      TrimStartMeaning(s[1..]);
    }
  }

  /** `s` without its trailing whitespace. */
  function TrimEnd(s: string): (r: string)
    ensures |r| <= |s|
  {
    if s != [] && IsSpace(s[|s| - 1]) then TrimEnd(s[..|s| - 1]) else s
  }

  /** `TrimEnd` keeps a prefix of `s` that does not end with whitespace, and drops only whitespace. */
  lemma {:induction false} TrimEndMeaning(s: string)
    ensures var r := TrimEnd(s);
      r == s[..|r|] && (forall i :: |r| <= i < |s| ==> IsSpace(s[i])) && (r == [] || !IsSpace(r[|r| - 1]))
  {
    if s != [] && IsSpace(s[|s| - 1]) {
      TrimEndMeaning(s[..|s| - 1]);
    }
  }

  /** `s.strip()`. */
  function Strip(s: string): string
  {
    TrimEnd(TrimStart(s))
  }

  /** A literal without its leading sign, if it has one. */
  function Unsigned(t: string): string
  {
    if |t| > 0 && (t[0] == '+' || t[0] == '-') then t[1..] else t
  }

  /**
   * One or more ASCII digits, where a single underscore may stand between
   * two digits (Python 3.6 and later), read from the end: a digit, after
   * nothing, after digit groups, or after an underscore that follows digit
   * groups.
   */
  predicate IsDigitGroups(b: string)
    decreases |b|
  {
    |b| > 0 && IsDigit(b[|b| - 1]) &&
    var init := b[..|b| - 1];
    init == [] || IsDigitGroups(init) || (init[|init| - 1] == '_' && IsDigitGroups(init[..|init| - 1]))
  }

  /**
   * The same grammar read position by position: digits at both ends, only
   * digits and underscores, and a digit before every underscore.
   */
  predicate GroupsShape(b: string)
  {
    |b| > 0 && IsDigit(b[0]) && IsDigit(b[|b| - 1]) &&
    (forall i :: 0 <= i < |b| ==> IsDigit(b[i]) || b[i] == '_') &&
    (forall i :: 0 < i < |b| && b[i] == '_' ==> IsDigit(b[i - 1]))
  }

  /** The recursive grammar and the positional description accept the same strings. */
  lemma {:induction false} DigitGroupsMeaning(b: string)
    ensures IsDigitGroups(b) <==> GroupsShape(b)
    decreases |b|
  {
    if |b| > 1 {
      var init := b[..|b| - 1];
      DigitGroupsMeaning(init);
      assert forall i :: 0 <= i < |init| ==> init[i] == b[i];
      if |init| > 1 {
        var init' := init[..|init| - 1];
        DigitGroupsMeaning(init');
        assert forall i :: 0 <= i < |init'| ==> init'[i] == b[i];
      }
    }
  }

  /**
   * What `int(s)` accepts in base 10: surrounding whitespace, an optional
   * sign, then digit groups.
   */
  predicate IsIntLiteral(s: string)
  {
    IsDigitGroups(Unsigned(Strip(s)))
  }

  /** The value of the digits of `b`, most significant first; any other character (an underscore) is skipped. */
  function GroupsValue(b: string): nat
  {
    if b == [] then 0
    else
      var init := b[..|b| - 1];
      var c := b[|b| - 1];
      if IsDigit(c) then 10 * GroupsValue(init) + DigitValue(c) else GroupsValue(init)
  }

  /** Without underscores, the groups read as plain decimal digits. */
  lemma {:induction false} GroupsValueDigits(b: string)
    requires forall i :: 0 <= i < |b| ==> IsDigit(b[i])
    ensures GroupsValue(b) == DigitsValue(b)
  {
    if b != [] {
      GroupsValueDigits(b[..|b| - 1]);
    }
  }

  /** An underscore between digit groups does not change their value. */
  lemma {:induction false} UnderscoreSkipped(a: string, c: string)
    ensures GroupsValue(a + "_" + c) == GroupsValue(a + c)
  {
    if c == [] {
      assert (a + "_" + c)[..|a|] == a + c;
    } else {
      var c' := c[..|c| - 1];
      UnderscoreSkipped(a, c');
      assert (a + "_" + c)[..|a + "_" + c| - 1] == a + "_" + c';
      assert (a + c)[..|a + c| - 1] == a + c';
    }
  }

  /** Whether a stripped literal carries a leading minus sign. */
  predicate Negative(t: string)
  {
    |t| > 0 && t[0] == '-'
  }

  /**
   * `int()` on an already stripped literal: an optional sign, then digit
   * groups read with their underscores skipped.
   */
  function ParseStripped(t: string): Result<int, string>
  {
    var body := Unsigned(t);
    if IsDigitGroups(body) then
      var magnitude: int := GroupsValue(body);
      Success(if Negative(t) then -magnitude else magnitude)
    else
      Failure("ValueError: invalid literal for int() with base 10")
  }

  /**
   * Python's `int(s)` in base 10: surrounding whitespace is stripped, a
   * leading '-' negates, and the digits are read with their underscores
   * skipped. Anything else raises ValueError (Failure).
   */
  function ParseInt(s: string): (r: Result<int, string>)
    ensures r.Success? <==> IsIntLiteral(s)
    ensures r.Success? ==> r.value == if Negative(Strip(s)) then -(GroupsValue(Unsigned(Strip(s))) as int) else GroupsValue(Unsigned(Strip(s)))
  {
    ParseStripped(Strip(s))
  }

  /** A string that neither starts nor ends with whitespace is its own strip. */
  lemma {:induction false} StripUntrimmed(s: string)
    requires s != [] && !IsSpace(s[0]) && !IsSpace(s[|s| - 1])
    ensures Strip(s) == s
  {
    assert TrimStart(s) == s;
    assert TrimEnd(s) == s;
  }

  /** A run of digits is one digit group. */
  lemma {:induction false} DigitsAreGroups(s: string)
    requires |s| > 0 && forall i :: 0 <= i < |s| ==> IsDigit(s[i])
    ensures IsDigitGroups(s)
  {
    DigitGroupsMeaning(s);
  }

  /** A literal with its sign, if any: the value of its digits, negated for '-'. */
  lemma {:induction false} ParseIntRun(sign: string, s: string)
    requires sign == "" || sign == "-" || sign == "+"
    requires |s| > 0 && forall i :: 0 <= i < |s| ==> IsDigit(s[i])
    ensures ParseInt(sign + s) == Success(if sign == "-" then -(DigitsValue(s) as int) else DigitsValue(s))
  {
    var t := sign + s;
    DigitsAreGroups(s);
    GroupsValueDigits(s);
    UnsignedOf(sign, s);
    StripUntrimmed(t);
    ParseStrippedGroups(t, s, sign == "-");
  }

  /** A stripped literal whose unsigned part is digit groups parses to their value, negated for a minus sign. */
  lemma {:induction false} ParseStrippedGroups(t: string, b: string, negative: bool)
    requires Unsigned(t) == b && IsDigitGroups(b) && Negative(t) == negative
    ensures ParseStripped(t) == Success(if negative then -(GroupsValue(b) as int) else GroupsValue(b))
  {
  }

  lemma {:induction false} UnsignedOf(sign: string, s: string)
    requires sign == "" || sign == "-" || sign == "+"
    requires |s| > 0 && IsDigit(s[0]) && IsDigit(s[|s| - 1])
    ensures Unsigned(sign + s) == s
    ensures Negative(sign + s) <==> sign == "-"
    ensures !IsSpace((sign + s)[0]) && !IsSpace((sign + s)[|sign + s| - 1])
  {
    if sign == "" {
      assert sign + s == s;
    } else {
      assert (sign + s)[1..] == s;
    }
    assert (sign + s)[|sign + s| - 1] == s[|s| - 1];
  }

  /** Parsing the decimal rendering of a natural number gives the number back. */
  lemma {:induction false} ParseIntDecimal(n: nat)
    ensures ParseInt(DecimalString(n)) == Success(n)
  {
    DecimalStringValue(n);
    ParseIntRun("", DecimalString(n));
    assert "" + DecimalString(n) == DecimalString(n);
  }

  /** A leading '-' negates, and a leading '+' changes nothing. */
  lemma {:induction false} ParseIntSigned(n: nat)
    ensures ParseInt("-" + DecimalString(n)) == Success(-(n as int))
    ensures ParseInt("+" + DecimalString(n)) == Success(n)
  {
    var s := DecimalString(n);
    DecimalStringValue(n);
    ParseIntRun("-", s);
    assert ParseInt("-" + s) == Success(-(DigitsValue(s) as int));
    ParseIntRun("+", s);
    assert ParseInt("+" + s) == Success(DigitsValue(s));
  }

  predicate AllSpace(ws: string)
  {
    forall i :: 0 <= i < |ws| ==> IsSpace(ws[i])
  }

  lemma {:induction false} TrimStartSpaces(ws: string, x: string)
    requires AllSpace(ws)
    ensures TrimStart(ws + x) == TrimStart(x)
  {
    if ws != [] {
      assert (ws + x)[0] == ws[0] && (ws + x)[1..] == ws[1..] + x;
      assert TrimStart(ws + x) == TrimStart(ws[1..] + x);
      TrimStartSpaces(ws[1..], x);
    } else {
      assert ws + x == x;
    }
  }

  lemma {:induction false} TrimEndSpaces(x: string, ws: string)
    requires AllSpace(ws)
    ensures TrimEnd(x + ws) == TrimEnd(x)
  {
    if ws != [] {
      var ws' := ws[..|ws| - 1];
      assert (x + ws)[|x + ws| - 1] == ws[|ws| - 1] && (x + ws)[..|x + ws| - 1] == x + ws';
      assert TrimEnd(x + ws) == TrimEnd(x + ws');
      TrimEndSpaces(x, ws');
    } else {
      assert x + ws == x;
    }
  }

  lemma {:induction false} TrimStartKeepsTail(x: string, y: string)
    requires TrimStart(x) != []
    ensures TrimStart(x + y) == TrimStart(x) + y
  {
    if IsSpace(x[0]) {
      assert (x + y)[1..] == x[1..] + y;
      TrimStartKeepsTail(x[1..], y);
    } else {
      assert (x + y)[0] == x[0];
    }
  }

  /** Whitespace around a literal is ignored: `int(" 3 ") == int("3")`. */
  lemma {:induction false} ParseIntSurroundingSpace(ws1: string, s: string, ws2: string)
    requires AllSpace(ws1) && AllSpace(ws2)
    ensures ParseInt(ws1 + s + ws2) == ParseInt(s)
  {
    assert ws1 + s + ws2 == ws1 + (s + ws2);
    TrimStartSpaces(ws1, s + ws2);
    if TrimStart(s) != [] {
      TrimStartKeepsTail(s, ws2);
      TrimEndSpaces(TrimStart(s), ws2);
    } else {
      TrimStartMeaning(s);
      assert AllSpace(s);
      TrimStartSpaces(s, ws2);
      TrimStartSpaces(ws2, []);
      assert ws2 + [] == ws2;
    }
  }

  /** Unsigned digit groups with nothing around them parse to their value. */
  lemma {:induction false} ParseIntGroups(u: string)
    requires IsDigitGroups(u)
    ensures ParseInt(u) == Success(GroupsValue(u) as int)
  {
    DigitGroupsMeaning(u);
    assert !IsSpace(u[0]) && !IsSpace(u[|u| - 1]);
    StripUntrimmed(u);
    assert Unsigned(u) == u && !Negative(u);
    assert ParseInt(u) == ParseStripped(u);
  }

  /** Two runs of digits joined by one underscore form digit groups. */
  lemma {:induction false} JoinedGroups(a: string, c: string)
    requires |a| > 0 && forall i :: 0 <= i < |a| ==> IsDigit(a[i])
    requires |c| > 0 && forall i :: 0 <= i < |c| ==> IsDigit(c[i])
    ensures IsDigitGroups(a + "_" + c) && IsDigitGroups(a + c)
  {
    var u := a + "_" + c;
    assert forall i :: 0 <= i < |u| ==> (i == |a| && u[i] == '_') || (i != |a| && IsDigit(u[i]));
    DigitGroupsMeaning(u);
    var v := a + c;
    assert forall i :: 0 <= i < |v| ==> IsDigit(v[i]);
    DigitsAreGroups(v);
  }

  /** A single underscore between two runs of digits is accepted and skipped: `int("1_000") == int("1000")`. */
  lemma {:induction false} ParseIntUnderscore(a: string, c: string)
    requires |a| > 0 && forall i :: 0 <= i < |a| ==> IsDigit(a[i])
    requires |c| > 0 && forall i :: 0 <= i < |c| ==> IsDigit(c[i])
    ensures ParseInt(a + "_" + c) == ParseInt(a + c)
  {
    JoinedGroups(a, c);
    ParseIntGroups(a + "_" + c);
    ParseIntGroups(a + c);
    UnderscoreSkipped(a, c);
  }
}
