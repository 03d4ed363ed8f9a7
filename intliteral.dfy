/**
 * Python's `int(s)` on a string, base 10, over ASCII: surrounding whitespace is
 * skipped, one optional sign is allowed, and the digits may be grouped with
 * single underscores between digits (`"1_000"`). Anything else is a ValueError,
 * modelled as `None`.
 */
module IntLiteral {
  import opened Wrappers

  predicate IsDigit(c: char) {
    '0' <= c <= '9'
  }

  /**
   * The padding `int()` skips around an ASCII literal: space, and tab through
   * carriage return. The separators 0x1C to 0x1F count as whitespace for
   * `str.isspace()` but not here, so `int()` refuses them.
   */
  predicate IsSpace(c: char) {
    c == ' ' || 9 <= c as int <= 13
  }

  predicate AllDigits(d: string) {
    forall i :: 0 <= i < |d| ==> IsDigit(d[i])
  }

  predicate AllSpace(w: string) {
    forall i :: 0 <= i < |w| ==> IsSpace(w[i])
  }

  function DigitValue(c: char): nat
    requires IsDigit(c)
  {
    c as int - '0' as int
  }

  /** Decimal value of a string of digits, most significant first. */
  function DigitsValue(d: string): nat
    requires AllDigits(d)
  {
    if d == [] then 0 else DigitsValue(d[..|d| - 1]) * 10 + DigitValue(d[|d| - 1])
  }

  // ---------------------------------------------------------------------
  // Whitespace stripping
  // ---------------------------------------------------------------------

  /** `s` with its leading whitespace removed. */
  function StripLeading(s: string): (t: string)
    ensures |t| <= |s| && t == s[|s| - |t|..]
    ensures forall i :: 0 <= i < |s| - |t| ==> IsSpace(s[i])
    ensures t == [] || !IsSpace(t[0])
  {
    if s != [] && IsSpace(s[0]) then StripLeading(s[1..]) else s
  }

  /** `s` with its trailing whitespace removed. */
  function StripTrailing(s: string): (t: string)
    ensures |t| <= |s| && t == s[..|t|]
    ensures forall i :: |t| <= i < |s| ==> IsSpace(s[i])
    ensures t == [] || !IsSpace(t[|t| - 1])
  {
    if s != [] && IsSpace(s[|s| - 1]) then StripTrailing(s[..|s| - 1]) else s
  }

  /** Stripping leaves a string alone that neither begins nor ends with whitespace. */
  lemma StripUnpadded(s: string)
    requires |s| > 0 && !IsSpace(s[0]) && !IsSpace(s[|s| - 1])
    ensures StripTrailing(StripLeading(s)) == s
  {
  }

  lemma {:induction false} StripLeadingPadding(pre: string, t: string)
    requires AllSpace(pre) && (t == [] || !IsSpace(t[0]))
    ensures StripLeading(pre + t) == t
  {
    if pre != [] {
      assert (pre + t)[1..] == pre[1..] + t;
      StripLeadingPadding(pre[1..], t);
    } else {
      assert pre + t == t;
    }
  }

  lemma {:induction false} StripTrailingPadding(t: string, post: string)
    requires AllSpace(post) && (t == [] || !IsSpace(t[|t| - 1]))
    ensures StripTrailing(t + post) == t
  {
    if post != [] {
      assert (t + post)[..|t + post| - 1] == t + post[..|post| - 1];
      StripTrailingPadding(t, post[..|post| - 1]);
    } else {
      assert t + post == t;
    }
  }

  // ---------------------------------------------------------------------
  // Digit groups with underscores
  // ---------------------------------------------------------------------

  /**
   * The digit part of a base-10 literal: a digit, then more digits, each of
   * which may be preceded by one underscore. So the run begins and ends with a
   * digit and no two underscores are adjacent.
   */
  predicate IsDigitRun(b: string)
    decreases |b|
  {
    && |b| > 0
    && IsDigit(b[0])
    && (|b| == 1 || (if b[1] == '_' then IsDigitRun(b[2..]) else IsDigitRun(b[1..])))
  }

  /** The digits of a digit run, underscores dropped. */
  function RunDigits(b: string): (d: string)
    requires IsDigitRun(b)
    ensures |d| > 0 && AllDigits(d)
    decreases |b|
  {
    if |b| == 1 then [b[0]]
    else if b[1] == '_' then [b[0]] + RunDigits(b[2..])
    else [b[0]] + RunDigits(b[1..])
  }

  /** The value of a digit run. */
  function Magnitude(b: string): nat
    requires IsDigitRun(b)
  {
    DigitsValue(RunDigits(b))
  }

  /** A non-empty string of digits is a digit run, and its own digits. */
  lemma {:induction false} DigitsAreRun(d: string)
    requires |d| > 0 && AllDigits(d)
    ensures IsDigitRun(d) && RunDigits(d) == d
  {
    if |d| > 1 {
      DigitsAreRun(d[1..]);
      assert [d[0]] + d[1..] == d;
    }
  }

  /**
   * Two non-empty groups of digits joined by one underscore form a digit run
   * whose digits are the two groups together.
   */
  lemma {:induction false} GroupedRun(a: string, b: string)
    requires |a| > 0 && AllDigits(a) && |b| > 0 && AllDigits(b)
    ensures IsDigitRun(a + "_" + b) && RunDigits(a + "_" + b) == a + b
  {
    var g := a + "_" + b;
    if |a| == 1 {
      DigitsAreRun(b);
      assert g[0] == a[0] && g[1] == '_' && g[2..] == b;
      assert [a[0]] + b == a + b;
    } else {
      var g' := a[1..] + "_" + b;
      assert AllDigits(a[1..]);
      GroupedRun(a[1..], b);
      assert g[0] == a[0] && g[1] == a[1] && g[1..] == g';
      assert [a[0]] + (a[1..] + b) == a + b;
    }
  }

  // ---------------------------------------------------------------------
  // int(s)
  // ---------------------------------------------------------------------

  /**
   * `int(s)` once the surrounding whitespace is gone: an optional sign and a
   * digit run, or `None`.
   */
  function ParseSigned(t: string): Option<int> {
    if |t| > 0 && (t[0] == '+' || t[0] == '-') then
      var body := t[1..];
      if IsDigitRun(body) then
        Some(if t[0] == '-' then -(Magnitude(body) as int) else Magnitude(body))
      else None
    else if IsDigitRun(t) then Some(Magnitude(t))
    else None
  }

  /**
   * `int(s)`: `Some(n)` for a well-formed base-10 literal, `None` where Python
   * raises ValueError. Whatever is accepted holds at least one digit of `s`.
   */
  function ParseDecimal(s: string): (r: Option<int>)
    ensures r.Some? ==> exists i :: 0 <= i < |s| && IsDigit(s[i])
  {
    var lead := StripLeading(s);
    var t := StripTrailing(lead);
    var r := ParseSigned(t);
    if r.Some? && (t[0] == '+' || t[0] == '-') then
      assert s[|s| - |lead| + 1] == t[1];
      r
    else if r.Some? then
      assert s[|s| - |lead|] == t[0];
      r
    else r
  }

  /** Without padding, `int(s)` is decided by the sign and the digit run alone. */
  lemma ParseUnpadded(s: string)
    requires |s| > 0 && !IsSpace(s[0]) && !IsSpace(s[|s| - 1])
    ensures ParseDecimal(s) == ParseSigned(s)
  {
    StripUnpadded(s);
  }

  /** Whitespace around a literal does not change what `int()` makes of it. */
  lemma PaddingIgnored(pre: string, t: string, post: string)
    requires AllSpace(pre) && AllSpace(post)
    requires |t| > 0 && !IsSpace(t[0]) && !IsSpace(t[|t| - 1])
    ensures ParseDecimal(pre + t + post) == ParseDecimal(t)
  {
    assert pre + t + post == pre + (t + post);
    StripLeadingPadding(pre, t + post);
    StripTrailingPadding(t, post);
    StripUnpadded(t);
  }

  /** A value with no digit at all (such as "not-a-number") is rejected. */
  lemma NoDigitRejected(s: string)
    requires forall i :: 0 <= i < |s| ==> !IsDigit(s[i])
    ensures ParseDecimal(s) == None
  {
  }

  /**
   * A first character that is neither padding, a sign nor a digit makes
   * `int()` refuse the value, whatever follows.
   */
  lemma LeadingJunkRejected(s: string)
    requires |s| > 0 && !IsSpace(s[0]) && !IsDigit(s[0]) && s[0] != '+' && s[0] != '-'
    ensures ParseDecimal(s) == None
  {
    var t := StripTrailing(StripLeading(s));
    assert |t| > 0 && t[0] == s[0];
  }

  /** The separators 0x1C to 0x1F are not padding: `int()` refuses a value they begin. */
  lemma SeparatorRejected(c: char, t: string)
    requires 0x1C <= c as int <= 0x1F
    ensures ParseDecimal([c] + t) == None
  {
    LeadingJunkRejected([c] + t);
  }

  /** A non-empty string of ASCII digits parses to its decimal value. */
  lemma DigitsAccepted(d: string)
    requires |d| > 0 && AllDigits(d)
    ensures ParseDecimal(d) == Some(DigitsValue(d))
  {
    ParseUnpadded(d);
    DigitsAreRun(d);
  }

  /** One sign before a non-empty string of digits: the value, negated after "-". */
  lemma SignedDigitsAccepted(s: string)
    requires |s| > 1 && (s[0] == '+' || s[0] == '-') && AllDigits(s[1..])
    ensures ParseDecimal(s) == Some(if s[0] == '-' then -(DigitsValue(s[1..]) as int) else DigitsValue(s[1..]))
  {
    var d := s[1..];
    assert s[|s| - 1] == d[|d| - 1];
    ParseUnpadded(s);
    DigitsAreRun(d);
  }

  /** One underscore between two groups of digits does not change the value. */
  lemma UnderscoreGrouping(a: string, b: string)
    requires |a| > 0 && AllDigits(a) && |b| > 0 && AllDigits(b)
    ensures ParseDecimal(a + "_" + b) == ParseDecimal(a + b)
  {
    var g := a + "_" + b;
    assert g[0] == a[0] && g[|g| - 1] == b[|b| - 1];
    GroupedRun(a, b);
    ParseUnpadded(g);
    DigitsAccepted(a + b);
  }

  // ---------------------------------------------------------------------
  // str(n), the inverse
  // ---------------------------------------------------------------------

  function DigitChar(k: nat): (c: char)
    requires k < 10
    ensures IsDigit(c) && DigitValue(c) == k
  {
    ('0' as int + k) as char
  }

  /** `str(n)` for a natural number: its decimal digits, no leading zero. */
  function ShowNat(n: nat): (d: string)
    ensures |d| > 0 && AllDigits(d)
    ensures DigitsValue(d) == n
    ensures |d| > 1 ==> d[0] != '0'
  {
    if n < 10 then [DigitChar(n)]
    else
      var d := ShowNat(n / 10) + [DigitChar(n % 10)];
      assert d[..|d| - 1] == ShowNat(n / 10);
      d
  }

  /** `str(n)` for any integer: a minus sign before the digits of a negative number. */
  function ShowInt(n: int): (s: string)
    ensures |s| > 0
  {
    if n < 0 then "-" + ShowNat(-n) else ShowNat(n)
  }

  /** `int(str(n)) == n`: every integer survives printing and parsing. */
  lemma ParseShowInt(n: int)
    ensures ParseDecimal(ShowInt(n)) == Some(n)
  {
    var s := ShowInt(n);
    if n < 0 {
      assert s[1..] == ShowNat(-n);
      SignedDigitsAccepted(s);
    } else {
      DigitsAccepted(s);
    }
  }

  // ---------------------------------------------------------------------
  // Examples
  // ---------------------------------------------------------------------

  /** The default port literal. */
  lemma DefaultPortLiteral()
    ensures ParseDecimal("8000") == Some(8000)
  {
    assert DigitsValue("8000") == 8000 by {
      assert "8000"[..3] == "800" && "800"[..2] == "80" && "80"[..1] == "8" && "8"[..0] == "";
    }
    DigitsAccepted("8000");
  }

  /** The default port literal with any whitespace around it. */
  lemma PaddedPortLiteral(pre: string, post: string)
    requires AllSpace(pre) && AllSpace(post)
    ensures ParseDecimal(pre + "8000" + post) == Some(8000)
  {
    PaddingIgnored(pre, "8000", post);
    DefaultPortLiteral();
  }

  /** Literals `int()` refuses: no digits, misplaced underscores, inner spaces. */
  lemma ParseDecimalRejects(s: string)
    requires s in {"not-a-number", "", "1__0", "_1", "1_", "- 1", "8 0"}
    ensures ParseDecimal(s) == None
  {
    if s == "not-a-number" || s == "" {
      NoDigitRejected(s);
    } else {
      ParseUnpadded(s);
      if s == "1__0" {
        assert s[2..] == "_0";
      } else if s == "1_" {
        assert s[2..] == "";
      } else if s == "- 1" {
        assert s[1..][0] == ' ';
      } else if s == "8 0" {
        assert s[1] == ' ' && s[1..] == " 0";
      }
    }
  }
}
