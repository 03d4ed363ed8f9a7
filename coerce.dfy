/**
 * The total coercions config.py applies to raw environment strings:
 * `.lower() == "true"` for booleans and `.split(",")` for the host list.
 */
module Coerce {

  // ---------------------------------------------------------------------
  // Lower-casing and the boolean rule
  // ---------------------------------------------------------------------

  /** ASCII lower-casing of one character; every other character is unchanged. */
  function LowerChar(c: char): char {
    if 'A' <= c <= 'Z' then (c as int + ('a' as int - 'A' as int)) as char else c
  }

  /** `str.lower()` restricted to ASCII: same length, each character lowered. */
  function LowerAscii(s: string): (r: string)
    ensures |r| == |s|
    ensures forall i :: 0 <= i < |s| ==> r[i] == LowerChar(s[i])
  {
    if s == [] then [] else [LowerChar(s[0])] + LowerAscii(s[1..])
  }

  /** The spellings of "true" in any mix of letter case. */
  predicate IsTrueSpelling(s: string) {
    && |s| == 4
    && (s[0] == 't' || s[0] == 'T')
    && (s[1] == 'r' || s[1] == 'R')
    && (s[2] == 'u' || s[2] == 'U')
    && (s[3] == 'e' || s[3] == 'E')
  }

  /** The boolean rule of config.py: lower-case the raw value and compare it with "true". */
  function ParseBool(s: string): (b: bool)
    ensures b <==> IsTrueSpelling(s)
  {
    var low := LowerAscii(s);
    assert low == "true" <==> IsTrueSpelling(s) by {
      if IsTrueSpelling(s) {
        assert low == "true";
      }
    }
    low == "true"
  }

  /** Mixed-case "true" is accepted; anything else, padded or abbreviated, is false. */
  lemma ParseBoolExamples()
    ensures ParseBool("true") && ParseBool("TRUE") && ParseBool("True") && ParseBool("tRuE")
    ensures !ParseBool("") && !ParseBool("1") && !ParseBool("yes") && !ParseBool(" true")
    ensures !ParseBool("false") && !ParseBool("truee")
  {
  }

  // ---------------------------------------------------------------------
  // Comma splitting and its inverse
  // ---------------------------------------------------------------------

  /** Number of commas in `s`. */
  function CountComma(s: string): nat {
    if s == [] then 0 else (if s[0] == ',' then 1 else 0) + CountComma(s[1..])
  }

  /** No element of `parts` contains a comma. */
  predicate CommaFree(parts: seq<string>) {
    forall i :: 0 <= i < |parts| ==> ',' !in parts[i]
  }

  /** `",".join(parts)`. */
  function Join(parts: seq<string>): string {
    if |parts| == 0 then ""
    else if |parts| == 1 then parts[0]
    else parts[0] + "," + Join(parts[1..])
  }

  /** Joining a list with one more element in front. */
  lemma JoinCons(a: string, ps: seq<string>)
    ensures Join([a] + ps) == if ps == [] then a else a + "," + Join(ps)
  {
    if ps != [] {
      assert ([a] + ps)[1..] == ps;
    }
  }

  /**
   * `s.split(",")`: the pieces between commas, in order, with no trimming and
   * with empty pieces kept. The result is never empty, holds no comma, has one
   * piece more than `s` has commas, and joins back to `s`.
   */
  function SplitComma(s: string): (parts: seq<string>)
    ensures |parts| == CountComma(s) + 1
    ensures CommaFree(parts)
    ensures Join(parts) == s
  {
    if s == [] then [""]
    else
      var rest := SplitComma(s[1..]);
      if s[0] == ',' then
        JoinCons("", rest);
        [""] + rest
      else
        var head := [s[0]] + rest[0];
        JoinCons(rest[0], rest[1..]);
        JoinCons(head, rest[1..]);
        assert [rest[0]] + rest[1..] == rest;
        [head] + rest[1..]
  }

  /** Splitting a comma-free string gives it back as the only piece. */
  lemma {:induction false} SplitCommaFree(a: string)
    requires ',' !in a
    ensures SplitComma(a) == [a]
  {
    if a != [] {
      SplitCommaFree(a[1..]);
      assert [a[0]] + a[1..] == a;
    }
  }

  /** A comma-free first piece followed by a comma splits off as the first piece. */
  lemma {:induction false} SplitCommaAfter(a: string, u: string)
    requires ',' !in a
    ensures SplitComma(a + "," + u) == [a] + SplitComma(u)
  {
    var s := a + "," + u;
    if a == [] {
      assert s[1..] == u;
    } else {
      assert s[1..] == a[1..] + "," + u;
      SplitCommaAfter(a[1..], u);
      assert [a[0]] + a[1..] == a;
    }
  }

  /** Splitting undoes joining, for any non-empty list of comma-free pieces. */
  lemma {:induction false} SplitJoin(parts: seq<string>)
    requires |parts| >= 1 && CommaFree(parts)
    ensures SplitComma(Join(parts)) == parts
  {
    if |parts| == 1 {
      SplitCommaFree(parts[0]);
    } else {
      SplitJoin(parts[1..]);
      SplitCommaAfter(parts[0], Join(parts[1..]));
      assert [parts[0]] + parts[1..] == parts;
    }
  }

  /**
   * The split is the only non-empty comma-free list of pieces that joins back
   * to `s`.
   */
  lemma SplitCommaUnique(s: string, parts: seq<string>)
    requires |parts| >= 1 && CommaFree(parts) && Join(parts) == s
    ensures SplitComma(s) == parts
  {
    SplitJoin(parts);
  }

  /** The splits config.py relies on: the default "*", a plain list, empty and padded pieces. */
  lemma SplitCommaExamples(s: string, parts: seq<string>)
    requires (s, parts) in {
      ("*", ["*"]), ("", [""]), ("a,b,c", ["a", "b", "c"]), ("a,,b", ["a", "", "b"]), (" a, b", [" a", " b"])}
    ensures SplitComma(s) == parts
  {
    if |parts| == 1 {
      SplitCommaFree(s);
    } else {
      assert CommaFree(parts);
      JoinCons(parts[0], parts[1..]);
      if |parts| == 3 {
        JoinCons(parts[1], parts[2..]);
        JoinCons(parts[2], []);
        assert [parts[0]] + parts[1..] == parts && [parts[1]] + parts[2..] == parts[1..];
      } else {
        JoinCons(parts[1], []);
        assert [parts[0]] + parts[1..] == parts;
      }
      SplitCommaUnique(s, parts);
    }
  }
}
