/**
 * String helpers the calculator relies on: ASCII case mapping
 * (`toUpperCase` / `toLowerCase`), decimal rendering of numbers inside
 * template literals, and the `/\s+/g` whitespace-run replacement used to
 * build export file names.
 */
module Text {

  predicate IsAsciiLower(c: char) { 'a' <= c <= 'z' }

  predicate IsAsciiUpper(c: char) { 'A' <= c <= 'Z' }

  function UpperChar(c: char): char {
    if IsAsciiLower(c) then (c as int - 32) as char else c
  }

  function LowerChar(c: char): char {
    if IsAsciiUpper(c) then (c as int + 32) as char else c
  }

  /** `String.prototype.toUpperCase`, restricted to ASCII letters. */
  function ToUpper(s: string): string {
    if s == [] then [] else [UpperChar(s[0])] + ToUpper(s[1..])
  }

  /** Only ASCII a-z change under upper-casing, each to its capital. */
  lemma UpperCharSpec(c: char)
    ensures IsAsciiLower(c) ==> UpperChar(c) as int == c as int - 32 && IsAsciiUpper(UpperChar(c))
    ensures !IsAsciiLower(c) ==> UpperChar(c) == c
  {
  }

  /** Upper-casing keeps the length and maps each character on its own. */
  lemma {:induction false} ToUpperSpec(s: string)
    ensures |ToUpper(s)| == |s|
    ensures forall i :: 0 <= i < |s| ==> ToUpper(s)[i] == UpperChar(s[i])
  {
    if s != [] {
      ToUpperSpec(s[1..]);
    }
  }

  /** Upper-casing twice is upper-casing once. */
  lemma ToUpperIdempotent(s: string)
    ensures ToUpper(ToUpper(s)) == ToUpper(s)
  {
    ToUpperSpec(s);
    ToUpperSpec(ToUpper(s));
  }

  /** `String.prototype.toLowerCase`, restricted to ASCII letters. */
  function ToLower(s: string): string {
    if s == [] then [] else [LowerChar(s[0])] + ToLower(s[1..])
  }

  lemma {:induction false} ToLowerSpec(s: string)
    ensures |ToLower(s)| == |s|
    ensures forall i :: 0 <= i < |s| ==> ToLower(s)[i] == LowerChar(s[i])
  {
    if s != [] {
      ToLowerSpec(s[1..]);
    }
  }

  lemma {:induction false} ToLowerAppend(a: string, b: string)
    ensures ToLower(a + b) == ToLower(a) + ToLower(b)
  {
    if a == [] {
      assert a + b == b;
    } else {
      assert (a + b)[1..] == a[1..] + b;
      ToLowerAppend(a[1..], b);
    }
  }

  predicate IsDigit(c: char) { '0' <= c <= '9' }

  function DigitChar(d: nat): (c: char)
    requires d < 10
    ensures IsDigit(c)
  {
    ('0' as int + d) as char
  }

  function DigitValue(c: char): (d: nat)
    requires IsDigit(c)
    ensures d < 10
  {
    c as int - '0' as int
  }

  predicate AllDigits(s: string) {
    forall i :: 0 <= i < |s| ==> IsDigit(s[i])
  }

  /** The number a string of decimal digits denotes, most significant first. */
  function DecimalValue(s: string): nat
    requires AllDigits(s)
    decreases |s|
  {
    if s == [] then 0 else 10 * DecimalValue(s[..|s| - 1]) + DigitValue(s[|s| - 1])
  }

  /**
   * The decimal text JavaScript produces for a non-negative integer: digits
   * only, reading back to n, with a leading zero only for 0 itself.
   */
  function Decimal(n: nat): (r: string)
    ensures |r| >= 1
    ensures AllDigits(r)
    ensures DecimalValue(r) == n
    ensures r[0] == '0' <==> n == 0
    ensures n < 10 <==> |r| == 1
    decreases n
  {
    if n < 10 then [DigitChar(n)]
    else
      var high := Decimal(n / 10);
      var r := high + [DigitChar(n % 10)];
      assert r[..|r| - 1] == high;
      r
  }

  /** JavaScript's `\s` class: the WhiteSpace and LineTerminator code points. */
  const Spaces: set<char> := {
    ' ', '\t', '\n', '\r', '\U{000B}', '\U{000C}', '\U{00A0}', '\U{1680}',
    '\U{2000}', '\U{2001}', '\U{2002}', '\U{2003}', '\U{2004}', '\U{2005}',
    '\U{2006}', '\U{2007}', '\U{2008}', '\U{2009}', '\U{200A}',
    '\U{2028}', '\U{2029}', '\U{202F}', '\U{205F}', '\U{3000}', '\U{FEFF}'
  }

  predicate IsSpace(c: char) { c in Spaces }

  /** Lower-casing moves no character into or out of the whitespace class. */
  lemma LowerKeepsSpaces(c: char)
    ensures IsSpace(LowerChar(c)) <==> IsSpace(c)
  {
  }

  // The run replacement below is stated for any character class `ws`;
  // the export file name uses it with `Spaces`.

  predicate NoneIn(s: string, ws: set<char>) {
    forall i :: 0 <= i < |s| ==> s[i] !in ws
  }

  predicate AllIn(s: string, ws: set<char>) {
    forall i :: 0 <= i < |s| ==> s[i] in ws
  }

  /** Drops the run of class characters at the front of `s`. */
  function SkipRun(s: string, ws: set<char>): (r: string)
    ensures |r| <= |s|
    ensures r == [] || r[0] !in ws
  {
    if s != [] && s[0] in ws then SkipRun(s[1..], ws) else s
  }

  /** `s.replace(/[ws]+/g, "-")`: every maximal run of class characters becomes one dash. */
  function ReplaceRuns(s: string, ws: set<char>): (r: string)
    ensures '-' !in ws ==> NoneIn(r, ws)
    ensures |r| <= |s|
    decreases |s|
  {
    if s == [] then []
    else if s[0] in ws then "-" + ReplaceRuns(SkipRun(s[1..], ws), ws)
    else [s[0]] + ReplaceRuns(s[1..], ws)
  }

  predicate NoSpace(s: string) { NoneIn(s, Spaces) }

  predicate AllSpace(s: string) { AllIn(s, Spaces) }

  /** `s.replace(/\s+/g, "-")`. */
  function ReplaceSpaceRuns(s: string): (r: string)
    ensures NoSpace(r)
    ensures |r| <= |s|
  {
    ReplaceRuns(s, Spaces)
  }

  lemma {:induction false} SkipRunAppend(a: string, b: string, ws: set<char>)
    ensures AllIn(a, ws) ==> SkipRun(a + b, ws) == SkipRun(b, ws)
    ensures !AllIn(a, ws) ==> SkipRun(a + b, ws) == SkipRun(a, ws) + b
    decreases |a|
  {
    if a == [] {
      assert a + b == b;
    } else if a[0] in ws {
      var t := a[1..];
      assert (a + b)[1..] == t + b;
      assert SkipRun(a + b, ws) == SkipRun(t + b, ws);
      assert SkipRun(a, ws) == SkipRun(t, ws);
      assert AllIn(a, ws) <==> AllIn(t, ws) by {
        if AllIn(t, ws) {
          forall i | 0 <= i < |a| ensures a[i] in ws {
            if i > 0 { assert a[i] == t[i - 1]; }
          }
        }
      }
      SkipRunAppend(t, b, ws);
    } else {
      assert SkipRun(a + b, ws) == a + b;
    }
  }

  lemma {:induction false} SkipRunKeepsLast(s: string, ws: set<char>)
    requires !AllIn(s, ws)
    ensures SkipRun(s, ws) != [] && SkipRun(s, ws)[|SkipRun(s, ws)| - 1] == s[|s| - 1]
    decreases |s|
  {
    if s[0] in ws {
      var t := s[1..];
      assert !AllIn(t, ws) by {
        var i :| 0 <= i < |s| && s[i] !in ws;
        assert i > 0 && s[i] == t[i - 1];
      }
      SkipRunKeepsLast(t, ws);
    }
  }

  lemma NoneInAppend(a: string, b: string, ws: set<char>)
    requires NoneIn(a, ws) && NoneIn(b, ws)
    ensures NoneIn(a + b, ws)
  {
    forall i | 0 <= i < |a + b| ensures (a + b)[i] !in ws {
      if i >= |a| { assert (a + b)[i] == b[i - |a|]; }
    }
  }

  /** Text without class characters passes through the replacement unchanged. */
  lemma {:induction false} NoneInUnchanged(s: string, ws: set<char>)
    requires NoneIn(s, ws)
    ensures ReplaceRuns(s, ws) == s
  {
    if s != [] {
      assert NoneIn(s[1..], ws) by {
        forall i | 0 <= i < |s[1..]| ensures s[1..][i] !in ws {
          assert s[1..][i] == s[i + 1];
        }
      }
      NoneInUnchanged(s[1..], ws);
      assert s == [s[0]] + s[1..];
    }
  }

  /** A run of any length is replaced by exactly one dash. */
  lemma {:induction false} RunBecomesOneDash(w: string, ws: set<char>)
    requires w != [] && AllIn(w, ws)
    ensures ReplaceRuns(w, ws) == "-"
  {
    SkipRunAppend(w[1..], [], ws);
    assert w[1..] + [] == w[1..];
  }

  /**
   * The replacement is compositional wherever the cut does not fall inside a
   * run, so together with `RunBecomesOneDash` and the single character case
   * it determines the result of every input.
   */
  lemma {:induction false} ReplaceRunsAppend(a: string, b: string, ws: set<char>)
    requires a == [] || b == [] || a[|a| - 1] !in ws || b[0] !in ws
    ensures ReplaceRuns(a + b, ws) == ReplaceRuns(a, ws) + ReplaceRuns(b, ws)
    decreases |a|, 1
  {
    if a == [] {
      assert a + b == b;
    } else if b == [] {
      assert a + b == a;
    } else if a[0] !in ws {
      var t := a[1..];
      assert (a + b)[0] == a[0] && (a + b)[1..] == t + b;
      assert ReplaceRuns(a + b, ws) == [a[0]] + ReplaceRuns(t + b, ws);
      assert ReplaceRuns(a, ws) == [a[0]] + ReplaceRuns(t, ws);
      assert t == [] || t[|t| - 1] == a[|a| - 1];
      ReplaceRunsAppend(t, b, ws);
    } else {
      RunHeadAppend(a, b, ws);
    }
  }

  /** The case of `ReplaceRunsAppend` where `a` starts with a run. */
  lemma {:induction false} RunHeadAppend(a: string, b: string, ws: set<char>)
    requires a != [] && b != [] && a[0] in ws
    requires a[|a| - 1] !in ws || b[0] !in ws
    ensures ReplaceRuns(a + b, ws) == ReplaceRuns(a, ws) + ReplaceRuns(b, ws)
    decreases |a|, 0
  {
    var t := a[1..];
    assert (a + b)[1..] == t + b;
    SkipRunAppend(t, b, ws);
    if AllIn(t, ws) {
      SkipRunAppend(t, [], ws);
      assert t + [] == t;
      assert a[|a| - 1] in ws by {
        if |t| > 0 { assert a[|a| - 1] == t[|t| - 1]; }
      }
      assert SkipRun(b, ws) == b;
    } else {
      var u := SkipRun(t, ws);
      SkipRunKeepsLast(t, ws);
      assert u[|u| - 1] == a[|a| - 1];
      ReplaceRunsAppend(u, b, ws);
    }
  }

  /** Two words around a run come out joined by one dash. */
  lemma DashBetween(x: string, y: string, z: string, ws: set<char>)
    requires NoneIn(x, ws) && NoneIn(z, ws)
    requires y != [] && AllIn(y, ws)
    ensures ReplaceRuns(x + y + z, ws) == x + "-" + z
  {
    assert x + y + z == x + (y + z);
    assert x == [] || x[|x| - 1] !in ws;
    ReplaceRunsAppend(x, y + z, ws);
    assert z == [] || z[0] !in ws;
    ReplaceRunsAppend(y, z, ws);
    RunBecomesOneDash(y, ws);
    NoneInUnchanged(x, ws);
    NoneInUnchanged(z, ws);
  }
}
