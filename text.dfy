/**
 * The few string operations of the Java runtime that the services rely on:
 * Long.toString for lock keys and pool labels, String.trim for job types,
 * and ASCII upper/lower casing for lock keys and name comparison.
 */
module Text {

  function DigitChar(d: int): (c: char)
    requires 0 <= d < 10
    ensures '0' <= c <= '9'
  {
    ('0' as int + d) as char
  }

  /** Decimal digits of a non-negative number, most significant first. */
  function NatToString(n: nat): (s: string)
    ensures |s| > 0
    ensures n < 10 <==> |s| == 1
    ensures forall i :: 0 <= i < |s| ==> '0' <= s[i] <= '9'
    decreases n
  {
    if n < 10 then [DigitChar(n)] else NatToString(n / 10) + [DigitChar(n % 10)]
  }

  /** Long.toString: an optional minus sign followed by the decimal digits. */
  function IntToString(n: int): (s: string)
    ensures |s| > 0
    ensures forall i :: 0 <= i < |s| ==> s[i] == '-' || '0' <= s[i] <= '9'
    ensures (s[0] == '-') <==> n < 0
  {
    if n < 0 then "-" + NatToString(-n) else NatToString(n)
  }

  lemma {:induction false} NatToStringInjective(a: nat, b: nat)
    requires NatToString(a) == NatToString(b)
    ensures a == b
    decreases a
  {
    var s := NatToString(a);
    if a < 10 || b < 10 {
      assert s[0] == NatToString(b)[0];
    } else {
      var k := |s| - 1;
      assert NatToString(a / 10) == s[..k];
      assert NatToString(b / 10) == s[..k];
      NatToStringInjective(a / 10, b / 10);
      assert DigitChar(a % 10) == s[k] == DigitChar(b % 10);
    }
  }

  /** Distinct numbers print differently, so keys built from them never collide. */
  lemma IntToStringInjective(a: int, b: int)
    requires IntToString(a) == IntToString(b)
    ensures a == b
  {
    var s := IntToString(a);
    if a < 0 {
      assert NatToString(-a) == s[1..] == NatToString(-b);
      NatToStringInjective(-a, -b);
    } else {
      NatToStringInjective(a, b);
    }
  }

  /** Position of the first `sep` in `s`, or |s| when there is none. */
  function FirstIndexOf(s: string, sep: char): (k: nat)
    ensures k <= |s|
    ensures k < |s| ==> s[k] == sep
    ensures sep !in s[..k]
  {
    if s == [] || s[0] == sep then 0 else 1 + FirstIndexOf(s[1..], sep)
  }

  lemma {:induction false} FirstIndexAfterPrefix(a: string, b: string, sep: char)
    requires sep !in a
    ensures FirstIndexOf(a + [sep] + b, sep) == |a|
    decreases |a|
  {
    if a != [] {
      assert (a + [sep] + b)[0] == a[0];
      assert (a + [sep] + b)[1..] == a[1..] + [sep] + b;
      FirstIndexAfterPrefix(a[1..], b, sep);
    }
  }

  /**
   * Two strings glued around a separator that occurs in neither left part
   * can only be equal when both parts are: the separator marks the split.
   */
  lemma SplitAtSeparator(a: string, b: string, c: string, d: string, sep: char)
    requires sep !in a && sep !in c
    requires a + [sep] + b == c + [sep] + d
    ensures a == c && b == d
  {
    var l := a + [sep] + b;
    FirstIndexAfterPrefix(a, b, sep);
    FirstIndexAfterPrefix(c, d, sep);
    assert |a| == |c|;
    assert a == l[..|a|] && c == (c + [sep] + d)[..|c|];
    assert b == l[|a| + 1..] && d == (c + [sep] + d)[|c| + 1..];
  }

  // ---- String.trim ----

  /** String.trim strips every character whose code is at most that of the space. */
  predicate IsBlank(c: char) {
    c <= ' '
  }

  predicate AllBlank(s: string) {
    forall i :: 0 <= i < |s| ==> IsBlank(s[i])
  }

  function TrimStart(s: string): (r: string)
    ensures |r| <= |s| && r == s[|s| - |r|..]
    ensures r == [] || !IsBlank(r[0])
    ensures AllBlank(s[..|s| - |r|])
  {
    if |s| > 0 && IsBlank(s[0]) then TrimStart(s[1..]) else s
  }

  function TrimEnd(s: string): (r: string)
    ensures |r| <= |s| && r == s[..|r|]
    ensures r == [] || !IsBlank(r[|r| - 1])
    ensures AllBlank(s[|r|..])
  {
    if |s| > 0 && IsBlank(s[|s| - 1]) then TrimEnd(s[..|s| - 1]) else s
  }

  /** Java's String.trim. */
  function Trim(s: string): string {
    TrimEnd(TrimStart(s))
  }

  lemma {:induction false} TrimStartBlankPrefix(p: string, t: string)
    requires AllBlank(p)
    ensures TrimStart(p + t) == TrimStart(t)
    decreases |p|
  {
    if |p| > 0 {
      assert IsBlank(p[0]) && (p + t)[0] == p[0];
      assert AllBlank(p[1..]) by {
        forall i | 0 <= i < |p| - 1 ensures IsBlank(p[1..][i]) {
          assert p[1..][i] == p[i + 1];
        }
      }
      assert (p + t)[1..] == p[1..] + t;
      TrimStartBlankPrefix(p[1..], t);
    } else {
      assert p + t == t;
    }
  }

  lemma {:induction false} TrimEndBlankSuffix(t: string, q: string)
    requires AllBlank(q)
    ensures TrimEnd(t + q) == TrimEnd(t)
    decreases |q|
  {
    if |q| > 0 {
      assert (t + q)[..|t + q| - 1] == t + q[..|q| - 1];
      TrimEndBlankSuffix(t, q[..|q| - 1]);
    } else {
      assert t + q == t;
    }
  }

  /** Appending blanks after a string that is not all blank leaves its trimmed start as a prefix. */
  lemma {:induction false} TrimStartAppend(s: string, q: string)
    ensures !AllBlank(s) ==> TrimStart(s + q) == TrimStart(s) + q
    ensures AllBlank(s) ==> TrimStart(s + q) == TrimStart(q) && TrimStart(s) == []
    decreases |s|
  {
    if |s| == 0 {
      assert s + q == q;
    } else {
      assert (s + q)[1..] == s[1..] + q;
      TrimStartAppend(s[1..], q);
      if !IsBlank(s[0]) {
        assert !AllBlank(s);
      } else {
        assert AllBlank(s) <==> AllBlank(s[1..]);
      }
    }
  }

  lemma TrimStartOfBlank(q: string)
    requires AllBlank(q)
    ensures TrimStart(q) == []
  {
  }

  /** Surrounding a string with blanks does not change what String.trim returns. */
  lemma TrimIgnoresPadding(p: string, s: string, q: string)
    requires AllBlank(p) && AllBlank(q)
    ensures Trim(p + s + q) == Trim(s)
  {
    assert p + s + q == p + (s + q);
    TrimStartBlankPrefix(p, s + q);
    TrimStartAppend(s, q);
    if AllBlank(s) {
      TrimStartOfBlank(q);
    } else {
      TrimEndBlankSuffix(TrimStart(s), q);
    }
  }

  // ---- ASCII casing ----

  function UpperChar(c: char): char {
    if 'a' <= c <= 'z' then (c as int - 32) as char else c
  }

  function LowerChar(c: char): char {
    if 'A' <= c <= 'Z' then (c as int + 32) as char else c
  }

  /** String.toUpperCase restricted to ASCII letters. */
  function ToUpper(s: string): (r: string)
    ensures |r| == |s|
  {
    seq(|s|, i requires 0 <= i < |s| => UpperChar(s[i]))
  }

  /** String.toLowerCase restricted to ASCII letters. */
  function ToLower(s: string): (r: string)
    ensures |r| == |s|
  {
    seq(|s|, i requires 0 <= i < |s| => LowerChar(s[i]))
  }

  /** Case-insensitive equality as `a.toLowerCase().equals(b.toLowerCase())`. */
  predicate EqualsIgnoreCase(a: string, b: string) {
    ToLower(a) == ToLower(b)
  }

  /** Upper-casing forgets exactly the case distinction that lower-casing forgets. */
  lemma UpperAgreesWithIgnoreCase(a: string, b: string)
    ensures EqualsIgnoreCase(a, b) <==> ToUpper(a) == ToUpper(b)
  {
    if EqualsIgnoreCase(a, b) {
      forall i | 0 <= i < |a| ensures ToUpper(a)[i] == ToUpper(b)[i] {
        assert ToLower(a)[i] == ToLower(b)[i];
      }
    }
    if ToUpper(a) == ToUpper(b) {
      forall i | 0 <= i < |a| ensures ToLower(a)[i] == ToLower(b)[i] {
        assert ToUpper(a)[i] == ToUpper(b)[i];
      }
    }
  }
}
