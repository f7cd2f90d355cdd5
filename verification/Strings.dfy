/** The string operations the services use, on ASCII. */
module Strings {

  predicate IsSpace(c: char) {
    c == ' ' || '\t' <= c <= '\r' || '\U{1C}' <= c <= '\U{1F}'
  }

  function StripLeft(s: string): string {
    if s != [] && IsSpace(s[0]) then StripLeft(s[1..]) else s
  }

  function StripRight(s: string): string {
    if s != [] && IsSpace(s[|s| - 1]) then StripRight(s[..|s| - 1]) else s
  }

  function Strip(s: string): string {
    StripRight(StripLeft(s))
  }

  function UpperChar(c: char): char {
    if 'a' <= c <= 'z' then ((c as int) - 32) as char else c
  }

  function Upper(s: string): (u: string)
    ensures |u| == |s| && forall i :: 0 <= i < |s| ==> u[i] == UpperChar(s[i])
  {
    if s == [] then [] else [UpperChar(s[0])] + Upper(s[1..])
  }

  /** White space is the blank, the five control characters from tab to carriage return and the four
      separators; upper-casing moves the letters a to z and nothing else. */
  lemma AsciiExactly(c: char)
    ensures IsSpace(c) <==> c as int in {32, 9, 10, 11, 12, 13, 28, 29, 30, 31}
    ensures if 97 <= c as int <= 122 then UpperChar(c) as int == c as int - 32 else UpperChar(c) == c
  {
  }

  /** Stripping keeps a middle part, takes only white space off its ends, and leaves none there. */
  lemma StripExactly(s: string) returns (from: nat, to: nat)
    ensures from <= to <= |s| && Strip(s) == s[from..to]
    ensures AllSpace(s[..from]) && AllSpace(s[to..])
    ensures Strip(s) != [] ==> !IsSpace(Strip(s)[0]) && !IsSpace(Strip(s)[|Strip(s)| - 1])
  {
    from := LeftSpaces(s);
    var middle := s[from..];
    var n := RightSpaces(middle);
    to := from + n;
    assert middle[..n] == s[from..to] && middle[n..] == s[to..];
  }

  lemma {:induction false} LeftSpaces(s: string) returns (n: nat)
    ensures n <= |s| && StripLeft(s) == s[n..] && AllSpace(s[..n]) && (n < |s| ==> !IsSpace(s[n]))
  {
    n := 0;
    if s != [] && IsSpace(s[0]) {
      n := LeftSpaces(s[1..]);
      assert s[1..][n..] == s[n + 1..] && s[..n + 1] == [s[0]] + s[1..][..n];
      n := n + 1;
    }
  }

  lemma {:induction false} RightSpaces(s: string) returns (n: nat)
    ensures n <= |s| && StripRight(s) == s[..n] && AllSpace(s[n..]) && (n > 0 ==> !IsSpace(s[n - 1]))
  {
    n := |s|;
    if s != [] && IsSpace(s[n - 1]) {
      var front := s[..n - 1];
      n := RightSpaces(front);
      assert front[..n] == s[..n] && s[n..] == front[n..] + [s[|s| - 1]];
    }
  }

  /** The part of `s` before its first `sep`; all of `s` when there is none. */
  function Before(s: string, sep: char): string {
    if s == [] || s[0] == sep then [] else [s[0]] + Before(s[1..], sep)
  }

  /** An upper-case token with no separator and no white space at its ends. */
  ghost predicate IsToken(t: string, sep: char) {
    && t != [] && !IsSpace(t[0]) && !IsSpace(t[|t| - 1])
    && forall i :: 0 <= i < |t| ==> t[i] != sep && !('a' <= t[i] <= 'z')
  }

  lemma {:induction false} BeforeSeparator(t: string, sep: char, rest: string)
    requires forall i :: 0 <= i < |t| ==> t[i] != sep
    requires rest == [] || rest[0] == sep
    ensures Before(t + rest, sep) == t
  {
    if t == [] {
      assert t + rest == rest;
    } else {
      assert (t + rest)[1..] == t[1..] + rest;
      BeforeSeparator(t[1..], sep, rest);
    }
  }

  lemma StripToken(t: string, sep: char)
    requires IsToken(t, sep)
    ensures Strip(t) == t && Upper(t) == t
  {
  }

  /** Reading the token back from a message that starts with it. */
  lemma TokenRecovered(t: string, sep: char, rest: string)
    requires IsToken(t, sep)
    requires rest == [] || rest[0] == sep
    ensures Upper(Strip(Before(t + rest, sep))) == t
  {
    BeforeSeparator(t, sep, rest);
    StripToken(t, sep);
  }

  lemma {:induction false} StripRightKeepsFront(front: string, back: string)
    requires front != [] && !IsSpace(front[|front| - 1])
    ensures StripRight(front + back) == front + StripRight(back)
  {
    var s := front + back;
    if back == [] {
      assert s == front;
      assert front + StripRight(back) == front;
    } else if IsSpace(back[|back| - 1]) {
      assert s[..|s| - 1] == front + back[..|back| - 1];
      StripRightKeepsFront(front, back[..|back| - 1]);
    }
  }

  predicate AllSpace(s: string) {
    forall i :: 0 <= i < |s| ==> IsSpace(s[i])
  }

  lemma {:induction false} StripLeftPadded(before: string, t: string)
    requires AllSpace(before) && t != [] && !IsSpace(t[0])
    ensures StripLeft(before + t) == t
  {
    if before == [] {
      assert before + t == t;
    } else {
      assert (before + t)[1..] == before[1..] + t;
      StripLeftPadded(before[1..], t);
    }
  }

  lemma {:induction false} StripRightPadded(t: string, after: string)
    requires AllSpace(after) && t != [] && !IsSpace(t[|t| - 1])
    ensures StripRight(t + after) == t
  {
    if after == [] {
      assert t + after == t;
    } else {
      assert (t + after)[..|t + after| - 1] == t + after[..|after| - 1];
      StripRightPadded(t, after[..|after| - 1]);
    }
  }

  /** White space around a text is stripped, and nothing else. */
  lemma StripPadded(before: string, t: string, after: string)
    requires AllSpace(before) && AllSpace(after)
    requires t != [] && !IsSpace(t[0]) && !IsSpace(t[|t| - 1])
    ensures Strip(before + t + after) == t
  {
    assert before + t + after == before + (t + after);
    StripLeftPadded(before, t + after);
    StripRightPadded(t, after);
  }

  // ---------------------------------------------------------------- stripping keeps text

  ghost predicate HasText(s: string) {
    exists i :: 0 <= i < |s| && !IsSpace(s[i])
  }

  lemma {:induction false} StripLeftText(s: string)
    ensures HasText(s) <==> HasText(StripLeft(s))
    ensures HasText(s) ==> StripLeft(s) != [] && !IsSpace(StripLeft(s)[0])
    ensures !HasText(s) ==> StripLeft(s) == []
  {
    if s != [] && IsSpace(s[0]) {
      StripLeftText(s[1..]);
      if HasText(s) {
        var i :| 0 <= i < |s| && !IsSpace(s[i]);
        assert s[1..][i - 1] == s[i];
      }
      if HasText(s[1..]) {
        var i :| 0 <= i < |s[1..]| && !IsSpace(s[1..][i]);
        assert s[i + 1] == s[1..][i];
      }
    } else if s != [] {
      assert !IsSpace(s[0]);
    }
  }

  lemma {:induction false} StripRightText(s: string)
    ensures HasText(s) <==> StripRight(s) != []
    ensures HasText(s) ==> HasText(StripRight(s))
  {
    if s != [] && IsSpace(s[|s| - 1]) {
      var front := s[..|s| - 1];
      StripRightText(front);
      if HasText(s) {
        var i :| 0 <= i < |s| && !IsSpace(s[i]);
        assert front[i] == s[i];
      }
      if HasText(front) {
        var i :| 0 <= i < |front| && !IsSpace(front[i]);
        assert s[i] == front[i];
      }
    } else if s != [] {
      assert !IsSpace(s[|s| - 1]);
    }
  }

  /** Stripping leaves nothing exactly when the text is all white space. */
  lemma StripEmpty(s: string)
    ensures Strip(s) == [] <==> !HasText(s)
    ensures HasText(s) ==> HasText(Strip(s)) && HasText(Upper(Strip(s)))
  {
    StripLeftText(s);
    StripRightText(StripLeft(s));
    if HasText(s) {
      var t := Strip(s);
      var i :| 0 <= i < |t| && !IsSpace(t[i]);
      assert !IsSpace(Upper(t)[i]);
    }
  }

  // ---------------------------------------------------------------- decimal numerals

  function DigitChar(d: nat): char
    requires d < 10
  {
    (('0' as int) + d) as char
  }

  /** The decimal numeral of a row id. */
  function Numeral(n: nat): string {
    if n < 10 then [DigitChar(n)] else Numeral(n / 10) + [DigitChar(n % 10)]
  }

  function NumeralValue(s: string): int {
    if s == [] then 0 else 10 * NumeralValue(s[..|s| - 1]) + (s[|s| - 1] as int) - ('0' as int)
  }

  lemma {:induction false} NumeralRoundTrip(n: nat)
    ensures NumeralValue(Numeral(n)) == n
  {
    if n >= 10 {
      NumeralRoundTrip(n / 10);
      var front := Numeral(n / 10);
      assert (front + [DigitChar(n % 10)])[..|front|] == front;
    } else {
      assert [DigitChar(n)][..0] == [];
    }
  }
}
