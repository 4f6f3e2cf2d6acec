/** The string operations of Python's runtime that the formatter relies on:
    `str(n)` for a non-negative integer, `int(digits)` for the regex capture of
    a template size, and `str.splitlines()` for cutting the text into paragraphs. */
module Text {
  import opened Seqs

  predicate IsDigit(c: char)
  {
    '0' <= c <= '9'
  }

  predicate AllDigits(s: string)
  {
    forall i :: 0 <= i < |s| ==> IsDigit(s[i])
  }

  function DigitChar(d: nat): char
    requires d < 10
  {
    "0123456789"[d]
  }

  function DigitValue(c: char): nat
    requires IsDigit(c)
  {
    c as int - '0' as int
  }

  /** Python's `str(n)` for n >= 0: decimal digits, no sign, no leading zero. */
  function NatToString(n: nat): (s: string)
    ensures 0 < |s|
    ensures AllDigits(s)
    ensures |s| > 1 ==> s[0] != '0'
  {
    if n < 10 then [DigitChar(n)] else NatToString(n / 10) + [DigitChar(n % 10)]
  }

  /** Python's `int(s)` on a non-empty run of ASCII digits (leading zeros allowed). */
  function ParseDigits(s: string): nat
    requires AllDigits(s)
  {
    if |s| == 0 then 0 else 10 * ParseDigits(s[..|s| - 1]) + DigitValue(s[|s| - 1])
  }

  /** `int(str(n)) == n`. */
  lemma {:induction false} ParseNatToString(n: nat)
    ensures ParseDigits(NatToString(n)) == n
  {
    var s := NatToString(n);
    if n >= 10 {
      ParseNatToString(n / 10);
      assert s[..|s| - 1] == NatToString(n / 10);
    }
  }

  /** Different numbers print differently, so a number appended to a name keeps names apart. */
  lemma NatToStringInjective(a: nat, b: nat)
    ensures NatToString(a) == NatToString(b) ==> a == b
  {
    ParseNatToString(a);
    ParseNatToString(b);
  }

  /** The characters at which Python's `str.splitlines()` ends a line:
      LF, CR, VT, FF, FS, GS, RS, NEL, LINE SEPARATOR and PARAGRAPH SEPARATOR. */
  predicate IsLineBoundary(c: char)
  {
    c == '\n' || c == '\r' || c as int in {0x0B, 0x0C, 0x1C, 0x1D, 0x1E, 0x85, 0x2028, 0x2029}
  }

  /** Index of the first line boundary in `s`, or |s| when there is none. */
  function FirstBoundary(s: string): (i: nat)
    ensures i <= |s|
    ensures i < |s| ==> IsLineBoundary(s[i])
    ensures forall j :: 0 <= j < i ==> !IsLineBoundary(s[j])
  {
    if |s| == 0 then 0
    else if IsLineBoundary(s[0]) then 0
    else 1 + FirstBoundary(s[1..])
  }

  /** Python's `s.splitlines()`: the lines of `s` without their terminators, "\r\n"
      counting as one terminator, and no empty last line after a final terminator. */
  function SplitLines(s: string): (ps: seq<string>)
    ensures |ps| <= |s|
    ensures forall k, j :: 0 <= k < |ps| && 0 <= j < |ps[k]| ==> !IsLineBoundary(ps[k][j])
    decreases |s|
  {
    var i := FirstBoundary(s);
    if |s| == 0 then []
    else if i == |s| then [s]
    else
      var skip := if s[i] == '\r' && i + 1 < |s| && s[i + 1] == '\n' then 2 else 1;
      [s[..i]] + SplitLines(s[i + skip..])
  }

  /** Joining paragraphs with "\n" and splitting the result into lines gives the
      paragraphs back, provided the last one is not empty (a final empty line is
      not reported by `splitlines`). */
  lemma {:induction false} SplitLinesJoin(ps: seq<string>)
    requires ps != [] && ps[|ps| - 1] != ""
    requires forall k, j :: 0 <= k < |ps| && 0 <= j < |ps[k]| ==> !IsLineBoundary(ps[k][j])
    ensures SplitLines(Join(ps, '\n')) == ps
  {
    var s := Join(ps, '\n');
    var p := ps[0];
    if |ps| == 1 {
      assert FirstBoundary(s) == |s| by {
        assert forall j :: 0 <= j < |s| ==> !IsLineBoundary(p[j]);
      }
    } else {
      var rest := Join(ps[1..], '\n');
      assert s == p + ['\n'] + rest;
      assert s[|p|] == '\n';
      assert forall j :: 0 <= j < |p| ==> s[j] == p[j];
      assert FirstBoundary(s) == |p|;
      assert s[..|p|] == p;
      assert s[|p| + 1..] == rest;
      SplitLinesJoin(ps[1..]);
    }
  }
}
