/**
 Python text primitives the plugin relies on: `str()` of an integer, which
 renders the numeric command-line arguments, and `readlines()`, which splits
 the output file for the gofrt parser.
 */
module Text {

  predicate IsDigit(c: char) {
    '0' <= c <= '9'
  }

  function DigitChar(d: nat): (c: char)
    requires d < 10
    ensures IsDigit(c)
  {
    ('0' as int + d) as char
  }

  function DigitValue(c: char): (d: nat)
    requires IsDigit(c)
    ensures d < 10
  {
    c as int - '0' as int
  }

  predicate AllDigits(s: string) {
    forall i :: 0 <= i < |s| ==> IsDigit(s[i])
  }

  /** `str(n)` for a non-negative integer: its decimal digits, without leading zeros. */
  function NatText(n: nat): (s: string)
    ensures |s| >= 1 && AllDigits(s)
    ensures |s| > 1 ==> s[0] != '0'
  {
    if n < 10 then [DigitChar(n)] else NatText(n / 10) + [DigitChar(n % 10)]
  }

  /** `str(n)` for any integer: a minus sign in front of the magnitude when negative. */
  function IntText(n: int): (s: string)
    ensures |s| >= 1
    ensures s[0] == '-' <==> n < 0
    ensures n >= 0 ==> AllDigits(s)
    ensures n < 0 ==> AllDigits(s[1..]) && |s| >= 2
  {
    if n < 0 then "-" + NatText(-n) else NatText(n)
  }

  /** Reads a string of decimal digits back as a number. */
  function ParseNat(s: string): nat
    requires AllDigits(s)
  {
    if |s| == 0 then 0 else 10 * ParseNat(s[..|s| - 1]) + DigitValue(s[|s| - 1])
  }

  /** Reads an optionally signed decimal numeral back as an integer. */
  function ParseInt(s: string): int
    requires |s| >= 1
    requires s[0] == '-' ==> AllDigits(s[1..])
    requires s[0] != '-' ==> AllDigits(s)
  {
    if s[0] == '-' then 0 - ParseNat(s[1..]) else ParseNat(s)
  }

  lemma {:induction false} NatTextRoundTrip(n: nat)
    ensures ParseNat(NatText(n)) == n
  {
    if n >= 10 {
      var s := NatText(n);
      var init := NatText(n / 10);
      assert s[..|s| - 1] == init;
      NatTextRoundTrip(n / 10);
    }
  }

  /** The rendering of an integer on the command line determines the integer. */
  lemma {:induction false} IntTextRoundTrip(n: int)
    ensures ParseInt(IntText(n)) == n
  {
    if n < 0 {
      assert IntText(n)[1..] == NatText(-n);
      NatTextRoundTrip(-n);
    } else {
      NatTextRoundTrip(n);
    }
  }

  lemma {:induction false} IntTextInjective(a: int, b: int)
    ensures IntText(a) == IntText(b) <==> a == b
  {
    if IntText(a) == IntText(b) {
      IntTextRoundTrip(a);
      IntTextRoundTrip(b);
    }
  }

  /**
   Length of the first line of a non-empty text: up to and including the
   first newline, or the whole text when it has none.
   */
  function LineLength(t: string): (n: nat)
    requires |t| > 0
    ensures 1 <= n <= |t|
    ensures forall i :: 0 <= i < n - 1 ==> t[i] != '\n'
    ensures n < |t| ==> t[n - 1] == '\n'
  {
    if t[0] == '\n' || |t| == 1 then 1 else 1 + LineLength(t[1..])
  }

  /**
   `readlines()` on a file whose newlines are already `'\n'`: every line
   keeps its terminating newline; the last line may lack one.
   */
  function ReadLines(t: string): (lines: seq<string>)
    ensures forall k :: 0 <= k < |lines| ==> |lines[k]| > 0
    ensures forall k :: 0 <= k < |lines| - 1 ==> lines[k][|lines[k]| - 1] == '\n'
    ensures forall k, i :: 0 <= k < |lines| && 0 <= i < |lines[k]| - 1 ==> lines[k][i] != '\n'
    ensures |lines| == 0 <==> |t| == 0
    decreases |t|
  {
    if |t| == 0 then []
    else
      var n := LineLength(t);
      [t[..n]] + ReadLines(t[n..])
  }

  function Concat(lines: seq<string>): string {
    if |lines| == 0 then "" else lines[0] + Concat(lines[1..])
  }

  /** Joining the lines again gives back the whole file: nothing is dropped or reordered. */
  lemma {:induction false} ReadLinesRoundTrip(t: string)
    ensures Concat(ReadLines(t)) == t
    decreases |t|
  {
    if |t| > 0 {
      var n := LineLength(t);
      var lines := ReadLines(t);
      assert lines[1..] == ReadLines(t[n..]);
      ReadLinesRoundTrip(t[n..]);
      assert t == t[..n] + t[n..];
    }
  }
}
