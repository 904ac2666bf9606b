/** The score line shown beside the playfield: how many walls the character has passed. */
module Scoreboard {

  /** The fixed start of the score line. */
  const BANNER: string := "Nyanyanyanyan!!! "

  predicate IsDigit(c: char)
  {
    '0' <= c <= '9'
  }

  /** The digit character for d. */
  function DigitChar(d: nat): char
    requires d < 10
  {
    (('0' as int) + d) as char
  }

  /** The value of a digit character. */
  function DigitValue(c: char): int
  {
    (c as int) - ('0' as int)
  }

  /** The decimal numeral of n with no sign and no leading zero, as "%d" renders it. */
  function Decimal(n: nat): (r: string)
    ensures |r| >= 1
    ensures forall i :: 0 <= i < |r| ==> IsDigit(r[i])
    ensures r[0] == '0' <==> n == 0
    decreases n
  {
    if n < 10 then [DigitChar(n)] else Decimal(n / 10) + [DigitChar(n % 10)]
  }

  /** The number a string of digits stands for, most significant digit first. */
  function ValueOf(s: string): int
    decreases |s|
  {
    if s == [] then 0 else ValueOf(s[..|s| - 1]) * 10 + DigitValue(s[|s| - 1])
  }

  /** Reading the numeral of n gives n back. */
  lemma {:induction false} DecimalRoundTrip(n: nat)
    ensures ValueOf(Decimal(n)) == n
    decreases n
  {
    if n >= 10 {
      var d := Decimal(n);
      assert d[..|d| - 1] == Decimal(n / 10);
      DecimalRoundTrip(n / 10);
    }
  }

  /** The score line: the banner, the score and "walls", with "wall" for a score of exactly 1. */
  function TextboxContent(score: nat): (r: string)
    ensures r == BANNER + Decimal(score) + (if score == 1 then " wall." else " walls.")
  {
    if score != 1 then BANNER + Decimal(score) + " walls."
    else "Nyanyanyanyan!!! 1 wall."
  }

  /** Different scores give different score lines: the line tells the score. */
  lemma TextboxInjective(a: nat, b: nat)
    ensures TextboxContent(a) == TextboxContent(b) <==> a == b
  {
    if TextboxContent(a) == TextboxContent(b) {
      var r := TextboxContent(a);
      var da, db := Decimal(a), Decimal(b);
      var n := |BANNER|;
      // A singular line is shorter than any plural one, so both lines are of the same kind.
      if (a == 1) == (b == 1) {
        var k := if a == 1 then 6 else 7;
        assert r == BANNER + da + r[|r| - k..];
        assert r[n..|r| - k] == da;
        assert r == BANNER + db + r[|r| - k..];
        assert r[n..|r| - k] == db;
        DecimalRoundTrip(a);
        DecimalRoundTrip(b);
      }
    }
  }
}
