/**
  The string operations the formatters use: `String(n)` for integers,
  `padStart` with a fill character, and a decimal reader used to state
  what a formatted string means.
 */
module Text {

  predicate IsDigit(c: char) {
    '0' <= c <= '9'
  }

  predicate AllDigits(s: string) {
    forall i :: 0 <= i < |s| ==> IsDigit(s[i])
  }

  function DigitChar(d: int): (c: char)
    requires 0 <= d < 10
    ensures IsDigit(c) && c as int - '0' as int == d
  {
    ('0' as int + d) as char
  }

  /** `String(n)` for a non-negative integer: decimal digits without leading zeros. */
  function NatToString(n: nat): (s: string)
    ensures AllDigits(s)
    ensures n < 10 ==> |s| == 1
    ensures 10 <= n < 100 ==> |s| == 2
    ensures 100 <= n ==> |s| >= 3
    ensures s[0] == '0' ==> n == 0
    decreases n
  {
    if n < 10 then [DigitChar(n)] else NatToString(n / 10) + [DigitChar(n % 10)]
  }

  /**
    `String(i)` for any integer: a minus sign before the magnitude of a
    negative one. The two equations give the formatter proofs their
    unfolding; what the text means is stated in `IntToStringReads`.
   */
  function IntToString(i: int): (s: string)
    ensures i >= 0 ==> s == NatToString(i)
    ensures i < 0 ==> s == "-" + NatToString(-i)
  {
    if i < 0 then "-" + NatToString(-i) else NatToString(i)
  }

  /** `String(i)` reads back as `i`: digits alone for `i >= 0`, the magnitude after a minus sign otherwise. */
  lemma IntToStringReads(i: int)
    ensures |IntToString(i)| > 0 && (IntToString(i)[0] == '-' <==> i < 0)
    ensures i >= 0 ==> AllDigits(IntToString(i)) && ValueOf(IntToString(i)) == i
    ensures i < 0 ==> AllDigits(IntToString(i)[1..]) && ValueOf(IntToString(i)[1..]) == -i
  {
    if i < 0 {
      ValueOfNatToString(-i);
      assert IntToString(i)[1..] == NatToString(-i);
    } else {
      ValueOfNatToString(i);
    }
  }

  /** The number a digit string denotes. */
  function ValueOf(s: string): nat
    requires AllDigits(s)
  {
    if |s| == 0 then 0 else ValueOf(s[..|s| - 1]) * 10 + (s[|s| - 1] as int - '0' as int)
  }

  /** Reading back `String(n)` gives `n`. */
  lemma {:induction false} ValueOfNatToString(n: nat)
    ensures ValueOf(NatToString(n)) == n
  {
    if n >= 10 {
      ValueOfNatToString(n / 10);
      var s := NatToString(n);
      assert s[..|s| - 1] == NatToString(n / 10);
    }
  }

  /** `padStart(width, '0')`: zeros prepended up to `width` characters. */
  function PadStart(s: string, width: nat): (r: string)
    ensures |r| == if |s| >= width then |s| else width
    ensures r[|r| - |s|..] == s
    ensures forall i :: 0 <= i < |r| - |s| ==> r[i] == '0'
    decreases width - |s|
  {
    if |s| >= width then s else PadStart("0" + s, width)
  }

  /** A leading zero does not change the value. */
  lemma {:induction false} ValueOfLeadingZero(s: string)
    requires AllDigits(s)
    ensures AllDigits("0" + s) && ValueOf("0" + s) == ValueOf(s)
  {
    if |s| > 0 {
      var z := "0" + s;
      assert z[..|z| - 1] == "0" + s[..|s| - 1];
      ValueOfLeadingZero(s[..|s| - 1]);
    }
  }

  /** Zero padding keeps a digit string's value. */
  lemma {:induction false} ValueOfPadStart(s: string, width: nat)
    requires AllDigits(s)
    ensures AllDigits(PadStart(s, width)) && ValueOf(PadStart(s, width)) == ValueOf(s)
    decreases width - |s|
  {
    if |s| < width {
      ValueOfLeadingZero(s);
      ValueOfPadStart("0" + s, width);
    }
  }

  /** Two-digit field: `String(n).padStart(2, '0')`. */
  function Pad2(n: int): string
  {
    PadStart(IntToString(n), 2)
  }

  /** A field below 100 is exactly two digits and reads back as its value. */
  lemma Pad2Field(n: int)
    requires 0 <= n < 100
    ensures |Pad2(n)| == 2 && AllDigits(Pad2(n)) && ValueOf(Pad2(n)) == n
  {
    ValueOfNatToString(n);
    ValueOfPadStart(NatToString(n), 2);
  }

  /**
    A padded field of any non-negative value has at least two digits and
    reads back as its value; from 100 on it is unpadded, so it has no leading zero.
   */
  lemma Pad2Wide(n: int)
    requires 0 <= n
    ensures |Pad2(n)| >= 2 && AllDigits(Pad2(n)) && ValueOf(Pad2(n)) == n
    ensures n >= 100 ==> |Pad2(n)| >= 3 && Pad2(n)[0] != '0'
  {
    ValueOfNatToString(n);
    ValueOfPadStart(NatToString(n), 2);
    if n >= 100 {
      assert Pad2(n) == NatToString(n);
    }
  }

  /** Occurrences of `c` in `s`. */
  function Occurrences(s: string, c: char): nat
  {
    if |s| == 0 then 0 else Occurrences(s[..|s| - 1], c) + (if s[|s| - 1] == c then 1 else 0)
  }

  lemma {:induction false} OccurrencesConcat(a: string, b: string, c: char)
    ensures Occurrences(a + b, c) == Occurrences(a, c) + Occurrences(b, c)
    decreases |b|
  {
    if |b| > 0 {
      assert (a + b)[..|a + b| - 1] == a + b[..|b| - 1];
      OccurrencesConcat(a, b[..|b| - 1], c);
    } else {
      assert a + b == a;
    }
  }

  lemma {:induction false} NoColonInDigits(s: string)
    requires AllDigits(s)
    ensures Occurrences(s, ':') == 0
  {
    if |s| > 0 {
      NoColonInDigits(s[..|s| - 1]);
    }
  }
}
