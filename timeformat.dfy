/** `formatTime`: elapsed game time in milliseconds shown as minutes, a colon and
    two-digit seconds. The decimal rendering of JavaScript numbers is written out for
    integers, and `ParseNat` reads it back. */
module TimeFormat {

  predicate IsDigit(c: char)
  {
    ('0' as int) <= (c as int) <= ('9' as int)
  }

  function DigitChar(d: int): (c: char)
    requires 0 <= d <= 9
    ensures IsDigit(c) && (c as int) - ('0' as int) == d
  {
    (('0' as int) + d) as char
  }

  /** Decimal digits of `n` with no leading zero, as `n.toString()` writes them. */
  function NatToString(n: nat): (s: string)
    ensures 1 <= |s|
    ensures forall i :: 0 <= i < |s| ==> IsDigit(s[i])
    ensures n < 10 <==> |s| == 1
    ensures n >= 10 ==> s[0] != '0'
    decreases n
  {
    if n < 10 then [DigitChar(n)] else NatToString(n / 10) + [DigitChar(n % 10)]
  }

  /** The value of a string of decimal digits. */
  function ParseNat(s: string): nat
    requires forall i :: 0 <= i < |s| ==> IsDigit(s[i])
    decreases |s|
  {
    if |s| == 0 then 0
    else
      assert IsDigit(s[|s| - 1]);
      ParseNat(s[..|s| - 1]) * 10 + ((s[|s| - 1] as int) - ('0' as int))
  }

  lemma {:induction false} ParseNatToString(n: nat)
    ensures ParseNat(NatToString(n)) == n
    decreases n
  {
    var s := NatToString(n);
    if n >= 10 {
      ParseNatToString(n / 10);
      assert s[..|s| - 1] == NatToString(n / 10);
    }
  }

  /** `n.toString()` for any integer. */
  function IntToString(n: int): string
  {
    if n < 0 then "-" + NatToString(-n) else NatToString(n)
  }

  /** `s.padStart(len, c)` for a one-character pad. */
  function PadStart(s: string, len: nat, c: char): (r: string)
    ensures |r| == if |s| >= len then |s| else len
    ensures r[|r| - |s|..] == s
    ensures forall i :: 0 <= i < |r| - |s| ==> r[i] == c
  {
    if |s| >= len then s else seq(len - |s|, _ => c) + s
  }

  /** JavaScript's `%` on integers, which keeps the sign of the dividend: on a
      negative dividend it is the negated remainder of its magnitude. */
  function JsRem(a: int, b: int): (r: int)
    requires 0 < b
    ensures -b < r < b
    ensures 0 <= a ==> r == a % b
    ensures a < 0 ==> r <= 0 && r == -((-a) % b)
  {
    if a >= 0 then a % b else -((-a) % b)
  }

  /** The text `formatTime` builds from whole minutes and seconds. */
  function ClockText(minutes: int, seconds: int): string
  {
    IntToString(minutes) + ":" + PadStart(IntToString(seconds), 2, '0')
  }

  /** `formatTime(ms)` (script.js:752-756). `Math.floor` of a quotient by a positive
      constant is Dafny's `/` on integers. */
  function FormatTime(ms: int): string
  {
    ClockText(ms / 60000, JsRem(ms, 60000) / 1000)
  }

  /** Seconds below a minute pad to exactly their tens digit and their units digit. */
  lemma PadTwoDigits(seconds: nat)
    requires seconds <= 59
    ensures PadStart(NatToString(seconds), 2, '0') == [DigitChar(seconds / 10), DigitChar(seconds % 10)]
  {
    if seconds >= 10 {
      assert NatToString(seconds / 10) == [DigitChar(seconds / 10)];
    }
  }

  /** Minutes in decimal (read back by `ParseNatToString`), a colon, and two digits
      whose values are the tens and the units of the seconds. */
  lemma ClockTextSpec(minutes: nat, seconds: nat)
    requires seconds <= 59
    ensures ClockText(minutes, seconds)
         == NatToString(minutes) + ":" + [DigitChar(seconds / 10), DigitChar(seconds % 10)]
  {
    PadTwoDigits(seconds);
  }

  /** For a non-negative time the text is the whole minutes, a colon, and the two
      digits of the whole seconds within the minute, which are at most 59. */
  lemma FormatTimeSpec(ms: int)
    requires 0 <= ms
    ensures 0 <= (ms % 60000) / 1000 <= 59
    ensures FormatTime(ms)
         == NatToString(ms / 60000) + ":" + [DigitChar((ms % 60000) / 1000 / 10), DigitChar((ms % 60000) / 1000 % 10)]
  {
    assert JsRem(ms, 60000) == ms % 60000;
    ClockTextSpec(ms / 60000, (ms % 60000) / 1000);
  }

  /** The source does not guard a negative time: it renders both fields with a sign. */
  lemma FormatTimeNegative()
    ensures FormatTime(-1) == "-1:-1"
  {
  }
}
