/** The countdown display `formatTime(sec)` (src/main.ts:16-20) and a parser
    for its output, so that the display can be shown to lose no information
    for a non-negative count of seconds. */
module Clock {
  import opened Protocol

  predicate IsDigit(c: char)
  {
    '0' <= c <= '9'
  }

  predicate AllDigits(s: string)
  {
    forall i :: 0 <= i < |s| ==> IsDigit(s[i])
  }

  function Digit(d: nat): (c: char)
    requires d < 10
    ensures IsDigit(c) && c as int - '0' as int == d
  {
    (d + '0' as int) as char
  }

  /** `String(n)` for a non-negative integer: decimal, no leading zeros. */
  function Decimal(n: nat): (s: string)
    ensures |s| >= 1 && AllDigits(s)
    ensures n < 10 <==> |s| == 1
    ensures n > 0 ==> s[0] != '0'
  {
    if n < 10 then [Digit(n)] else Decimal(n / 10) + [Digit(n % 10)]
  }

  /** `String(n)` for any integer. */
  function IntString(n: int): string
  {
    if n < 0 then "-" + Decimal(-n) else Decimal(n)
  }

  /** `s.padStart(2, '0')` */
  function PadTwo(s: string): string
  {
    if |s| >= 2 then s else if |s| == 1 then "0" + s else "00"
  }

  /** JavaScript's `a % b` for b > 0: truncating, so the sign follows `a`. */
  function JsRemainder(a: int, b: int): int
    requires b > 0
  {
    if a >= 0 then a % b else -((-a) % b)
  }

  /** formatTime. `Math.floor(sec / 60)` is Dafny's `sec / 60`, which rounds
      down for a positive divisor; the seconds use the truncating `%`. */
  function FormatTime(sec: int): (t: string)
    ensures |t| >= 5
    ensures sec >= 0 ==> t[|t| - 3] == ':' && AllDigits(t[..|t| - 3]) && AllDigits(t[|t| - 2..])
    ensures sec >= 0 ==> Value(t[..|t| - 3]) == sec / 60 && Value(t[|t| - 2..]) == sec % 60 < 60
  {
    if sec >= 0 then
      var m, r := sec / 60, sec % 60;
      assert IntString(m) == Decimal(m) && JsRemainder(sec, 60) == r && IntString(r) == Decimal(r);
      var mm, ss := PadTwo(Decimal(m)), PadTwo(Decimal(r));
      PaddedValue(m);
      PaddedValue(r);
      PaddedSeconds(r);
      ColonSplit(mm, ss);
      mm + ":" + ss
    else PadTwo(IntString(sec / 60)) + ":" + PadTwo(IntString(JsRemainder(sec, 60)))
  }

  /** Where the two fields of `mm:ss` sit in the joined string. */
  lemma ColonSplit(mm: string, ss: string)
    requires |ss| == 2
    ensures var t := mm + ":" + ss;
            |t| == |mm| + 3 && t[|t| - 3] == ':' && t[..|t| - 3] == mm && t[|t| - 2..] == ss
  {
    var t := mm + ":" + ss;
    assert t[..|t| - 3] == mm;
    assert t[|t| - 2..] == ss;
  }

  /** The number a string of decimal digits denotes. */
  function Value(s: string): nat
    requires AllDigits(s)
  {
    if s == [] then 0 else 10 * Value(s[..|s| - 1]) + (s[|s| - 1] as int - '0' as int)
  }

  /** Reads `mm:ss` back: minutes are everything before the colon, the
      seconds the two digits after it. */
  function ParseTime(t: string): Option<int>
  {
    if |t| >= 4 && t[|t| - 3] == ':' && AllDigits(t[..|t| - 3]) && AllDigits(t[|t| - 2..])
    then Some(60 * Value(t[..|t| - 3]) + Value(t[|t| - 2..]))
    else None
  }

  // ---------------------------------------------------------------------

  lemma {:induction false} ValueOfDecimal(n: nat)
    ensures Value(Decimal(n)) == n
  {
    if n >= 10 {
      ValueOfDecimal(n / 10);
      var s := Decimal(n);
      assert s[..|s| - 1] == Decimal(n / 10);
    }
  }

  lemma {:induction false} LeadingZero(s: string)
    requires AllDigits(s)
    ensures AllDigits("0" + s) && Value("0" + s) == Value(s)
  {
    if s != [] {
      LeadingZero(s[..|s| - 1]);
      assert ("0" + s)[..|s|] == "0" + s[..|s| - 1];
    }
  }

  lemma PaddedValue(n: nat)
    ensures AllDigits(PadTwo(Decimal(n))) && |PadTwo(Decimal(n))| >= 2
    ensures Value(PadTwo(Decimal(n))) == n
  {
    ValueOfDecimal(n);
    if n < 10 {
      LeadingZero(Decimal(n));
    }
  }

  /** Seconds below a minute are shown as exactly two digits. */
  lemma PaddedSeconds(n: nat)
    requires n < 60
    ensures |PadTwo(Decimal(n))| == 2
  {
    if n >= 10 {
      assert Decimal(n) == Decimal(n / 10) + [Digit(n % 10)];
    }
  }

  /** For every non-negative count the display reads back as that count. */
  lemma FormatTimeRoundTrip(sec: nat)
    ensures ParseTime(FormatTime(sec)) == Some(sec)
  {
    var t := FormatTime(sec);
    assert |t| >= 4;
    assert 60 * (sec / 60) + sec % 60 == sec;
  }

  /** Below 100 minutes the display is exactly five characters, `mm:ss`. */
  lemma FormatTimeWidth(sec: nat)
    requires sec < 6000
    ensures |FormatTime(sec)| == 5 && FormatTime(sec)[2] == ':'
  {
    assert sec / 60 < 100;
    assert |Decimal(sec / 60)| <= 2 by {
      if sec / 60 >= 10 {
        assert Decimal(sec / 60) == Decimal(sec / 60 / 10) + [Digit(sec / 60 % 10)];
      }
    }
    assert |Decimal(sec % 60)| <= 2 by {
      if sec % 60 >= 10 {
        assert Decimal(sec % 60) == Decimal(sec % 60 / 10) + [Digit(sec % 60 % 10)];
      }
    }
  }

  /** One second after zero the countdown shows "-1:-1": minutes round down,
      seconds keep the sign. */
  lemma FormatTimePastZero()
    ensures FormatTime(-1) == "-1:-1"
  {
    assert JsRemainder(-1, 60) == -1;
    assert -1 / 60 == -1;
    assert Decimal(1) == "1";
  }
}
