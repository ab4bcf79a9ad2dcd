/** The `HH:MM:SS` rendering of the timer's elapsed time. */
module Clock {
  import opened Decimal

  /** A field rendered with `toString().padStart(2, '0')`. */
  function Pad2(n: nat): string
  {
    PadStart(Digits(n), 2)
  }

  lemma Pad2Shape(n: nat)
    ensures |Pad2(n)| >= 2
    ensures n < 100 ==> |Pad2(n)| == 2
    ensures AllDigits(Pad2(n))
    ensures ParseDigits(Pad2(n)) == n
  {
    ParseDigitsOfDigits(n);
    ParsePadStart(Digits(n), 2);
    PadStartDigits(Digits(n), 2);
    if n < 100 {
      DigitsBelowHundred(n);
    }
  }

  /** Reads an `H+:MM:SS` string back: the hours are everything before the last
      six characters. */
  function ParseClock(s: string): nat
  {
    if |s| < 8 then 0
    else ParseDigits(s[..|s| - 6]) * 3600 + ParseDigits(s[|s| - 5..|s| - 3]) * 60 + ParseDigits(s[|s| - 2..])
  }

  /** Whole seconds split into hours, minutes below 60 and seconds below 60. */
  lemma SplitSeconds(seconds: nat)
    ensures seconds % 3600 / 60 < 60 && seconds % 60 < 60
    ensures seconds / 3600 * 3600 + seconds % 3600 / 60 * 60 + seconds % 60 == seconds
  {
    var h, rest := seconds / 3600, seconds % 3600;
    assert h * 3600 + rest == seconds;
    assert rest / 60 * 60 + rest % 60 == rest;
    assert rest % 60 == seconds % 60 by {
      assert seconds == (h * 60 + rest / 60) * 60 + rest % 60;
    }
  }

  /** Where the pieces of `H:MM:SS` sit when minutes and seconds take two
      characters each. */
  lemma JoinedSlices(h: string, m: string, s: string)
    requires |h| >= 2 && |m| == 2 && |s| == 2
    ensures var r := h + ":" + m + ":" + s;
      && |r| == |h| + 6
      && r[|r| - 6] == ':' && r[|r| - 3] == ':'
      && r[..|r| - 6] == h && r[|r| - 5..|r| - 3] == m && r[|r| - 2..] == s
  {
    var r := h + ":" + m + ":" + s;
    assert r[..|r| - 6] == h;
    assert r[|r| - 5..|r| - 3] == m;
    assert r[|r| - 2..] == s;
  }

  /** ... and what such a string reads back as. */
  lemma JoinedParse(h: string, m: string, s: string)
    requires |h| >= 2 && |m| == 2 && |s| == 2
    ensures ParseClock(h + ":" + m + ":" + s) == ParseDigits(h) * 3600 + ParseDigits(m) * 60 + ParseDigits(s)
  {
    var r := h + ":" + m + ":" + s;
    JoinedSlices(h, m, s);
    ParseClockPieces(r, h, m, s);
  }

  /** `ParseClock` reads the three pieces it slices out. */
  lemma ParseClockPieces(r: string, h: string, m: string, s: string)
    requires |r| >= 8
    requires r[..|r| - 6] == h && r[|r| - 5..|r| - 3] == m && r[|r| - 2..] == s
    ensures ParseClock(r) == ParseDigits(h) * 3600 + ParseDigits(m) * 60 + ParseDigits(s)
  {
  }

  /** The shape `formatTime` promises: a colon six and three characters from
      the end, at least two hour digits and exactly two minute and two second
      digits, minutes and seconds below 60. */
  predicate ClockShaped(r: string)
  {
    && |r| >= 8
    && r[|r| - 6] == ':' && r[|r| - 3] == ':'
    && AllDigits(r[..|r| - 6]) && AllDigits(r[|r| - 5..|r| - 3]) && AllDigits(r[|r| - 2..])
    && ParseDigits(r[|r| - 5..|r| - 3]) < 60 && ParseDigits(r[|r| - 2..]) < 60
  }

  /** The string `H:MM:SS` built from hours, minutes below 60 and seconds
      below 60 is clock-shaped and reads back as `h * 3600 + m * 60 + s`. */
  lemma JoinedShape(h: nat, m: nat, s: nat)
    requires m < 60 && s < 60
    ensures ClockShaped(Pad2(h) + ":" + Pad2(m) + ":" + Pad2(s))
    ensures ParseClock(Pad2(h) + ":" + Pad2(m) + ":" + Pad2(s)) == h * 3600 + m * 60 + s
  {
    Pad2Shape(h);
    Pad2Shape(m);
    Pad2Shape(s);
    JoinedSlices(Pad2(h), Pad2(m), Pad2(s));
    JoinedParse(Pad2(h), Pad2(m), Pad2(s));
  }

  /** `formatTime`: whole seconds as hours, minutes and seconds, each padded to
      two digits; hours are not capped. The output is clock-shaped and its three
      fields recombine to the input. */
  function FormatTime(seconds: nat): (r: string)
    ensures ClockShaped(r)
    ensures ParseClock(r) == seconds
    ensures |r| > 8 ==> r[0] != '0'
  {
    var h, m, s := seconds / 3600, seconds % 3600 / 60, seconds % 60;
    SplitSeconds(seconds);
    JoinedShape(h, m, s);
    assert |Pad2(h)| > 2 ==> Pad2(h) == Digits(h);
    Pad2(h) + ":" + Pad2(m) + ":" + Pad2(s)
  }

  /** The string shown for an elapsed time in milliseconds: it reads back as
      the whole seconds elapsed. */
  function FormatElapsed(elapsedMs: nat): (r: string)
    ensures ClockShaped(r)
    ensures ParseClock(r) == elapsedMs / 1000
    ensures |r| > 8 ==> r[0] != '0'
  {
    FormatTime(elapsedMs / 1000)
  }

  /** The string shown for `seconds` in terms of its three fields. */
  lemma FormatTimeFields(seconds: nat, h: nat, m: nat, s: nat)
    requires seconds / 3600 == h && seconds % 3600 / 60 == m && seconds % 60 == s
    ensures FormatTime(seconds) == Pad2(h) + ":" + Pad2(m) + ":" + Pad2(s)
  {
  }

  /** Distinct whole-second counts are shown as distinct strings. */
  lemma FormatTimeInjective(a: nat, b: nat)
    requires a != b
    ensures FormatTime(a) != FormatTime(b)
  {
  }

  /** A single digit is shown with one leading zero. */
  lemma Pad2OneDigit(n: nat)
    requires n < 10
    ensures Pad2(n) == ['0', DigitChar(n)]
  {
    assert Digits(n) == [DigitChar(n)];
    assert Zeros(1) == ['0'];
  }

  /** Any elapsed time within one hour, two minutes and five seconds (and less
      than a further second) is shown as `01:02:05`. */
  lemma FormatElapsedHourExample(ms: nat)
    requires 3725000 <= ms < 3726000
    ensures FormatElapsed(ms) == "01:02:05"
  {
    var seconds := ms / 1000;
    assert seconds == 3725;
    FormatTimeFields(seconds, 1, 2, 5);
    Pad2OneDigit(1);
    Pad2OneDigit(2);
    Pad2OneDigit(5);
  }

  /** Less than a second is shown as `00:00:00`: a fresh timer's display. */
  lemma FormatElapsedUnderOneSecond(ms: nat)
    requires ms < 1000
    ensures FormatElapsed(ms) == "00:00:00"
  {
    var seconds := ms / 1000;
    assert seconds == 0;
    FormatTimeFields(seconds, 0, 0, 0);
    Pad2OneDigit(0);
  }

  /** One tick's worth of time is shown as `00:00:01`. */
  lemma FormatElapsedOneSecond(ms: nat)
    requires 1000 <= ms < 2000
    ensures FormatElapsed(ms) == "00:00:01"
  {
    var seconds := ms / 1000;
    assert seconds == 1;
    FormatTimeFields(seconds, 0, 0, 1);
    Pad2OneDigit(0);
    Pad2OneDigit(1);
  }
}
