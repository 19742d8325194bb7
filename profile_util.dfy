/**
 * A wall-clock block timer and the text form of a time span. Spans are
 * integer nanoseconds; the clock is an oracle whose n-th reading is
 * `readings(n)`. C++ integer division truncates toward zero, which
 * `TruncDiv` writes out.
 */
module ProfileUtil {

  // ---------------------------------------------------------------------
  // Integer helpers

  /** C++ `/` on integers: the quotient truncated toward zero. */
  function TruncDiv(a: int, b: int): (q: int)
    requires b > 0
    ensures a >= 0 ==> q == a / b
    ensures a >= 0 ==> 0 <= a - q * b < b
    ensures a < 0 ==> -b < a - q * b <= 0
  {
    if a >= 0 then a / b else -((-a) / b)
  }

  lemma SplitQuotient(total: nat)
    ensures total / 1000 - (total / 60000) * 60 == (total % 60000) / 1000
    ensures total - (total / 60000) * 60000 - ((total % 60000) / 1000) * 1000 == total % 1000
  {
    var q := total / 60000;
    var r := total % 60000;
    assert total == 60000 * q + r;
    var s := r / 1000;
    var m := r % 1000;
    assert r == 1000 * s + m;
    assert total == 1000 * (60 * q + s) + m;
    assert total / 1000 == 60 * q + s;
    assert total % 1000 == m;
  }

  // ---------------------------------------------------------------------
  // Decimal text

  function DigitChar(d: int): char
    requires 0 <= d < 10
  {
    "0123456789"[d]
  }

  function DigitValue(c: char): int
  {
    if '0' <= c <= '9' then c as int - '0' as int else 0
  }

  predicate IsDigits(s: string)
  {
    forall i :: 0 <= i < |s| ==> '0' <= s[i] <= '9'
  }

  /** The decimal digits of n, most significant first, without leading zeros. */
  function Digits(n: nat): (r: string)
    ensures |r| >= 1 && IsDigits(r)
    ensures (|r| == 1) == (n < 10)
  {
    if n < 10 then [DigitChar(n)] else Digits(n / 10) + [DigitChar(n % 10)]
  }

  /** The value of a decimal digit string. */
  function ValueOf(s: string): nat
  {
    if s == [] then 0 else ValueOf(s[..|s| - 1]) * 10 + DigitValue(s[|s| - 1])
  }

  /** Printing n in decimal and reading it back gives n. */
  lemma {:induction false} DigitsRoundTrip(n: nat)
    ensures ValueOf(Digits(n)) == n
  {
    if n < 10 {
      DigitCharValue(n);
      assert ValueOf(Digits(n)) == ValueOf([]) * 10 + DigitValue(DigitChar(n));
    } else {
      DigitsRoundTrip(n / 10);
      DigitCharValue(n % 10);
      var s := Digits(n);
      assert s[..|s| - 1] == Digits(n / 10);
      assert ValueOf(s) == (n / 10) * 10 + n % 10;
    }
  }

  lemma DigitCharValue(d: int)
    requires 0 <= d < 10
    ensures DigitValue(DigitChar(d)) == d
  {
  }

  lemma ShortDigits(n: nat)
    requires n < 1000
    ensures |Digits(n)| <= 3
  {
    if n >= 10 {
      assert |Digits(n / 10)| <= 2 by {
        if n / 10 >= 10 {
          assert |Digits(n / 100)| == 1;
        }
      }
    }
  }

  /** The text of a signed integer, as %d prints it. */
  function Decimal(n: int): string
  {
    if n < 0 then "-" + Digits(-n) else Digits(n)
  }

  function Repeat(c: char, k: nat): (r: string)
    ensures |r| == k && forall i :: 0 <= i < k ==> r[i] == c
  {
    if k == 0 then [] else [c] + Repeat(c, k - 1)
  }

  /** %0wd: zeros after the sign until the text is w characters wide. */
  function ZeroPadded(n: int, w: nat): (r: string)
    ensures |r| == if |Decimal(n)| >= w then |Decimal(n)| else w
    ensures n >= 0 ==> (r[|r| - |Digits(n)|..] == Digits(n)
                        && forall i :: 0 <= i < |r| - |Digits(n)| ==> r[i] == '0')
  {
    var sign := if n < 0 then "-" else "";
    var digits := if n < 0 then Digits(-n) else Digits(n);
    if |sign| + |digits| >= w then sign + digits
    else sign + Repeat('0', w - |sign| - |digits|) + digits
  }

  /** %wd: spaces before the number until the text is w characters wide. */
  function SpacePadded(n: int, w: nat): (r: string)
    ensures |r| == if |Decimal(n)| >= w then |Decimal(n)| else w
    ensures r[|r| - |Decimal(n)|..] == Decimal(n) && forall i :: 0 <= i < |r| - |Decimal(n)| ==> r[i] == ' '
  {
    var d := Decimal(n);
    if |d| >= w then d else Repeat(' ', w - |d|) + d
  }

  // ---------------------------------------------------------------------
  // ToTimeString

  /** The printed quantities; minutes is only printed when positive. */
  datatype TimeParts = TimeParts(minutes: int, seconds: int, milliseconds: int)

  /**
   * Whole milliseconds of the span (truncated), then seconds and minutes of
   * those; with a positive minute count, the seconds and milliseconds are
   * what is left after the whole minutes and seconds.
   */
  function TimeSplit(spanNs: int): TimeParts
  {
    var ms := TruncDiv(spanNs, 1000000);
    var seconds := TruncDiv(ms, 1000);
    var minutes := TruncDiv(ms, 60000);
    if minutes > 0 then
      var sec := seconds - minutes * 60;
      var rest := ms - minutes * 60000;
      TimeParts(minutes, sec, rest - sec * 1000)
    else
      TimeParts(minutes, seconds, ms - seconds * 1000)
  }

  /** "MM:SS.mmmmm" (milliseconds space-padded to 5) with minutes, "SS.m" without. */
  function ToTimeString(spanNs: int): (r: string)
    ensures |r| >= 4
    ensures TimeSplit(spanNs).minutes > 0 ==> |r| >= 11
  {
    var p := TimeSplit(spanNs);
    if p.minutes > 0 then
      ZeroPadded(p.minutes, 2) + ":" + ZeroPadded(p.seconds, 2) + "." + SpacePadded(p.milliseconds, 5)
    else
      ZeroPadded(p.seconds, 2) + "." + Decimal(p.milliseconds)
  }

  /**
   * With a positive minute count, minutes, seconds and milliseconds add back
   * up to the whole milliseconds of the span, and for a non-negative span
   * seconds and milliseconds are within their ranges.
   */
  lemma MinuteDecomposition(spanNs: int)
    requires TimeSplit(spanNs).minutes > 0
    ensures var p := TimeSplit(spanNs);
      p.minutes * 60000 + p.seconds * 1000 + p.milliseconds == TruncDiv(spanNs, 1000000)
    ensures var p := TimeSplit(spanNs);
      spanNs >= 0 ==> 0 <= p.seconds < 60 && 0 <= p.milliseconds < 1000
  {
    if spanNs >= 0 {
      SplitQuotient(TruncDiv(spanNs, 1000000));
    }
  }

  /**
   * Without a positive minute count, seconds is the truncated quotient of the
   * milliseconds by 1000 and milliseconds is the remainder, which has the
   * sign of the span; for a non-negative span seconds is below 60.
   */
  lemma SubMinuteDecomposition(spanNs: int)
    requires TimeSplit(spanNs).minutes <= 0
    ensures var p := TimeSplit(spanNs); var ms := TruncDiv(spanNs, 1000000);
      p.seconds == TruncDiv(ms, 1000) && p.milliseconds == ms - 1000 * p.seconds
    ensures var p := TimeSplit(spanNs);
      spanNs >= 0 ==> p.minutes == 0 && 0 <= p.seconds < 60 && 0 <= p.milliseconds < 1000
    ensures var p := TimeSplit(spanNs);
      spanNs < 0 ==> -1000 < p.milliseconds <= 0
  {
  }

  /**
   * The minute form is 11 characters wide for 1 to 99 minutes: the seconds
   * are zero-padded to two digits and the milliseconds space-padded to five.
   */
  lemma MinuteFormWidth(spanNs: int)
    requires spanNs >= 0 && 0 < TimeSplit(spanNs).minutes < 100
    ensures |ToTimeString(spanNs)| == 11
  {
    MinuteDecomposition(spanNs);
    var p := TimeSplit(spanNs);
    assert |Decimal(p.minutes)| <= 2;
    assert |Decimal(p.seconds)| <= 2;
    ShortDigits(p.milliseconds);
  }

  /**
   * The sub-minute form prints the milliseconds without padding, so a
   * non-negative span below a minute ends in "." and the milliseconds' own
   * digits, which read back as the span's milliseconds past the second.
   */
  lemma SubMinuteForm(spanNs: int)
    requires 0 <= spanNs < 60000 * 1000000
    ensures var s := ToTimeString(spanNs); var d := Digits(TruncDiv(spanNs, 1000000) % 1000);
      |s| > |d| && s[|s| - |d| - 1] == '.' && s[|s| - |d|..] == d
    ensures var s := ToTimeString(spanNs); var d := Digits(TruncDiv(spanNs, 1000000) % 1000);
      ValueOf(s[|s| - |d|..]) == TruncDiv(spanNs, 1000000) % 1000
  {
    var ms := TruncDiv(spanNs, 1000000);
    var p := TimeSplit(spanNs);
    assert p.minutes == 0;
    SubMinuteDecomposition(spanNs);
    assert p.milliseconds == ms % 1000;
    var head := ZeroPadded(p.seconds, 2) + ".";
    assert ToTimeString(spanNs) == head + Digits(ms % 1000);
    DigitsRoundTrip(ms % 1000);
  }

  /**
   * The format of a non-negative span, read off its whole milliseconds ms:
   * from one minute on, zero-padded minutes and seconds past the minute and
   * the milliseconds past the second space-padded to five, which is 11
   * characters below 100 minutes; below a minute, zero-padded seconds and
   * the unpadded milliseconds past the second.
   */
  predicate TimeFormat(spanNs: int, s: string)
  {
    spanNs >= 0 ==>
      var ms := spanNs / 1000000;
      (ms >= 60000 ==> s == ZeroPadded(ms / 60000, 2) + ":" + ZeroPadded(ms % 60000 / 1000, 2) + "." + SpacePadded(ms % 1000, 5))
      && (60000 <= ms < 100 * 60000 ==> |s| == 11)
      && (ms < 60000 ==> s == ZeroPadded(ms / 1000, 2) + "." + Decimal(ms % 1000))
  }

  /** From one minute on, the printed parts are the minutes, seconds and milliseconds of ms. */
  lemma MinuteParts(spanNs: int)
    requires spanNs >= 0 && spanNs / 1000000 >= 60000
    ensures var ms := spanNs / 1000000;
      TimeSplit(spanNs) == TimeParts(ms / 60000, ms % 60000 / 1000, ms % 1000)
  {
    var ms := spanNs / 1000000;
    assert TruncDiv(spanNs, 1000000) == ms;
    assert TruncDiv(ms, 1000) == ms / 1000;
    assert TruncDiv(ms, 60000) == ms / 60000;
    SplitQuotient(ms);
  }

  /** Below a minute, the printed parts are the seconds and milliseconds of ms. */
  lemma SubMinuteParts(spanNs: int)
    requires spanNs >= 0 && spanNs / 1000000 < 60000
    ensures var ms := spanNs / 1000000;
      TimeSplit(spanNs) == TimeParts(0, ms / 1000, ms % 1000)
  {
    var ms := spanNs / 1000000;
    assert TruncDiv(spanNs, 1000000) == ms;
    assert TruncDiv(ms, 1000) == ms / 1000;
    assert TruncDiv(ms, 60000) == 0;
  }

  /** ToTimeString prints every non-negative span in the format above. */
  lemma ToTimeStringFormat(spanNs: int)
    ensures TimeFormat(spanNs, ToTimeString(spanNs))
  {
    if spanNs >= 0 {
      if spanNs / 1000000 >= 60000 {
        MinuteParts(spanNs);
        if spanNs / 1000000 < 100 * 60000 {
          MinuteFormWidth(spanNs);
        }
      } else {
        SubMinuteParts(spanNs);
      }
    }
  }

  /** 1.234 s prints as "01.234". */
  lemma SubMinuteExample()
    ensures ToTimeString(1234000000) == "01.234"
  {
    SubMinuteSplit();
    DigitsOf234();
    assert ZeroPadded(1, 2) == "01";
  }

  lemma SubMinuteSplit()
    ensures TimeSplit(1234000000) == TimeParts(0, 1, 234)
  {
    assert TruncDiv(1234000000, 1000000) == 1234;
    assert TruncDiv(1234, 1000) == 1 && TruncDiv(1234, 60000) == 0;
  }

  lemma DigitsOf234()
    ensures Decimal(234) == "234"
  {
    assert Digits(23) == Digits(2) + "3" == "23";
    assert Digits(234) == Digits(23) + "4" == "234";
  }

  /** 1.005 s prints its milliseconds unpadded, as "01.5". */
  lemma UnpaddedMillisecondsExample()
    ensures ToTimeString(1005000000) == "01.5"
  {
    assert TimeSplit(1005000000) == TimeParts(0, 1, 5);
    assert Digits(1) == "1";
    assert Digits(5) == "5";
    assert ZeroPadded(1, 2) == "01";
  }

  /** 61.005 s prints with the milliseconds space-padded, as "01:01.    5". */
  lemma MinuteExample()
    ensures ToTimeString(61005000000) == "01:01.    5"
  {
    assert TimeSplit(61005000000) == TimeParts(1, 1, 5);
    assert Digits(1) == "1";
    assert Digits(5) == "5";
    assert ZeroPadded(1, 2) == "01";
    assert Repeat(' ', 4) == "    ";
    assert SpacePadded(5, 5) == "    5";
  }

  // ---------------------------------------------------------------------
  // BlockTimer

  /**
   * The high-resolution clock: the n-th reading is readings(n), in
   * nanoseconds since the clock's epoch (the default time point, 0).
   */
  class Clock {
    const readings: nat -> int
    var readCount: nat

    constructor (readings: nat -> int)
      ensures this.readings == readings && readCount == 0
    {
      this.readings := readings;
      readCount := 0;
    }

    method Now() returns (t: int)
      modifies this`readCount
      ensures t == readings(old(readCount)) && readCount == old(readCount) + 1
    {
      t := readings(readCount);
      readCount := readCount + 1;
    }
  }

  class BlockTimer {
    const clock: Clock
    const labelText: string
    var startTime: int
    var endTime: int
    var running: bool
    var accumulated: int

    /**
     * Not running unless bStart; then started on the first clock reading.
     * Otherwise both time points stay at the epoch.
     */
    constructor (clock: Clock, labelText: string, bStart: bool)
      modifies clock`readCount
      ensures this.clock == clock && this.labelText == labelText && accumulated == 0
      ensures running == bStart
      ensures bStart ==> startTime == endTime == clock.readings(old(clock.readCount)) && clock.readCount == old(clock.readCount) + 1
      ensures !bStart ==> startTime == 0 && endTime == 0 && clock.readCount == old(clock.readCount)
    {
      this.clock := clock;
      this.labelText := labelText;
      startTime, endTime := 0, 0;
      running := false;
      new;
      if bStart {
        Start();
      }
      accumulated := 0;
    }

    /** Reads the clock into both end points and sets running. */
    method Start()
      modifies this`startTime, this`endTime, this`running, clock`readCount
      ensures running && startTime == endTime == clock.readings(old(clock.readCount))
      ensures clock.readCount == old(clock.readCount) + 1 && accumulated == old(accumulated)
    {
      startTime := clock.Now();
      endTime := startTime;
      running := true;
    }

    /** Reads the clock into the end point and clears running. */
    method Stop()
      modifies this`endTime, this`running, clock`readCount
      ensures !running && endTime == clock.readings(old(clock.readCount)) && clock.readCount == old(clock.readCount) + 1
      ensures startTime == old(startTime) && accumulated == old(accumulated)
    {
      endTime := clock.Now();
      running := false;
    }

    function Running(): (r: bool)
      reads this
      ensures r == running
    {
      running
    }

    /**
     * Stops, adds the stopped span to the total, and with bReset restarts
     * the start point (the timer stays not running).
     */
    method Accumulate(bReset: bool)
      modifies this`endTime, this`running, this`accumulated, this`startTime, clock`readCount
      ensures !running && endTime == clock.readings(old(clock.readCount))
      ensures accumulated == old(accumulated) + (endTime - old(startTime))
      ensures bReset ==> startTime == clock.readings(old(clock.readCount) + 1) && clock.readCount == old(clock.readCount) + 2
      ensures !bReset ==> startTime == old(startTime) && clock.readCount == old(clock.readCount) + 1
    {
      Stop();
      accumulated := accumulated + (endTime - startTime);
      if bReset {
        startTime := clock.Now();
      }
    }

    /** Stops and starts again: running, with a fresh start point. */
    method Reset()
      modifies this`startTime, this`endTime, this`running, clock`readCount
      ensures running && startTime == endTime == clock.readings(old(clock.readCount) + 1)
      ensures clock.readCount == old(clock.readCount) + 2 && accumulated == old(accumulated)
    {
      Stop();
      Start();
    }

    /** The text of the accumulated total. */
    function AccumulatedString(): (r: string)
      reads this
      ensures r == ToTimeString(accumulated) && TimeFormat(accumulated, r)
    {
      ToTimeStringFormat(accumulated);
      ToTimeString(accumulated)
    }

    /** The last measured span: end point minus start point. */
    function Elapsed(): int
      reads this
    {
      endTime - startTime
    }

    /** The text of the last measured span. */
    function ToString(): (r: string)
      reads this
      ensures r == ToTimeString(Elapsed()) && TimeFormat(Elapsed(), r)
    {
      ToTimeStringFormat(Elapsed());
      ToTimeString(Elapsed())
    }
  }

  /**
   * A timer that was never started measures from the epoch: it prints
   * "00.0", and accumulating adds the whole first reading to the total.
   */
  method UnstartedTimerScenario() returns (text: string, total: int)
    ensures text == "00.0" && total == 5000000000
  {
    var clock := new Clock(n => 5000000000);
    var t := new BlockTimer(clock, "x", false);
    assert t.Elapsed() == 0;
    assert TimeSplit(0) == TimeParts(0, 0, 0);
    assert Digits(0) == "0";
    assert Decimal(0) == "0";
    assert Repeat('0', 1) == "0";
    assert ZeroPadded(0, 2) == "00";
    text := t.ToString();
    t.Accumulate(false);
    total := t.accumulated;
  }
}
