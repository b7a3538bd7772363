/**
 * `formatTimecode`: a frame count at a frame rate written as
 * `HH:MM:SS:FF`. The count and the rate are integers here and the rate is
 * positive; Dafny's `/` with a positive divisor rounds toward minus
 * infinity, which is what `Math.floor` of the exact quotient does.
 */
module Timecode {
  import opened Wrappers
  import opened Strings
  import opened Decimal

  function Abs(n: int): nat
  {
    if n < 0 then -n else n
  }

  /** A multiple of `b` leaves no remainder. */
  lemma MultipleMod(q: int, b: int)
    requires b > 0
    ensures (q * b) % b == 0
  {
    var x := q * b;
    var d := q - x / b;
    assert d * b == x % b;
    if d > 0 {
      assert false;
    } else if d < 0 {
      assert false;
    }
  }

  /** JavaScript's `a % b`: the remainder of division truncated toward zero, so it takes the sign of `a`. */
  function JsRem(a: int, b: int): (r: int)
    requires b > 0
    ensures -b < r < b
    ensures (a - r) % b == 0
    ensures a > 0 ==> r >= 0
    ensures a < 0 ==> r <= 0
  {
    if a >= 0 then
      var q := a / b;
      MultipleMod(q, b);
      assert a - a % b == q * b;
      a % b
    else
      var q := (-a) / b;
      MultipleMod(-q, b);
      assert -a == q * b + (-a) % b;
      assert a + (-a) % b == (-q) * b;
      -((-a) % b)
  }

  /**
   * `pad`: the magnitude of `n` in decimal, left-padded with `0` to two
   * characters. The sign is dropped and a longer number is not cut.
   */
  function Pad(n: int): (r: string)
    ensures |r| >= 2 && AllDigits(r)
    ensures |r| == if Abs(n) < 10 then 2 else |NatToString(Abs(n))|
  {
    var digits := NatToString(Abs(n));
    if |digits| < 2 then "0" + digits else digits
  }

  /** The padded field still denotes the magnitude. */
  lemma PadValue(n: int)
    ensures DigitsValue(Pad(n)) == Abs(n)
  {
    var digits := NatToString(Abs(n));
    NatToStringValue(Abs(n));
    if |digits| < 2 {
      assert Pad(n)[..1] == "0";
    }
  }

  /** The four numbers of a timecode, before padding. */
  datatype Fields = Fields(hours: int, minutes: int, seconds: int, frames: int)

  /** The frame count a timecode denotes at `fps` frames per second. */
  function FramesOf(f: Fields, fps: int): int
  {
    (f.hours * 3600 + f.minutes * 60 + f.seconds) * fps + f.frames
  }

  /**
   * What `formatTimecode` computes before padding: whole seconds (floored),
   * the frames left over, hours (floored), minutes from the JavaScript
   * remainder by 3600 (floored), seconds as the JavaScript remainder by 60.
   */
  function Components(totalFrames: int, fps: int): (f: Fields)
    requires fps > 0
    ensures 0 <= f.frames < fps && (totalFrames - f.frames) % fps == 0
  {
    var totalSeconds := totalFrames / fps;
    MultipleMod(totalSeconds, fps);
    Fields(totalSeconds / 3600, JsRem(totalSeconds, 3600) / 60, JsRem(totalSeconds, 60),
           totalFrames - totalSeconds * fps)
  }

  /** The template string of `formatTimecode`: the four padded fields joined by `:`. */
  function Render(f: Fields): (r: string)
    ensures '-' !in r
    ensures |r| >= 11
  {
    Pad(f.hours) + ":" + Pad(f.minutes) + ":" + Pad(f.seconds) + ":" + Pad(f.frames)
  }

  /** `formatTimecode(totalFrames, fps)`. */
  function FormatTimecode(totalFrames: int, fps: int): string
    requires fps > 0
  {
    Render(Components(totalFrames, fps))
  }

  /**
   * Reads a timecode back: exactly four `:`-separated fields, each a
   * non-empty run of digits.
   */
  function ParseTimecode(s: string): Option<Fields>
  {
    var parts := Split(s, ':');
    if |parts| == 4 && forall i :: 0 <= i < 4 ==> |parts[i]| > 0 && AllDigits(parts[i]) then
      Some(Fields(DigitsValue(parts[0]), DigitsValue(parts[1]), DigitsValue(parts[2]), DigitsValue(parts[3])))
    else
      None
  }

  /**
   * Every output is four `:`-separated digit fields of at least two
   * characters, holding the magnitudes of the four components: hours are
   * not reduced modulo 24 and the signs are gone.
   */
  lemma FormatFields(totalFrames: int, fps: int)
    requires fps > 0
    ensures var f := Components(totalFrames, fps);
      var parts := Split(FormatTimecode(totalFrames, fps), ':');
      && parts == [Pad(f.hours), Pad(f.minutes), Pad(f.seconds), Pad(f.frames)]
      && (forall i :: 0 <= i < 4 ==> |parts[i]| >= 2)
      && ParseTimecode(FormatTimecode(totalFrames, fps))
         == Some(Fields(Abs(f.hours), Abs(f.minutes), Abs(f.seconds), Abs(f.frames)))
  {
    var f := Components(totalFrames, fps);
    var h, m, s, fr := Pad(f.hours), Pad(f.minutes), Pad(f.seconds), Pad(f.frames);
    assert FormatTimecode(totalFrames, fps) == h + [':'] + (m + [':'] + (s + [':'] + fr));
    NonDigitAbsent(h, ':');
    NonDigitAbsent(m, ':');
    NonDigitAbsent(s, ':');
    NonDigitAbsent(fr, ':');
    SplitFree(fr, ':');
    SplitAtSeparator(s, fr, ':');
    SplitAtSeparator(m, s + [':'] + fr, ':');
    SplitAtSeparator(h, m + [':'] + (s + [':'] + fr), ':');
    PadValue(f.hours);
    PadValue(f.minutes);
    PadValue(f.seconds);
    PadValue(f.frames);
  }

  /**
   * For a non-negative frame count every component is in its range and
   * together they denote the count.
   */
  lemma ComponentsInRange(totalFrames: int, fps: int)
    requires totalFrames >= 0 && fps > 0
    ensures var f := Components(totalFrames, fps);
      && 0 <= f.hours && 0 <= f.minutes < 60 && 0 <= f.seconds < 60 && 0 <= f.frames < fps
      && FramesOf(f, fps) == totalFrames
  {
    var totalSeconds := totalFrames / fps;
    assert totalSeconds >= 0;
    var q, r := totalSeconds / 3600, totalSeconds % 3600;
    var m, s := r / 60, r % 60;
    assert totalSeconds == 3600 * q + 60 * m + s;
    assert totalSeconds % 60 == s;
    assert totalFrames == totalSeconds * fps + totalFrames % fps;
  }

  /** For a non-negative count, reading the timecode back gives the count. */
  lemma TimecodeRoundTrip(totalFrames: int, fps: int)
    requires totalFrames >= 0 && fps > 0
    ensures ParseTimecode(FormatTimecode(totalFrames, fps)).Some?
    ensures FramesOf(ParseTimecode(FormatTimecode(totalFrames, fps)).value, fps) == totalFrames
  {
    FormatFields(totalFrames, fps);
    ComponentsInRange(totalFrames, fps);
  }

  /** `formatTimecode(95, 30)` is `00:00:03:05`. */
  lemma FormatExample95()
    ensures FormatTimecode(95, 30) == "00:00:03:05"
  {
    assert Components(95, 30) == Fields(0, 0, 3, 5);
  }

  /** `formatTimecode(0, 30)` is `00:00:00:00`. */
  lemma FormatExampleZero()
    ensures FormatTimecode(0, 30) == "00:00:00:00"
  {
    assert FormatTimecode(0, 30) == Render(Components(0, 30));
    assert Components(0, 30) == Fields(0, 0, 0, 0);
    assert Pad(0) == "00";
  }

  /** One hundred hours print as `100`: the hours field is neither wrapped at 24 nor cut to two digits. */
  lemma FormatExampleHundredHours()
    ensures FormatTimecode(100 * 3600 * 30, 30) == "100:00:00:00"
  {
    assert Components(100 * 3600 * 30, 30) == Fields(100, 0, 0, 0);
    assert NatToString(100) == "100";
  }

  /**
   * A negative count loses its sign: -1 frame at 30 fps prints as the
   * timecode of 1 h 1 min 1 s 29 frames.
   */
  lemma NegativeLosesSign()
    ensures FormatTimecode(-1, 30) == "01:01:01:29"
    ensures FormatTimecode(-1, 30) == FormatTimecode(3661 * 30 + 29, 30)
  {
    assert Components(-1, 30) == Fields(-1, -1, -1, 29);
    assert Components(3661 * 30 + 29, 30) == Fields(1, 1, 1, 29);
    assert NatToString(1) == "1";
    assert Pad(-1) == "01" && Pad(1) == "01";
    assert NatToString(29) == "29";
    assert Pad(29) == "29";
  }
}
