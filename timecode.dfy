/** The Timecode value: a time in flicks together with its hh:mm:ss:ff reading at a
  * given frame duration (Timecode.cs). */
module Timecodes {
  import opened Wrappers
  import opened Arithmetic
  import opened BcdTimecode

  /** The readonly struct. Flicks are a 64-bit count in the source; overflow is not
    * modelled. */
  datatype Timecode = Timecode(
    flicks: int,
    hour: int, minute: int, second: int, frame: int,
    isDropFrame: bool,
    frameDuration: int)

  /** The number of seconds in the 24 hours after which the hour wraps. */
  const SecondsPerDay: int := 24 * 60 * 60

  /** `(a + d - 1) / d` is the ceiling of a / d. */
  lemma CeilingDivision(a: int, d: int)
    requires a >= 1 && d >= 1
    ensures var q := (a + d - 1) / d;
      1 <= q <= a && (q - 1) * d < a <= q * d
  {
    var x := a + d - 1;
    var q, r := x / d, x % d;
    assert x == q * d + r && 0 <= r < d;
    MulAtLeast(q, d);
    assert (q - 1) * d == q * d - d;
    MulAtLeast(q - a, d);
    MulNonneg(a, d - 1);
    assert a * (d - 1) == a * d - a;
  }

  /** Frames per second, rounded up, as both constructors compute it. Both operands
    * are positive, so C#'s division agrees with Dafny's. */
  function FramesPerSecond(frameDuration: int): (fps: int)
    requires frameDuration > 0
    ensures 1 <= fps <= FlicksPerSecond
    ensures (fps - 1) * frameDuration < FlicksPerSecond <= fps * frameDuration
  {
    CeilingDivision(FlicksPerSecond, frameDuration);
    (FlicksPerSecond + frameDuration - 1) / frameDuration
  }

  /** The number of the frame shown at hh:mm:ss:ff, counted from midnight. */
  function FrameNumber(fps: int, hour: int, minute: int, second: int, frame: int): int
  {
    ((hour * 60 + minute) * 60 + second) * fps + frame
  }

  /** The component constructor. A zero frame duration divides by zero; negative
    * frame durations are outside the model. */
  function FromComponents(frameDuration: int, hour: int, minute: int, second: int, frame: int, isDropFrame: bool): (r: Result<Timecode>)
    requires frameDuration >= 0
    ensures r.Failure? <==> frameDuration == 0
    ensures r.Failure? ==> r.error == DivideByZero
    ensures r.Success? ==> r.value == Timecode(
      FrameNumber(FramesPerSecond(frameDuration), hour, minute, second, frame) * frameDuration,
      hour, minute, second, frame, isDropFrame, frameDuration)
  {
    if frameDuration == 0 then Failure(DivideByZero)
    else
      var fps := FramesPerSecond(frameDuration);
      var fpm := fps * 60;
      var fph := fpm * 60;
      assert fph * hour + fpm * minute + fps * second + frame == FrameNumber(fps, hour, minute, second, frame);
      Success(Timecode((fph * hour + fpm * minute + fps * second + frame) * frameDuration,
        hour, minute, second, frame, isDropFrame, frameDuration))
  }

  /** The flicks constructor: whole frames are split into hours, minutes, seconds and
    * frames with C#'s truncating division, and the hours wrap at 24. */
  function FromFlicks(frameDuration: int, flicks: int, isDropFrame: bool): (r: Result<Timecode>)
    requires frameDuration >= 0
    ensures r.Failure? <==> frameDuration == 0
    ensures r.Failure? ==> r.error == DivideByZero
    ensures r.Success? ==>
      r.value.flicks == flicks && r.value.isDropFrame == isDropFrame && r.value.frameDuration == frameDuration
  {
    if frameDuration == 0 then Failure(DivideByZero)
    else
      var fps := FramesPerSecond(frameDuration);
      var fpm := fps * 60;
      var fph := fpm * 60;
      var frames := TDiv(flicks, frameDuration);
      var hours := TDiv(frames, fph);
      var afterHours := frames - hours * fph;
      var minutes := TDiv(afterHours, fpm);
      var afterMinutes := afterHours - minutes * fpm;
      var seconds := TDiv(afterMinutes, fps);
      var afterSeconds := afterMinutes - seconds * fps;
      Success(Timecode(flicks, TRem(hours, 24), minutes, seconds, afterSeconds, isDropFrame, frameDuration))
  }

  /** A quotient of a value below `a * b` by `a` is below `b`. */
  lemma QuotientBelow(x: int, a: int, b: int)
    requires a > 0 && 0 <= x < a * b
    ensures 0 <= x / a < b
  {
    MulAtLeast(x / a - b + 1, a);
  }

  /** For a non-negative time every truncating division of the flicks constructor is
    * Euclidean. */
  lemma FromFlicksEuclidean(frameDuration: int, flicks: int, isDropFrame: bool)
    requires frameDuration > 0 && flicks >= 0
    ensures var fps := FramesPerSecond(frameDuration);
      var n := flicks / frameDuration;
      var afterHours := n % (fps * 60 * 60);
      var afterMinutes := afterHours % (fps * 60);
      FromFlicks(frameDuration, flicks, isDropFrame).value == Timecode(flicks,
        (n / (fps * 60 * 60)) % 24, afterHours / (fps * 60),
        afterMinutes / fps, afterMinutes % fps, isDropFrame, frameDuration)
  {
    var fps := FramesPerSecond(frameDuration);
    var fpm := fps * 60;
    var fph := fpm * 60;
    var n := flicks / frameDuration;
    assert TDiv(flicks, frameDuration) == n;
    DivNonneg(flicks, frameDuration);
    MulNonneg(fps, 3600);
    var hours := TDiv(n, fph);
    assert hours == n / fph;
    var afterHours := n - hours * fph;
    assert afterHours == n % fph;
    var minutes := TDiv(afterHours, fpm);
    assert minutes == afterHours / fpm;
    var afterMinutes := afterHours - minutes * fpm;
    assert afterMinutes == afterHours % fpm;
    var seconds := TDiv(afterMinutes, fps);
    assert seconds == afterMinutes / fps;
    assert afterMinutes - seconds * fps == afterMinutes % fps;
    DivNonneg(n, fph);
    assert TDiv(hours, 24) == hours / 24;
    assert TRem(hours, 24) == hours % 24;
  }

  /** A frame count within one hour splits into minutes and seconds below 60 and a
    * frame below the rate. */
  lemma {:induction false} SplitHour(afterHours: int, fps: int)
    requires fps >= 1 && 0 <= afterHours < fps * 60 * 60
    ensures var afterMinutes := afterHours % (fps * 60);
      var minute := afterHours / (fps * 60);
      var second := afterMinutes / fps;
      0 <= minute < 60 && 0 <= second < 60
      && afterHours == minute * (fps * 60) + second * fps + afterMinutes % fps
  {
    var fpm := fps * 60;
    var afterMinutes := afterHours % fpm;
    assert fps * 60 * 60 == fpm * 60;
    QuotientBelow(afterHours, fpm, 60);
    QuotientBelow(afterMinutes, fps, 60);
  }

  /** An hour below 24 followed by a position within that hour lies within the day. */
  lemma {:induction false} HourWithinDay(hour: int, r: int, fph: int)
    requires 0 <= hour < 24 && 0 <= r < fph
    ensures 0 <= hour * fph + r < 24 * fph
  {
    MulNonneg(hour, fph);
    MulAtLeast(23 - hour, fph);
    assert (23 - hour) * fph == 23 * fph - hour * fph;
  }

  /** The position within a day of 24 hours of fph frames each is the hour, wrapped
    * at 24, followed by the position within that hour. */
  lemma {:induction false} WrapDay(n: int, fph: int)
    requires n >= 0 && fph >= 1
    ensures n % (24 * fph) == ((n / fph) % 24) * fph + n % fph
  {
    var h := n / fph;
    var days := h / 24;
    var hour := h % 24;
    var within := hour * fph + n % fph;
    assert n == h * fph + n % fph;
    assert h == days * 24 + hour;
    assert h * fph == days * (24 * fph) + hour * fph;
    HourWithinDay(hour, n % fph, fph);
    DivModUnique(n, 24 * fph, days, within);
  }

  /** Splitting a frame count by frames per hour, minute and second gives in-range
    * components that number the same frame within the day. */
  lemma {:induction false} MixedRadix(n: int, fps: int)
    requires n >= 0 && fps >= 1
    ensures var afterHours := n % (fps * 60 * 60);
      var afterMinutes := afterHours % (fps * 60);
      var hour := (n / (fps * 60 * 60)) % 24;
      var minute := afterHours / (fps * 60);
      var second := afterMinutes / fps;
      0 <= minute < 60 && 0 <= second < 60
      && FrameNumber(fps, hour, minute, second, afterMinutes % fps) == n % (SecondsPerDay * fps)
  {
    var fph := fps * 60 * 60;
    var afterHours := n % fph;
    var afterMinutes := afterHours % (fps * 60);
    var hour := (n / fph) % 24;
    var minute := afterHours / (fps * 60);
    var second := afterMinutes / fps;
    SplitHour(afterHours, fps);
    WrapDay(n, fph);
    assert SecondsPerDay * fps == 24 * fph;
    assert FrameNumber(fps, hour, minute, second, afterMinutes % fps)
      == hour * fph + minute * (fps * 60) + second * fps + afterMinutes % fps;
  }

  /** For a non-negative time, the flicks constructor reads the frame reached, wrapped
    * at 24 hours, as in-range components: frame below the rounded-up rate, seconds and
    * minutes below 60, hours below 24. */
  lemma {:induction false} FromFlicksDecomposes(frameDuration: int, flicks: int, isDropFrame: bool)
    requires frameDuration > 0 && flicks >= 0
    ensures var t := FromFlicks(frameDuration, flicks, isDropFrame).value;
      var fps := FramesPerSecond(frameDuration);
      0 <= t.hour < 24 && 0 <= t.minute < 60 && 0 <= t.second < 60 && 0 <= t.frame < fps
      && FrameNumber(fps, t.hour, t.minute, t.second, t.frame) == (flicks / frameDuration) % (SecondsPerDay * fps)
  {
    FromFlicksEuclidean(frameDuration, flicks, isDropFrame);
    MixedRadix(flicks / frameDuration, FramesPerSecond(frameDuration));
  }

  /** Rebuilding from the components the flicks constructor produced gives back the
    * time rounded down to a frame boundary and wrapped at 24 hours: below 24 hours
    * the decomposition is exact for frame-aligned times. */
  lemma {:induction false} ComponentsRebuildFlicks(frameDuration: int, flicks: int, isDropFrame: bool)
    requires frameDuration > 0 && flicks >= 0
    ensures var t := FromFlicks(frameDuration, flicks, isDropFrame).value;
      var fps := FramesPerSecond(frameDuration);
      var u := FromComponents(frameDuration, t.hour, t.minute, t.second, t.frame, t.isDropFrame).value;
      u.flicks == ((flicks / frameDuration) % (SecondsPerDay * fps)) * frameDuration
      && (flicks % frameDuration == 0 && flicks < SecondsPerDay * fps * frameDuration ==> u == t)
  {
    FromFlicksDecomposes(frameDuration, flicks, isDropFrame);
    RebuildComponents(frameDuration, flicks, FromFlicks(frameDuration, flicks, isDropFrame).value);
  }

  /** The step of ComponentsRebuildFlicks about any timecode whose components number
    * the frame reached by its flicks, wrapped at 24 hours. */
  lemma RebuildComponents(frameDuration: int, flicks: int, t: Timecode)
    requires frameDuration > 0 && flicks >= 0
    requires t.flicks == flicks && t.frameDuration == frameDuration
    requires FrameNumber(FramesPerSecond(frameDuration), t.hour, t.minute, t.second, t.frame)
      == (flicks / frameDuration) % (SecondsPerDay * FramesPerSecond(frameDuration))
    ensures var u := FromComponents(frameDuration, t.hour, t.minute, t.second, t.frame, t.isDropFrame).value;
      u.flicks == ((flicks / frameDuration) % (SecondsPerDay * FramesPerSecond(frameDuration))) * frameDuration
      && (flicks % frameDuration == 0 && flicks < SecondsPerDay * FramesPerSecond(frameDuration) * frameDuration ==> u == t)
  {
    var day := SecondsPerDay * FramesPerSecond(frameDuration);
    var n := flicks / frameDuration;
    if flicks % frameDuration == 0 && flicks < day * frameDuration {
      assert flicks == n * frameDuration;
      assert n < day by {
        MulAtLeast(n - day, frameDuration);
      }
      DivModUnique(n, day, 0, n);
    }
  }

  // ----- BCD conversion ---------------------------------------------------------------

  /** FromBCD: null (None) for the no-timecode word, otherwise the component-built
    * timecode; building it divides by the frame duration. */
  function FromBcd(frameDuration: int, bcdTimecode: UInt32): (r: Result<Option<Timecode>>)
    requires frameDuration >= 0
    ensures r == Success(None) <==> bcdTimecode == NoTimecode
    ensures r.Failure? <==> bcdTimecode != NoTimecode && frameDuration == 0
    ensures r.Success? && r.value.Some? ==>
      var p := UnpackBcdTimecode(bcdTimecode, frameDuration).parts;
      Success(r.value.value) == FromComponents(frameDuration, p.hour, p.minute, p.second, p.frame, p.isDropFrame)
  {
    var u := UnpackBcdTimecode(bcdTimecode, frameDuration);
    if !u.valid then Success(None)
    else match FromComponents(frameDuration, u.parts.hour, u.parts.minute, u.parts.second, u.parts.frame, u.parts.isDropFrame)
      case Failure(e) => Failure(e)
      case Success(t) => Success(Some(t))
  }

  /** ToBCD packs the components at the timecode's own frame duration. */
  function ToBcd(t: Timecode): (w: UInt32)
  {
    PackBcdTimecode(t.frameDuration, t.hour, t.minute, t.second, t.frame, t.isDropFrame)
  }

  /** The frame rates whose every frame number the word can carry as written: up to
    * 80 frames a second when frames are split into fields, up to 40 otherwise. */
  predicate BcdCarriesRate(split: bool, frameDuration: int)
    requires frameDuration > 0
  {
    FramesPerSecond(frameDuration) <= FrameLimit(split)
  }

  /** The encoding round trip for a frame-aligned time below 24 hours, with the field
    * split of either threshold, provided the split carries the rate. */
  lemma {:induction false} RoundTripWith(split: bool, frameDuration: int, frames: int, isDropFrame: bool)
    requires frameDuration > 0 && 0 <= frames < SecondsPerDay * FramesPerSecond(frameDuration)
    requires BcdCarriesRate(split, frameDuration)
    ensures var t := FromFlicks(frameDuration, frames * frameDuration, isDropFrame).value;
      var w := PackWith(split, t.hour, t.minute, t.second, t.frame, t.isDropFrame);
      var p := UnpackWith(split, w);
      p.valid && Success(t) == FromComponents(frameDuration, p.parts.hour, p.parts.minute, p.parts.second, p.parts.frame, p.parts.isDropFrame)
  {
    var flicks := frames * frameDuration;
    var fps := FramesPerSecond(frameDuration);
    MulAtLeast(frames + 1, frameDuration);
    DivModUnique(flicks, frameDuration, frames, 0);
    assert flicks < SecondsPerDay * fps * frameDuration by {
      MulAtLeast(SecondsPerDay * fps - frames, frameDuration);
    }
    FromFlicksDecomposes(frameDuration, flicks, isDropFrame);
    ComponentsRebuildFlicks(frameDuration, flicks, isDropFrame);
    var t := FromFlicks(frameDuration, flicks, isDropFrame).value;
    var c := Components(t.hour, t.minute, t.second, t.frame, t.isDropFrame);
    assert ComponentsFit(split, c);
    PackThenUnpack(split, c);
  }

  /** `FromBCD(d, t.ToBCD())` gives `t` back for a frame-aligned time below 24 hours,
    * whenever the as-written split carries the rate: every rate of 50 Hz and above
    * up to 80 Hz, and every rate up to 40 Hz. */
  lemma {:induction false} BcdRoundTrip(frameDuration: int, frames: int, isDropFrame: bool)
    requires frameDuration > 0 && 0 <= frames < SecondsPerDay * FramesPerSecond(frameDuration)
    requires BcdCarriesRate(SplitsFields(frameDuration), frameDuration)
    ensures var t := FromFlicks(frameDuration, frames * frameDuration, isDropFrame).value;
      FromBcd(frameDuration, ToBcd(t)) == Success(Some(t))
  {
    RoundTripWith(SplitsFields(frameDuration), frameDuration, frames, isDropFrame);
  }

  /** The package's own timecode test runs at 60 Hz and at 59.94 Hz, with frame
    * durations FlicksPerSecond * mul / div. */
  predicate TestRate(mul: int, div: int)
  {
    (mul, div) == (1, 60) || (mul, div) == (1001, 60000)
  }

  /** Both test rates round up to 60 frames a second and split frames into fields. */
  lemma TestRateSplits(mul: int, div: int)
    requires TestRate(mul, div)
    ensures var frameDuration := FlicksPerSecond * mul / div;
      frameDuration > 0 && FramesPerSecond(frameDuration) == 60 && SplitsFields(frameDuration)
  {
    if (mul, div) == (1, 60) {
      assert FlicksPerSecond * mul / div == 11_760_000;
      DivModUnique(FlicksPerSecond + 11_760_000 - 1, 11_760_000, 60, 11_760_000 - 1);
    } else {
      assert FlicksPerSecond * mul / div == 11_771_760 by {
        DivModUnique(FlicksPerSecond * 1001, 60000, 11_771_760, 0);
      }
      DivModUnique(FlicksPerSecond + 11_771_760 - 1, 11_771_760, 60, 11_066_159);
    }
  }

  /** Every frame of the test's two-hour loop survives the round trip at both rates. */
  lemma TimecodeTestRoundTrips(mul: int, div: int, i: int)
    requires TestRate(mul, div)
    requires 0 <= i < 2 * 60 * 60 * 60
    ensures var frameDuration := FlicksPerSecond * mul / div;
      frameDuration > 0
      && var t := FromFlicks(frameDuration, i * frameDuration, false).value;
      t.flicks == i * frameDuration && FromBcd(frameDuration, ToBcd(t)) == Success(Some(t))
  {
    TestRateSplits(mul, div);
    BcdRoundTrip(FlicksPerSecond * mul / div, i, false);
  }

  /** 48 Hz rounds to 48 frames a second and does not split frames into fields. */
  lemma Rate48Hz()
    ensures FlicksPerSecond / 48 == 14_700_000
    ensures FramesPerSecond(14_700_000) == 48 && !SplitsFields(14_700_000)
  {
    DivModUnique(FlicksPerSecond + 14_700_000 - 1, 14_700_000, 48, 14_700_000 - 1);
  }

  /** Frame 45 unsplit packs its tens digit into bit 6... */
  lemma PackFrame45()
    ensures PackWith(false, 0, 0, 0, 45, false) == 0x45
  {
    assert TDiv(45, 10) == 4 && TRem(45, 10) == 5;
    assert PackSum(false, 0, 0, 0, 45, false) == 0x45;
  }

  /** ...which then reads back as the drop-frame flag above frame 5. */
  lemma UnpackWord45()
    ensures UnpackWith(false, 0x45) == Unpacked(true, Components(0, 0, 0, 5, true))
  {
    DigitOf(0x45, 0, 0, 0x45, 0x1000_0000, 4);
    DigitOf(0x45, 0, 0, 0x45, 0x100_0000, 16);
    DigitOf(0x45, 0, 0, 0x45, 0x10_0000, 8);
    DigitOf(0x45, 0, 0, 0x45, 0x1_0000, 16);
    DigitOf(0x45, 0, 0, 0x45, 0x1000, 8);
    DigitOf(0x45, 0, 0, 0x45, 0x100, 16);
    DigitOf(0x45, 0, 1, 0x5, 0x40, 2);
    DigitOf(0x45, 1, 0, 0x5, 0x10, 4);
    DigitOf(0x45, 4, 5, 0, 0x1, 16);
  }

  /** The flicks constructor reads frame 45 at 48 Hz as 00:00:00:45. */
  lemma FromFlicksFrame45(frameDuration: int)
    requires frameDuration > 0 && FramesPerSecond(frameDuration) == 48
    ensures FromFlicks(frameDuration, 45 * frameDuration, false).value
      == Timecode(45 * frameDuration, 0, 0, 0, 45, false, frameDuration)
  {
    FromFlicksEuclidean(frameDuration, 45 * frameDuration, false);
    DivModUnique(45 * frameDuration, frameDuration, 45, 0);
    DivModUnique(45, 48 * 3600, 0, 45);
    DivModUnique(45, 48 * 60, 0, 45);
    DivModUnique(45, 48, 0, 45);
  }

  /** Frame 5 at 48 Hz lies five frame durations after midnight. */
  lemma Frame5At48Hz(frameDuration: int)
    requires frameDuration > 0 && FramesPerSecond(frameDuration) == 48
    ensures FromComponents(frameDuration, 0, 0, 0, 5, true) == Success(Timecode(5 * frameDuration, 0, 0, 0, 5, true, frameDuration))
  {
    assert FrameNumber(48, 0, 0, 0, 5) == 5;
  }

  /** The word 0x45 decodes at 48 Hz as frame 5 with the drop-frame flag set. */
  lemma FromBcdWord45(frameDuration: int)
    requires frameDuration > 0 && FramesPerSecond(frameDuration) == 48 && !SplitsFields(frameDuration)
    ensures FromBcd(frameDuration, 0x45) == Success(Some(Timecode(5 * frameDuration, 0, 0, 0, 5, true, frameDuration)))
  {
    UnpackWord45();
    Frame5At48Hz(frameDuration);
  }

  /** At 48 Hz (a registered rate, frame duration 14 700 000 flicks) frames are not
    * split, so frame 45 puts its tens digit 4 into bit 6: the word decodes as frame 5
    * with the drop-frame flag set. */
  lemma {:induction false} RoundTripFailsAt48Hz()
    ensures FlicksPerSecond / 48 == 14_700_000
    ensures var t := FromFlicks(14_700_000, 45 * 14_700_000, false).value;
      t.frame == 45 && !t.isDropFrame && ToBcd(t) == 0x45
      && FromBcd(14_700_000, ToBcd(t)) == Success(Some(Timecode(5 * 14_700_000, 0, 0, 0, 5, true, 14_700_000)))
  {
    Rate48Hz();
    FromFlicksFrame45(14_700_000);
    PackFrame45();
    FromBcdWord45(14_700_000);
  }

  /** FromBCD with the corrected field split. */
  function FromBcdCorrected(frameDuration: int, bcdTimecode: UInt32): (r: Result<Option<Timecode>>)
    requires frameDuration >= 0
    ensures r == Success(None) <==> bcdTimecode == NoTimecode
    ensures r.Failure? <==> bcdTimecode != NoTimecode && frameDuration == 0
  {
    var u := UnpackWith(SplitsFieldsCorrected(frameDuration), bcdTimecode);
    if !u.valid then Success(None)
    else match FromComponents(frameDuration, u.parts.hour, u.parts.minute, u.parts.second, u.parts.frame, u.parts.isDropFrame)
      case Failure(e) => Failure(e)
      case Success(t) => Success(Some(t))
  }

  /** ToBCD with the corrected field split. */
  function ToBcdCorrected(t: Timecode): (w: UInt32)
  {
    PackWith(SplitsFieldsCorrected(t.frameDuration), t.hour, t.minute, t.second, t.frame, t.isDropFrame)
  }

  /** With frames split above 40 Hz, every rate up to 80 Hz round-trips, 47.95 Hz and
    * 48 Hz included. */
  lemma {:induction false} BcdRoundTripCorrected(frameDuration: int, frames: int, isDropFrame: bool)
    requires frameDuration > 0 && 0 <= frames < SecondsPerDay * FramesPerSecond(frameDuration)
    requires FramesPerSecond(frameDuration) <= 80
    ensures var t := FromFlicks(frameDuration, frames * frameDuration, isDropFrame).value;
      FromBcdCorrected(frameDuration, ToBcdCorrected(t)) == Success(Some(t))
  {
    var fps := FramesPerSecond(frameDuration);
    if !SplitsFieldsCorrected(frameDuration) {
      // frameDuration >= FlicksPerSecond / 40, so at most 40 frames fit in a second.
      MulNonneg(fps - 1, frameDuration - FlicksPerSecond / 40);
      assert (fps - 1) * (FlicksPerSecond / 40) < FlicksPerSecond;
    }
    RoundTripWith(SplitsFieldsCorrected(frameDuration), frameDuration, frames, isDropFrame);
  }

  // ----- Comparison and equality ------------------------------------------------------

  /** CompareTo(Timecode): the order of the flicks alone, as long.CompareTo reports it. */
  function CompareTo(a: Timecode, b: Timecode): (r: int)
    ensures r == -1 || r == 0 || r == 1
    ensures r < 0 <==> a.flicks < b.flicks
    ensures r > 0 <==> a.flicks > b.flicks
  {
    if a.flicks < b.flicks then -1 else if a.flicks > b.flicks then 1 else 0
  }

  /** The argument of the `object` overloads. */
  datatype Boxed = BoxedTimecode(timecode: Timecode) | OtherObject

  /** CompareTo(object): -1 for anything that is not a Timecode. */
  function CompareToObject(a: Timecode, obj: Boxed): (r: int)
    ensures obj.OtherObject? ==> r == -1
    ensures obj.BoxedTimecode? ==> r == CompareTo(a, obj.timecode)
  {
    match obj
    case BoxedTimecode(b) => CompareTo(a, b)
    case OtherObject => -1
  }

  /** Equals(Timecode): equal flicks and equal drop-frame flags. */
  function Equals(a: Timecode, b: Timecode): (r: bool)
    ensures r ==> CompareTo(a, b) == 0
    ensures r <==> CompareTo(a, b) == 0 && a.isDropFrame == b.isDropFrame
  {
    a.flicks == b.flicks && a.isDropFrame == b.isDropFrame
  }

  /** Equals(object): false for anything that is not a Timecode. */
  function EqualsObject(a: Timecode, obj: Boxed): (r: bool)
    ensures r <==> obj.BoxedTimecode? && Equals(a, obj.timecode)
  {
    obj.BoxedTimecode? && Equals(a, obj.timecode)
  }

  /** Equal timecodes compare as equal, but not the other way round: two timecodes one
    * frame apart in drop-frame flag only compare as 0 and are not Equal. */
  lemma CompareZeroIsWeakerThanEquals()
    ensures var a := Timecode(0, 0, 0, 0, 0, false, 1);
      var b := Timecode(0, 0, 0, 0, 0, true, 1);
      CompareTo(a, b) == 0 && !Equals(a, b)
  {
  }

  /** `<`, `<=`, `>` and `>=` compare through CompareTo; `==` and `!=` through Equals. */
  predicate Less(a: Timecode, b: Timecode) { CompareTo(a, b) < 0 }
  predicate LessOrEqual(a: Timecode, b: Timecode) { CompareTo(a, b) <= 0 }
  predicate Greater(a: Timecode, b: Timecode) { CompareTo(a, b) > 0 }
  predicate GreaterOrEqual(a: Timecode, b: Timecode) { CompareTo(a, b) >= 0 }

  /** The comparison operators form a total preorder on timecodes, consistent with
    * equality: `<=` is total and transitive, `a < b` is `!(b <= a)`, and `==` implies
    * both `<=` and `>=`. */
  lemma OperatorsArePreorder(a: Timecode, b: Timecode, c: Timecode)
    ensures LessOrEqual(a, b) || LessOrEqual(b, a)
    ensures LessOrEqual(a, b) && LessOrEqual(b, c) ==> LessOrEqual(a, c)
    ensures Less(a, b) <==> !LessOrEqual(b, a)
    ensures Greater(a, b) <==> Less(b, a)
    ensures GreaterOrEqual(a, b) <==> LessOrEqual(b, a)
    ensures Equals(a, b) ==> LessOrEqual(a, b) && GreaterOrEqual(a, b)
  {
  }

  // ----- Text -------------------------------------------------------------------------

  function DigitChar(d: int): (c: char)
    requires 0 <= d < 10
    ensures '0' <= c <= '9' && c as int - '0' as int == d
  {
    (d + '0' as int) as char
  }

  /** The decimal digits of a non-negative number, without leading zeros. */
  function Decimal(n: nat): (s: string)
    decreases n
    ensures |s| >= 1
    ensures n < 10 <==> |s| == 1
  {
    if n < 10 then [DigitChar(n)] else Decimal(n / 10) + [DigitChar(n % 10)]
  }

  /** .NET's "D2" format: at least two digits, zero-padded, with a leading minus sign
    * for negative values. */
  function D2(n: int): (s: string)
    ensures |s| >= 2
  {
    var digits := Decimal(if n < 0 then -n else n);
    var padded := if |digits| < 2 then "0" + digits else digits;
    if n < 0 then "-" + padded else padded
  }

  /** A value in [0, 100) prints as its tens digit then its units digit. */
  lemma D2TwoDigits(n: int)
    requires 0 <= n < 100
    ensures D2(n) == [DigitChar(n / 10), DigitChar(n % 10)]
  {
    if n >= 10 {
      assert Decimal(n) == Decimal(n / 10) + [DigitChar(n % 10)];
    }
  }

  /** ToString: "HH:MM:SS:FF", with ';' before the frames of a drop-frame timecode. */
  function ToString(t: Timecode): (s: string)
  {
    D2(t.hour) + ":" + D2(t.minute) + ":" + D2(t.second) + (if t.isDropFrame then ";" else ":") + D2(t.frame)
  }

  /** Reading two digit characters back as a number. */
  function ParseTwoDigits(s: string): int
    requires |s| == 2
  {
    (s[0] as int - '0' as int) * 10 + (s[1] as int - '0' as int)
  }

  /** For components in [0, 100) the text is eleven characters: three two-digit fields
    * separated by ':', then ';' for drop frame or ':', then the two-digit frame; each
    * field reads back as its component. */
  lemma {:induction false} ToStringLayout(t: Timecode)
    requires 0 <= t.hour < 100 && 0 <= t.minute < 100 && 0 <= t.second < 100 && 0 <= t.frame < 100
    ensures var s := ToString(t);
      |s| == 11 && s[2] == ':' && s[5] == ':' && s[8] == (if t.isDropFrame then ';' else ':')
      && ParseTwoDigits(s[0..2]) == t.hour && ParseTwoDigits(s[3..5]) == t.minute
      && ParseTwoDigits(s[6..8]) == t.second && ParseTwoDigits(s[9..11]) == t.frame
  {
    D2TwoDigits(t.hour);
    D2TwoDigits(t.minute);
    D2TwoDigits(t.second);
    D2TwoDigits(t.frame);
    var s := ToString(t);
    assert s[0..2] == D2(t.hour);
    assert s[3..5] == D2(t.minute);
    assert s[6..8] == D2(t.second);
    assert s[9..11] == D2(t.frame);
  }
}
