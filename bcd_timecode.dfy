/** The binary-coded-decimal timecode word exchanged with the DeckLink driver
  * (BlackmagicUtilities.UnpackBcdTimecode / PackBcdTimecode).
  *
  * Layout of the 32-bit word, least significant bit first:
  *   bits 0-3 frame units, 4-5 frame tens, 6 drop-frame flag, 7 field flag,
  *   8-11 second units, 12-14 second tens, 16-19 minute units,
  *   20-22 minute tens, 24-27 hour units, 28-29 hour tens.
  * Above 50 Hz the frame digits hold frame / 2 and the field flag frame % 2. */
module BcdTimecode {
  import opened Arithmetic

  /** One second, in flicks. */
  const FlicksPerSecond: int := 705_600_000

  /** The word the driver reports when a frame carries no timecode. */
  const NoTimecode: int := 0xffff_ffff

  /** The components of a timecode, as the C# out-parameters hold them. */
  datatype Components = Components(hour: int, minute: int, second: int, frame: int, isDropFrame: bool)

  const Zero: Components := Components(0, 0, 0, 0, false)

  /** The unpacking result: the C# return value and the out-parameters. */
  datatype Unpacked = Unpacked(valid: bool, parts: Components)

  /** The digit of `size` values that starts at the bit worth `unit`, read from a
    * non-negative word. For the 32-bit word this is what `((int)t >> k) & mask` reads:
    * an arithmetic shift and a mask see the same bits as the unsigned value. */
  function Digit(word: int, unit: int, size: int): (d: int)
    requires word >= 0 && unit > 0 && size > 0
    ensures 0 <= d < size
  {
    (word / unit) % size
  }

  /** Whether the frame number is split into digits and a field flag: as written, for
    * every frame duration up to a fiftieth of a second (rates of 50 Hz and above). */
  predicate SplitsFields(frameDuration: int)
  {
    frameDuration <= FlicksPerSecond / 50
  }

  /** The split that keeps every frame number of a rate up to 80 Hz representable:
    * the two-bit frame tens digit holds at most 3, so frames must be split as soon
    * as a second holds more than 40 of them. */
  predicate SplitsFieldsCorrected(frameDuration: int)
  {
    frameDuration < FlicksPerSecond / 40
  }

  /** Decoding a word, with the field split decided by the caller. */
  function UnpackWith(split: bool, word: UInt32): (r: Unpacked)
    ensures r.valid <==> word != NoTimecode
    ensures !r.valid ==> r.parts == Zero
    ensures r.valid ==> r.parts.isDropFrame == (Digit(word, 0x40, 2) == 1)
    ensures r.valid ==> 0 <= r.parts.hour <= 45 && 0 <= r.parts.minute <= 85 && 0 <= r.parts.second <= 85
    ensures r.valid ==> 0 <= r.parts.frame <= (if split then 91 else 45)
  {
    if word == NoTimecode then Unpacked(false, Zero)
    else
      var digits := Digit(word, 0x10, 4) * 10 + Digit(word, 0x1, 16);
      Unpacked(true, Components(
        Digit(word, 0x1000_0000, 4) * 10 + Digit(word, 0x100_0000, 16),
        Digit(word, 0x10_0000, 8) * 10 + Digit(word, 0x1_0000, 16),
        Digit(word, 0x1000, 8) * 10 + Digit(word, 0x100, 16),
        if split then 2 * digits + Digit(word, 0x80, 2) else digits,
        Digit(word, 0x40, 2) == 1))
  }

  /** The 64-bit sum the packing builds, before the cast to `uint`. C# `/` and `%`
    * truncate, so negative components are modelled with TDiv/TRem; `frame & 1` is the
    * two's-complement low bit, which is the Euclidean `frame % 2`. For 32-bit
    * components the sum cannot overflow 64 bits, so unbounded integers are exact. */
  function PackSum(split: bool, hour: int, minute: int, second: int, frame: int, isDropFrame: bool): int
  {
    var field := if split then frame % 2 else 0;
    var f := if split then TDiv(frame, 2) else frame;
    TDiv(hour, 10) * 0x1000_0000 + TRem(hour, 10) * 0x100_0000
    + TDiv(minute, 10) * 0x10_0000 + TRem(minute, 10) * 0x1_0000
    + TDiv(second, 10) * 0x1000 + TRem(second, 10) * 0x100
    + field * 0x80
    + (if isDropFrame then 0x40 else 0)
    + TDiv(f, 10) * 0x10 + TRem(f, 10)
  }

  /** Encoding a timecode, with the field split decided by the caller; `(uint)` of the
    * 64-bit sum keeps its low 32 bits. */
  function PackWith(split: bool, hour: int, minute: int, second: int, frame: int, isDropFrame: bool): (w: UInt32)
  {
    PackSum(split, hour, minute, second, frame, isDropFrame) % UINT32_LIMIT
  }

  /** UnpackBcdTimecode as written. */
  function UnpackBcdTimecode(timecode: UInt32, frameDuration: int): (r: Unpacked)
    ensures r.valid <==> timecode != NoTimecode
    ensures !r.valid ==> r.parts == Zero
  {
    UnpackWith(SplitsFields(frameDuration), timecode)
  }

  /** PackBcdTimecode as written. */
  function PackBcdTimecode(frameDuration: int, hour: int, minute: int, second: int, frame: int, isDropFrame: bool): (w: UInt32)
  {
    PackWith(SplitsFields(frameDuration), hour, minute, second, frame, isDropFrame)
  }

  // ----- Digit arithmetic -------------------------------------------------------------

  /** A digit placed above the bits worth less than `unit` and below the bits
    * worth `unit * size` and more reads back unchanged. */
  lemma DigitOf(word: int, high: int, digit: int, low: int, unit: int, size: int)
    requires unit > 0 && size > 0 && high >= 0
    requires 0 <= digit < size && 0 <= low < unit
    requires word == high * (unit * size) + digit * unit + low
    ensures word >= 0 && Digit(word, unit, size) == digit
  {
    assert word == (high * size + digit) * unit + low;
    DivModUnique(word, unit, high * size + digit, low);
    DivModUnique(high * size + digit, size, high, digit);
  }

  /** The word a set of in-range digits makes. */
  function Assemble(h1: int, h0: int, m1: int, m0: int, s1: int, s0: int, b7: int, b6: int, f1: int, f0: int): int
  {
    h1 * 0x1000_0000 + h0 * 0x100_0000 + m1 * 0x10_0000 + m0 * 0x1_0000
    + s1 * 0x1000 + s0 * 0x100 + b7 * 0x80 + b6 * 0x40 + f1 * 0x10 + f0
  }

  predicate DigitsInRange(h1: int, h0: int, m1: int, m0: int, s1: int, s0: int, b7: int, b6: int, f1: int, f0: int)
  {
    0 <= h1 < 4 && 0 <= h0 < 16 && 0 <= m1 < 8 && 0 <= m0 < 16 && 0 <= s1 < 8 && 0 <= s0 < 16
    && 0 <= b7 < 2 && 0 <= b6 < 2 && 0 <= f1 < 4 && 0 <= f0 < 16
  }

  /** Every digit of an assembled word reads back, and bits 30-31 stay clear. */
  lemma {:induction false} AssembleDigits(h1: int, h0: int, m1: int, m0: int, s1: int, s0: int, b7: int, b6: int, f1: int, f0: int)
    requires DigitsInRange(h1, h0, m1, m0, s1, s0, b7, b6, f1, f0)
    ensures var w := Assemble(h1, h0, m1, m0, s1, s0, b7, b6, f1, f0);
      0 <= w < 0x4000_0000
      && Digit(w, 0x1000_0000, 4) == h1 && Digit(w, 0x100_0000, 16) == h0
      && Digit(w, 0x10_0000, 8) == m1 && Digit(w, 0x1_0000, 16) == m0
      && Digit(w, 0x1000, 8) == s1 && Digit(w, 0x100, 16) == s0
      && Digit(w, 0x80, 2) == b7 && Digit(w, 0x40, 2) == b6
      && Digit(w, 0x10, 4) == f1 && Digit(w, 0x1, 16) == f0
  {
    var w := Assemble(h1, h0, m1, m0, s1, s0, b7, b6, f1, f0);
    // The value of the word read from each digit position upwards.
    var v24 := h1 * 16 + h0;
    var v20 := v24 * 16 + m1;
    var v16 := v20 * 16 + m0;
    var v12 := v16 * 16 + s1;
    var v8 := v12 * 16 + s0;
    var v7 := v8 * 2 + b7;
    var v6 := v7 * 2 + b6;
    var v4 := v6 * 4 + f1;
    assert w == v4 * 16 + f0;
    DigitOf(w, 0, h1, w - h1 * 0x1000_0000, 0x1000_0000, 4);
    DigitOf(w, h1, h0, w - v24 * 0x100_0000, 0x100_0000, 16);
    DigitOf(w, v24 * 2, m1, w - v20 * 0x10_0000, 0x10_0000, 8);
    DigitOf(w, v20, m0, w - v16 * 0x1_0000, 0x1_0000, 16);
    DigitOf(w, v16 * 2, s1, w - v12 * 0x1000, 0x1000, 8);
    DigitOf(w, v12, s0, w - v8 * 0x100, 0x100, 16);
    DigitOf(w, v8, b7, w - v7 * 0x80, 0x80, 2);
    DigitOf(w, v7, b6, w - v6 * 0x40, 0x40, 2);
    DigitOf(w, v6, f1, w - v4 * 0x10, 0x10, 4);
    DigitOf(w, v4, f0, 0, 0x1, 16);
  }

  /** A three-bit digit whose fourth bit is clear reads the same at either width. */
  lemma NarrowDigit(w: int, unit: int)
    requires w >= 0 && unit > 0 && Digit(w, unit, 16) < 8
    ensures Digit(w, unit, 8) == Digit(w, unit, 16)
  {
    var x := w / unit;
    DivModUnique(x, 16, x / 16, x % 16);
    DivModUnique(x, 8, x / 16 * 2, x % 16);
  }

  /** Every word below 2^30 whose unused bits 15 and 23 are clear is the assembly of
    * its own digits. */
  lemma DisassembleWord(w: int)
    requires 0 <= w < 0x4000_0000
    requires Digit(w, 0x10_0000, 16) < 8 && Digit(w, 0x1000, 16) < 8
    ensures DigitsInRange(Digit(w, 0x1000_0000, 4), Digit(w, 0x100_0000, 16), Digit(w, 0x10_0000, 8),
      Digit(w, 0x1_0000, 16), Digit(w, 0x1000, 8), Digit(w, 0x100, 16), Digit(w, 0x80, 2),
      Digit(w, 0x40, 2), Digit(w, 0x10, 4), Digit(w, 0x1, 16))
    ensures w == Assemble(Digit(w, 0x1000_0000, 4), Digit(w, 0x100_0000, 16), Digit(w, 0x10_0000, 8),
      Digit(w, 0x1_0000, 16), Digit(w, 0x1000, 8), Digit(w, 0x100, 16), Digit(w, 0x80, 2),
      Digit(w, 0x40, 2), Digit(w, 0x10, 4), Digit(w, 0x1, 16))
  {
    NarrowDigit(w, 0x10_0000);
    NarrowDigit(w, 0x1000);
    // Peel one digit at a time from the top.
    var r28 := w % 0x1000_0000;
    var r24 := w % 0x100_0000;
    var r20 := w % 0x10_0000;
    var r16 := w % 0x1_0000;
    var r12 := w % 0x1000;
    var r8 := w % 0x100;
    var r7 := w % 0x80;
    var r6 := w % 0x40;
    var r4 := w % 0x10;
    DivModUnique(w, 0x1000_0000, w / 0x1000_0000, r28);
    assert w / 0x1000_0000 < 4;
    assert Digit(w, 0x1000_0000, 4) == w / 0x1000_0000;
    PeelDigit(w, r28, 0x1000_0000, 0x100_0000, 16);
    PeelDigit(w, r24, 0x100_0000, 0x10_0000, 16);
    PeelDigit(w, r20, 0x10_0000, 0x1_0000, 16);
    PeelDigit(w, r16, 0x1_0000, 0x1000, 16);
    PeelDigit(w, r12, 0x1000, 0x100, 16);
    PeelDigit(w, r8, 0x100, 0x80, 2);
    PeelDigit(w, r7, 0x80, 0x40, 2);
    PeelDigit(w, r6, 0x40, 0x10, 4);
    PeelDigit(w, r4, 0x10, 0x1, 16);
  }

  /** The bits of `w` below `unit * size` are the digit at `unit` and the bits below it. */
  lemma PeelDigit(w: int, rest: int, outer: int, unit: int, size: int)
    requires w >= 0 && unit > 0 && size > 0 && outer == unit * size
    requires rest == w % outer
    ensures rest == Digit(w, unit, size) * unit + w % unit
  {
    var q := w / outer;
    assert w == (q * size) * unit + rest;
    var d := rest / unit;
    var lo := rest % unit;
    assert rest == d * unit + lo;
    assert d >= size ==> d * unit >= size * unit;
    assert w == (q * size + d) * unit + lo;
    DivModUnique(w, unit, q * size + d, lo);
    DivModUnique(q * size + d, size, q, d);
  }

  // ----- Round trips ------------------------------------------------------------------

  /** The largest frame number the word can carry, plus one. */
  function FrameLimit(split: bool): (n: int)
    ensures n == 40 || n == 80
  {
    if split then 80 else 40
  }

  predicate ComponentsFit(split: bool, c: Components)
  {
    0 <= c.hour < 40 && 0 <= c.minute < 80 && 0 <= c.second < 80 && 0 <= c.frame < FrameLimit(split)
  }

  /** The frame number as the frame digits hold it. */
  function FrameDigits(split: bool, frame: int): int
  {
    if split then frame / 2 else frame
  }

  /** For components that fit, the packing sum is the assembly of their decimal digits. */
  lemma PackSumOfFit(split: bool, c: Components)
    requires ComponentsFit(split, c)
    ensures var f := FrameDigits(split, c.frame);
      PackSum(split, c.hour, c.minute, c.second, c.frame, c.isDropFrame)
      == Assemble(c.hour / 10, c.hour % 10, c.minute / 10, c.minute % 10, c.second / 10, c.second % 10,
           if split then c.frame % 2 else 0, if c.isDropFrame then 1 else 0, f / 10, f % 10)
  {
    assert TDiv(c.hour, 10) == c.hour / 10 && TRem(c.hour, 10) == c.hour % 10;
    assert TDiv(c.minute, 10) == c.minute / 10 && TRem(c.minute, 10) == c.minute % 10;
    assert TDiv(c.second, 10) == c.second / 10 && TRem(c.second, 10) == c.second % 10;
    var f := FrameDigits(split, c.frame);
    assert split ==> TDiv(c.frame, 2) == f;
    assert TDiv(f, 10) == f / 10 && TRem(f, 10) == f % 10;
  }

  /** Decoding an assembled word reads its digits back. */
  lemma {:induction false} UnpackAssembled(split: bool, h1: int, h0: int, m1: int, m0: int, s1: int, s0: int, b7: int, b6: int, f1: int, f0: int)
    requires DigitsInRange(h1, h0, m1, m0, s1, s0, b7, b6, f1, f0)
    ensures var w := Assemble(h1, h0, m1, m0, s1, s0, b7, b6, f1, f0);
      0 <= w < 0x4000_0000
      && UnpackWith(split, w) == Unpacked(true, Components(h1 * 10 + h0, m1 * 10 + m0, s1 * 10 + s0,
           if split then 2 * (f1 * 10 + f0) + b7 else f1 * 10 + f0, b6 == 1))
  {
    AssembleDigits(h1, h0, m1, m0, s1, s0, b7, b6, f1, f0);
  }

  /** Components whose decimal digits fit their bit fields survive encoding and
    * decoding unchanged, and the word they encode to is never the no-timecode word
    * (bits 30 and 31 stay clear). Hours below 24 and minutes and seconds below 60
    * are inside these bounds. */
  lemma {:induction false} PackThenUnpack(split: bool, c: Components)
    requires ComponentsFit(split, c)
    ensures var w := PackWith(split, c.hour, c.minute, c.second, c.frame, c.isDropFrame);
      w < 0x4000_0000 && w != NoTimecode && UnpackWith(split, w) == Unpacked(true, c)
  {
    var f := FrameDigits(split, c.frame);
    var b7 := if split then c.frame % 2 else 0;
    var b6 := if c.isDropFrame then 1 else 0;
    var w := Assemble(c.hour / 10, c.hour % 10, c.minute / 10, c.minute % 10,
      c.second / 10, c.second % 10, b7, b6, f / 10, f % 10);
    UnpackAssembled(split, c.hour / 10, c.hour % 10, c.minute / 10, c.minute % 10,
      c.second / 10, c.second % 10, b7, b6, f / 10, f % 10);
    PackSumOfFit(split, c);
    assert PackSum(split, c.hour, c.minute, c.second, c.frame, c.isDropFrame) == w;
    DivModUnique(w, UINT32_LIMIT, 0, w);
    assert PackWith(split, c.hour, c.minute, c.second, c.frame, c.isDropFrame) == w;
    assert f / 10 * 10 + f % 10 == f;
    assert split ==> 2 * f + b7 == c.frame;
  }

  /** A word is canonical when it is one the packing can produce: bits 30-31 and the
    * unused bits 15 and 23 clear, every units digit decimal, and the field flag clear
    * when frames are not split. */
  predicate CanonicalWord(split: bool, w: UInt32)
  {
    w < 0x4000_0000
    && Digit(w, 0x10_0000, 16) < 8 && Digit(w, 0x1000, 16) < 8
    && Digit(w, 0x100_0000, 16) < 10 && Digit(w, 0x1_0000, 16) < 10
    && Digit(w, 0x100, 16) < 10 && Digit(w, 0x1, 16) < 10
    && (!split ==> Digit(w, 0x80, 2) == 0)
  }

  /** Decoding a canonical word and encoding the result gives the word back. */
  lemma {:induction false} UnpackThenPack(split: bool, w: UInt32)
    requires CanonicalWord(split, w)
    ensures var r := UnpackWith(split, w);
      r.valid && ComponentsFit(split, r.parts)
      && PackWith(split, r.parts.hour, r.parts.minute, r.parts.second, r.parts.frame, r.parts.isDropFrame) == w
  {
    DisassembleWord(w);
    var r := UnpackWith(split, w);
    var c := r.parts;
    var h1, h0 := Digit(w, 0x1000_0000, 4), Digit(w, 0x100_0000, 16);
    var m1, m0 := Digit(w, 0x10_0000, 8), Digit(w, 0x1_0000, 16);
    var s1, s0 := Digit(w, 0x1000, 8), Digit(w, 0x100, 16);
    var b7, b6 := Digit(w, 0x80, 2), Digit(w, 0x40, 2);
    var f1, f0 := Digit(w, 0x10, 4), Digit(w, 0x1, 16);
    assert r.valid;
    assert c.hour / 10 == h1 && c.hour % 10 == h0;
    assert c.minute / 10 == m1 && c.minute % 10 == m0;
    assert c.second / 10 == s1 && c.second % 10 == s0;
    var digits := f1 * 10 + f0;
    assert FrameDigits(split, c.frame) == digits;
    assert digits / 10 == f1 && digits % 10 == f0;
    assert split ==> c.frame % 2 == b7;
    assert (if c.isDropFrame then 1 else 0) == b6;
    assert ComponentsFit(split, c);
    PackSumOfFit(split, c);
    assert PackSum(split, c.hour, c.minute, c.second, c.frame, c.isDropFrame) == w;
    DivModUnique(w, UINT32_LIMIT, 0, w);
  }

  /** The drop-frame flag is bit 6 in both directions. */
  lemma {:induction false} DropFrameIsBit6(split: bool, c: Components)
    requires ComponentsFit(split, c)
    ensures var w := PackWith(split, c.hour, c.minute, c.second, c.frame, c.isDropFrame);
      Digit(w, 0x40, 2) == (if c.isDropFrame then 1 else 0)
  {
    PackThenUnpack(split, c);
  }

  /** Above 50 Hz the frame digits hold half the frame number and bit 7 its parity. */
  lemma {:induction false} FieldSplitAbove50Hz(frameDuration: int, c: Components)
    requires SplitsFields(frameDuration) && ComponentsFit(true, c)
    ensures var w := PackBcdTimecode(frameDuration, c.hour, c.minute, c.second, c.frame, c.isDropFrame);
      Digit(w, 0x10, 4) * 10 + Digit(w, 0x1, 16) == c.frame / 2
      && Digit(w, 0x80, 2) == c.frame % 2
  {
    var f := c.frame / 2;
    var b6 := if c.isDropFrame then 1 else 0;
    AssembleDigits(c.hour / 10, c.hour % 10, c.minute / 10, c.minute % 10,
      c.second / 10, c.second % 10, c.frame % 2, b6, f / 10, f % 10);
    PackSumOfFit(true, c);
    var w := Assemble(c.hour / 10, c.hour % 10, c.minute / 10, c.minute % 10,
      c.second / 10, c.second % 10, c.frame % 2, b6, f / 10, f % 10);
    DivModUnique(w, UINT32_LIMIT, 0, w);
    assert PackBcdTimecode(frameDuration, c.hour, c.minute, c.second, c.frame, c.isDropFrame) == w;
  }
}
