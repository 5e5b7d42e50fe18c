/** Byte layout of the DeckLink pixel formats (BMDPixelFormat.cs). A C# enum holds any
  * `int`, including codes the package does not name, so formats are modelled as their
  * numeric codes. */
module PixelFormats {
  import opened Arithmetic

  type PixelFormat = int

  const UseBestQuality: PixelFormat := 0
  const YUV8Bit: PixelFormat := 0x3276_7579
  const YUV10Bit: PixelFormat := 0x7632_3130
  const ARGB8Bit: PixelFormat := 32
  const BGRA8Bit: PixelFormat := 0x4247_5241
  const RGB10Bit: PixelFormat := 0x7232_3130
  const RGBXLE10Bit: PixelFormat := 0x5231_306c
  const RGBX10Bit: PixelFormat := 0x5231_3062
  const RGB12Bit: PixelFormat := 0x5231_3242
  const RGBLE12Bit: PixelFormat := 0x5231_324c
  /** The quality-control conversions follow RGBLE12Bit in declaration order. */
  const NoPacking: PixelFormat := 0x5231_324d
  const ClipOnly: PixelFormat := 0x5231_324e
  const LinGammaOnly: PixelFormat := 0x5231_324f
  const Passthrough: PixelFormat := 0x5231_3250

  /** The nine formats with a packed layout. */
  predicate IsPacked(format: PixelFormat)
  {
    format == YUV8Bit || format == ARGB8Bit || format == BGRA8Bit || format == YUV10Bit
    || format == RGB10Bit || format == RGBX10Bit || format == RGBXLE10Bit
    || format == RGB12Bit || format == RGBLE12Bit
  }

  /** The facts about rounding up to a block that the padding relies on. */
  lemma PaddingFacts(length: int, block: int)
    requires block > 0
    ensures length >= 0 ==> TDiv(length, block) == length / block && TRem(length, block) == length % block
    ensures length >= 0 && length % block != 0 ==>
      var padded := (length / block + 1) * block;
      padded % block == 0 && length < padded < length + block && padded / block == (length + block - 1) / block
    ensures length >= 0 && length % block == 0 ==> length / block == (length + block - 1) / block
  {
    if length >= 0 {
      var q, r := length / block, length % block;
      if r != 0 {
        DivModUnique((q + 1) * block, block, q + 1, 0);
        DivModUnique(length + block - 1, block, q + 1, r - 1);
      } else {
        DivModUnique(length + block - 1, block, q, block - 1);
      }
    }
  }

  /** Rounding a row length up to a whole number of blocks, with C#'s `%` and `/`. */
  function PadToBlock(length: int, block: int): (padded: int)
    requires block > 0
    ensures length >= 0 ==> padded % block == 0 && length <= padded < length + block
    ensures length >= 0 ==> padded / block == (length + block - 1) / block
  {
    PaddingFacts(length, block);
    if TRem(length, block) != 0 then (TDiv(length, block) + 1) * block else length
  }

  /** GetByteWidth: the number of bytes in one row of `width` pixels; 0 for a format
    * without a packed layout. The products are unbounded here; C#'s 32-bit int
    * would overflow for widths beyond any video mode. */
  function ByteWidth(format: PixelFormat, width: int): (bytes: int)
    ensures !IsPacked(format) ==> bytes == 0
    ensures width >= 0 ==> bytes >= 0
    ensures (format == YUV8Bit || format == ARGB8Bit || format == BGRA8Bit) && width > 0 ==> bytes >= 2 * width
  {
    if format == YUV8Bit then 2 * width
    else if format == ARGB8Bit || format == BGRA8Bit then 4 * width
    else if format == YUV10Bit then PadToBlock(TDiv(width, 6) * 4 * 4, 128)
    else if format == RGB10Bit || format == RGBX10Bit || format == RGBXLE10Bit then PadToBlock(width * 4, 256)
    else if format == RGB12Bit || format == RGBLE12Bit then TDiv(width * 9 * 4, 8)
    else 0
  }

  /** GetByteHeight: one row of bytes per row of pixels for a packed format, else 0. */
  function ByteHeight(format: PixelFormat, height: int): (rows: int)
    ensures IsPacked(format) ==> rows == height
    ensures !IsPacked(format) ==> rows == 0
  {
    if IsPacked(format) then height else 0
  }

  /** GetByteDepth: four bytes for a packed format, else 0. */
  function ByteDepth(format: PixelFormat): (depth: int)
    ensures IsPacked(format) ==> depth == 4
    ensures !IsPacked(format) ==> depth == 0
  {
    if IsPacked(format) then 4 else 0
  }

  /** The row length of the v210 layout: six pixels in sixteen bytes, rows padded to
    * 128 bytes. */
  function V210RowBytes(width: nat): int
  {
    ((width + 47) / 48) * 128
  }

  /** The row length of the r210 layout: four bytes a pixel, rows padded to 256 bytes. */
  function R210RowBytes(width: nat): int
  {
    ((width + 63) / 64) * 256
  }

  /** The ten-bit RGB formats use exactly the r210 row length. */
  lemma {:induction false} Rgb10IsR210(format: PixelFormat, width: nat)
    requires format == RGB10Bit || format == RGBX10Bit || format == RGBXLE10Bit
    ensures ByteWidth(format, width) == R210RowBytes(width)
  {
    var padded := PadToBlock(width * 4, 256);
    assert padded / 256 == (width * 4 + 255) / 256;
    DivModUnique(width * 4 + 255, 256, (width + 63) / 64, 4 * ((width + 63) % 64) + 3);
  }

  /** The ten-bit YUV row counts only complete groups of six pixels before padding,
    * so it agrees with the v210 row length unless the width exceeds a multiple of 48
    * by one to five pixels; for those widths it is one 128-byte block short. */
  lemma {:induction false} Yuv10AgainstV210(width: nat)
    ensures width % 48 == 0 || width % 48 >= 6 ==> ByteWidth(YUV10Bit, width) == V210RowBytes(width)
    ensures 1 <= width % 48 < 6 ==> ByteWidth(YUV10Bit, width) == V210RowBytes(width) - 128
  {
    var k, j := width / 48, width % 48;
    var groups := width / 6;
    DivModUnique(width, 6, 8 * k + j / 6, j % 6);
    var length := groups * 16;
    assert length == 128 * k + 16 * (j / 6);
    var padded := PadToBlock(length, 128);
    assert padded % 128 == 0 && length <= padded < length + 128;
    DivModUnique(width + 47, 48, if j == 0 then k else k + 1, if j == 0 then 47 else j - 1);
    if j / 6 == 0 {
      assert padded == 128 * k by {
        DivModUnique(padded, 128, padded / 128, 0);
        DivModUnique(length, 128, k, 0);
      }
    } else {
      assert padded == 128 * (k + 1) by {
        DivModUnique(padded, 128, padded / 128, 0);
        MulAtLeast(padded / 128 - k, 128);
        MulAtLeast(padded / 128 - k - 1, 128);
        MulAtLeast(k + 2 - padded / 128, 128);
      }
    }
  }
}
