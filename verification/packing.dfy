/** The 32-bit words the C API builds from byte and half-word arguments
    before sending them as a single command argument, and the unpacking of
    the exposure word it reads back. */
module Packing {

  /** LED colour: blue in byte 0, green in byte 1, red in byte 2. */
  function PackRgb(red: bv8, green: bv8, blue: bv8): (w: bv32)
    ensures w & 0xFF == blue as bv32
    ensures (w >> 8) & 0xFF == green as bv32
    ensures (w >> 16) & 0xFF == red as bv32
    ensures w >> 24 == 0
  {
    blue as bv32 + (green as bv32 << 8) + (red as bv32 << 16)
  }

  /** White balance: green in byte 0, red in byte 1, blue in byte 2. */
  function PackWhiteBalance(red: bv8, green: bv8, blue: bv8): (w: bv32)
    ensures w & 0xFF == green as bv32
    ensures (w >> 8) & 0xFF == red as bv32
    ensures (w >> 16) & 0xFF == blue as bv32
    ensures w >> 24 == 0
  {
    green as bv32 + (red as bv32 << 8) + (blue as bv32 << 16)
  }

  /** Exposure: the gain in byte 0 and the compensation in bytes 1 and 2. */
  function PackExposure(gain: bv8, compensation: bv16): (w: bv32)
    ensures w & 0xFF == gain as bv32
    ensures (w >> 8) & 0xFFFF == compensation as bv32
    ensures w >> 24 == 0
  {
    var low, high := gain as bv32, compensation as bv32 << 8;
    assert low < 0x100 && high & 0xFF == 0;
    low + high
  }

  /** Exposure read back: the low byte is the gain, the next 16 bits the
      compensation; the top byte is discarded. */
  function UnpackExposure(w: bv32): (r: (bv8, bv16))
  {
    ((w & 0xFF) as bv8, ((w >> 8) & 0xFFFF) as bv16)
  }

  /** Unpacking recovers what was packed. */
  lemma ExposureRoundTrip(gain: bv8, compensation: bv16)
    ensures UnpackExposure(PackExposure(gain, compensation)) == (gain, compensation)
  {
    var w := PackExposure(gain, compensation);
    NarrowByte(w & 0xFF, gain);
    NarrowHalf((w >> 8) & 0xFFFF, compensation);
  }

  lemma NarrowByte(x: bv32, b: bv8)
    requires x == b as bv32
    ensures x as bv8 == b
  {
  }

  lemma NarrowHalf(x: bv32, h: bv16)
    requires x == h as bv32
    ensures x as bv16 == h
  {
  }

  /** Packing what was unpacked gives back the word exactly when its top byte
      is clear. */
  lemma ExposureRepack(w: bv32)
    ensures PackExposure(UnpackExposure(w).0, UnpackExposure(w).1) == w <==> w >> 24 == 0
  {
  }

  /** The two colour words are the same bytes in a different order: the LED
      word of (r, g, b) is the white-balance word of (g, b, r). */
  lemma ColourWordsPermuted(red: bv8, green: bv8, blue: bv8)
    ensures PackRgb(red, green, blue) == PackWhiteBalance(green, blue, red)
  {
  }

  /** The same triple packs to the same word in both orders only for a grey
      (all components equal). */
  lemma ColourWordsAgreeOnlyOnGrey(red: bv8, green: bv8, blue: bv8)
    ensures PackRgb(red, green, blue) == PackWhiteBalance(red, green, blue) <==> red == green == blue
  {
    var a, b := PackRgb(red, green, blue), PackWhiteBalance(red, green, blue);
    if a == b {
      assert a & 0xFF == b & 0xFF;
      assert (a >> 8) & 0xFF == (b >> 8) & 0xFF;
    }
  }
}
