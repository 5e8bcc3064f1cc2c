/** The interface of the Chirp remote-procedure-call engine as the
    interpreter sees it. The engine itself is not modelled: its answers are
    supplied as oracle functions, and an asynchronous message it delivers is
    supplied as a value. */
module Chirp {
  import opened Common
  import opened Blobs

  /** A typed argument of a remote call. */
  datatype Arg = UInt8(u8v: u8) | UInt16(u16v: u16) | UInt32(u32v: u32) | Int16(i16v: i16) | Int32(i32v: i32)

  /** The three words the `version` procedure returns. */
  datatype Version = Version(major: u16, minor: u16, build: u16)

  /** What one synchronous call yields: the engine's return value, the 32-bit
      word it writes through the caller's first output pointer, and the
      version words (read only by the firmware-version query). */
  datatype Reply = Reply(status: int, word: u32, version: Version)

  /** An engine as three oracles: procedure-name resolution (a negative id is
      a failure), the synchronous call and the asynchronous call. */
  datatype Engine = Engine(getProc: string -> int,
                           sync: (int, seq<Arg>) -> Reply,
                           async: (int, seq<Arg>) -> int)

  /** A four-character code packed little-endian into 32 bits. */
  function FourCC(a: char, b: char, c: char, d: char): (r: u32)
    requires a < 256 as char && b < 256 as char && c < 256 as char && d < 256 as char
    ensures r % 0x100 == a as int
    ensures (r / 0x100) % 0x100 == b as int
    ensures (r / 0x100 / 0x100) % 0x100 == c as int
    ensures r / 0x100 / 0x100 / 0x100 == d as int
  {
    var high := c as int + 0x100 * d as int;
    var mid := b as int + 0x100 * high;
    SplitByte(c as int, d as int);
    SplitByte(b as int, high);
    SplitByte(a as int, mid);
    a as int + 0x100 * mid
  }

  /** A byte below a multiple of 256 is recovered by remainder and the
      multiple by division. */
  lemma SplitByte(low: int, rest: int)
    requires 0 <= low < 0x100
    ensures (low + 0x100 * rest) % 0x100 == low
    ensures (low + 0x100 * rest) / 0x100 == rest
  {
  }

  const BA81: u32 := FourCC('B', 'A', '8', '1')
  const CCQ1: u32 := FourCC('C', 'C', 'Q', '1')
  const CCB1: u32 := FourCC('C', 'C', 'B', '1')
  const CCB2: u32 := FourCC('C', 'C', 'B', '2')
  const CMV1: u32 := FourCC('C', 'M', 'V', '1')
  const CMV2: u32 := FourCC('C', 'M', 'V', '2')

  /** The argument slots of a hint message that the decoders read. For a
      frame (BA81) only the pixel array is used; a plain report (CCB1) uses
      the plain-blob word count and array; a colour-code report (CCB2) uses
      both blob arrays. */
  datatype HintArgs = HintArgs(pixels: seq<bv8>,
                               aWords: u32, aBlobs: seq<BlobA>,
                               bWords: u32, bBlobs: seq<BlobB>)

  /** An asynchronous message handed to the interpreter's callback. */
  datatype Message =
    | NoData                              // the first argument pointer is null
    | Hint(fourcc: u32, args: HintArgs)   // a type hint carrying a format code
    | HString                             // a string message
    | OtherType(tag: u8)                  // any other message type
}
