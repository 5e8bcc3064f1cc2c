/** Blob records as the camera sends them, the blocks the library hands to
    its callers, and the geometry that turns one into the other. */
module Blobs {
  import opened Common

  /** A plain-signature blob: a model (signature) id and pixel bounds. It is
      five 16-bit words on the wire. */
  datatype BlobA = BlobA(model: u16, left: u16, right: u16, top: u16, bottom: u16)

  /** A colour-code blob: a plain blob plus a signed angle, six words. */
  datatype BlobB = BlobB(model: u16, left: u16, right: u16, top: u16, bottom: u16, angle: i16)

  /** Words per record, the divisor applied to a report's word count. */
  const BlobAWords: nat := 5
  const BlobBWords: nat := 6

  datatype BlockType = Normal | ColorCode

  /** The block record of the public API. Every field is a `uint16_t` except
      the signed angle. */
  datatype Block = Block(kind: BlockType, signature: u16, x: u16, y: u16,
                         width: u16, height: u16, angle: i16)

  /** One extent along an axis: the 16-bit difference of the bounds. */
  function Extent(lo: u16, hi: u16): (r: u16)
    ensures lo <= hi ==> r == hi - lo
    ensures hi < lo ==> r == hi - lo + 0x1_0000
  {
    ToU16(hi - lo)
  }

  /** The centre along an axis: the low bound plus half the extent, stored in
      16 bits. With ordered bounds it lies between them and does not wrap. */
  function Centre(lo: u16, hi: u16): (r: u16)
    ensures lo <= hi ==> r == lo + (hi - lo) / 2 && lo <= r <= hi
    ensures (r - (lo + Extent(lo, hi) / 2)) % 0x1_0000 == 0
  {
    ToU16(lo + Extent(lo, hi) / 2)
  }

  /** Decoding of a plain blob: a NORMAL block with angle 0. */
  function DecodeA(b: BlobA): (r: Block)
    ensures r.kind == Normal && r.angle == 0 && r.signature == b.model
    ensures r.width == Extent(b.left, b.right) && r.height == Extent(b.top, b.bottom)
    ensures (r.x - (b.left + r.width / 2)) % 0x1_0000 == 0
    ensures (r.y - (b.top + r.height / 2)) % 0x1_0000 == 0
    ensures b.left <= b.right ==> r.width == b.right - b.left && r.x == b.left + r.width / 2 <= b.right
    ensures b.top <= b.bottom ==> r.height == b.bottom - b.top && r.y == b.top + r.height / 2 <= b.bottom
  {
    Block(Normal, b.model, Centre(b.left, b.right), Centre(b.top, b.bottom),
          Extent(b.left, b.right), Extent(b.top, b.bottom), 0)
  }

  /** Decoding of a colour-code blob: a COLOR_CODE block keeping the angle. */
  function DecodeB(b: BlobB): (r: Block)
    ensures r.kind == ColorCode && r.angle == b.angle && r.signature == b.model
    ensures r.width == Extent(b.left, b.right) && r.height == Extent(b.top, b.bottom)
    ensures (r.x - (b.left + r.width / 2)) % 0x1_0000 == 0
    ensures (r.y - (b.top + r.height / 2)) % 0x1_0000 == 0
    ensures b.left <= b.right ==> r.width == b.right - b.left && r.x == b.left + r.width / 2 <= b.right
    ensures b.top <= b.bottom ==> r.height == b.bottom - b.top && r.y == b.top + r.height / 2 <= b.bottom
  {
    Block(ColorCode, b.model, Centre(b.left, b.right), Centre(b.top, b.bottom),
          Extent(b.left, b.right), Extent(b.top, b.bottom), b.angle)
  }

  /** Decodes the records of a report in wire order. */
  function DecodeAllA(bs: seq<BlobA>): (r: seq<Block>)
    ensures |r| == |bs|
    ensures forall i :: 0 <= i < |bs| ==> r[i] == DecodeA(bs[i])
  {
    seq(|bs|, i requires 0 <= i < |bs| => DecodeA(bs[i]))
  }

  function DecodeAllB(bs: seq<BlobB>): (r: seq<Block>)
    ensures |r| == |bs|
    ensures forall i :: 0 <= i < |bs| ==> r[i] == DecodeB(bs[i])
  {
    seq(|bs|, i requires 0 <= i < |bs| => DecodeB(bs[i]))
  }

  /** Number of records a report declares: its word count divided (rounding
      down) by the words per record. */
  function RecordCount(words: u32, perRecord: nat): (n: nat)
    requires 0 < perRecord
    ensures n * perRecord <= words < (n + 1) * perRecord
  {
    words / perRecord
  }

  /** Every colour-code block comes before every normal block. */
  predicate ColorCodesFirst(bs: seq<Block>)
  {
    forall i, j :: 0 <= i < j < |bs| && bs[j].kind == ColorCode ==> bs[i].kind == ColorCode
  }
}
