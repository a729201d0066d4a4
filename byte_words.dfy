/**
 * Big-endian conversions between 32-bit words and bytes, as Python's int.to_bytes(4, 'big')
 * and int.from_bytes(b, 'big') perform them on values below 2^32.
 */
module ByteWords {
  /** The byte of value k, as bytes([k]) holds it; built by counting up so that its value is read back without a conversion. */
  function ByteOf(k: nat): (r: bv8)
    requires k < 256
    ensures r as int == k
  {
    if k == 0 then 0 else ByteOf(k - 1) + 1
  }

  /** w.to_bytes(4, 'big'). */
  function WordToBytes(w: bv32): (r: seq<bv8>)
    ensures |r| == 4
  {
    [(w >> 24) as bv8, ((w >> 16) & 0xFF) as bv8, ((w >> 8) & 0xFF) as bv8, (w & 0xFF) as bv8]
  }

  /** int.from_bytes(bs, 'big') for at most four bytes; the empty string reads as 0. */
  function BytesToWord(bs: seq<bv8>): bv32
    requires |bs| <= 4
  {
    match |bs|
    case 0 => 0
    case 1 => bs[0] as bv32
    case 2 => (bs[0] as bv32 << 8) | bs[1] as bv32
    case 3 => (bs[0] as bv32 << 16) | (bs[1] as bv32 << 8) | bs[2] as bv32
    case _ => (bs[0] as bv32 << 24) | (bs[1] as bv32 << 16) | (bs[2] as bv32 << 8) | bs[3] as bv32
  }

  /** Four bytes read back as the word they came from. */
  lemma BytesToWordToBytes(w: bv32)
    ensures BytesToWord(WordToBytes(w)) == w
  {
    var b := WordToBytes(w);
  }

  /** A word written out as the four bytes it was read from. */
  lemma WordToBytesToWord(bs: seq<bv8>)
    requires |bs| == 4
    ensures WordToBytes(BytesToWord(bs)) == bs
  {
    BytesOfPackedWord(bs[0], bs[1], bs[2], bs[3]);
  }

  lemma BytesOfPackedWord(a: bv8, b: bv8, c: bv8, d: bv8)
    ensures WordToBytes((a as bv32 << 24) | (b as bv32 << 16) | (c as bv32 << 8) | d as bv32) == [a, b, c, d]
  {
    var w := (a as bv32 << 24) | (b as bv32 << 16) | (c as bv32 << 8) | d as bv32;
    assert (w >> 24) as bv8 == a;
    assert ((w >> 16) & 0xFF) as bv8 == b;
    assert ((w >> 8) & 0xFF) as bv8 == c;
    assert (w & 0xFF) as bv8 == d;
  }
}
