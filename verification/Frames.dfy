/** What the slave reads from its tap interface and how it classifies it. */
module Frames {

  const BUFSIZE: nat := 1500
  const SHUFFLE_PORT := 13562
  const SHUFFLE_LENGTH := 700

  type Byte = b: int | 0 <= b < 256

  /** A packet as queued: the bytes that were read. */
  type Packet = seq<Byte>

  /** One read: the whole buffer and the number of bytes the read filled. What lies beyond
      size is whatever the stack held; the code classifies by offsets 19 to 21 without
      looking at size. */
  datatype RawFrame = RawFrame(buffer: seq<Byte>, size: nat)

  type Frame = f: RawFrame | |f.buffer| == BUFSIZE && f.size <= BUFSIZE
    witness RawFrame(seq(BUFSIZE, _ => 0), 0)

  function Payload(f: Frame): Packet { f.buffer[..f.size] }

  /** Last octet of the IPv4 destination (section 3.1 of RFC 791, 20-byte header). */
  function Dest(f: Frame): Byte { f.buffer[19] }

  /** TCP source port (section 3.1 of RFC 9293) with an unsigned char. */
  function SourcePort(f: Frame): nat { f.buffer[20] as int * 256 + f.buffer[21] as int }

  predicate ForCluster(f: Frame) { 1 <= Dest(f) <= 9 }

  predicate Shuffle(f: Frame) { SourcePort(f) == SHUFFLE_PORT && f.size > SHUFFLE_LENGTH }

  // ----- the two readings of src_port[0]<<8|src_port[1] -----

  /** The expression as the compiler evaluates it: both chars widened to int, shifted, or-ed. */
  function PortBits(high: bv32, low: bv32): bv32 { (high << 8) | low }

  function WidenUnsigned(b: bv8): bv32 { b as bv32 }

  function WidenSigned(b: bv8): bv32
  {
    if b < 128 then b as bv32 else b as bv32 | 0xFFFF_FF00
  }

  /** With a signed char no frame whatever has port 13562, whose low byte is 250, so nothing
      would ever be queued; the classification depends on char being unsigned. */
  lemma SignedCharNeverMatches(high: bv8, low: bv8)
    ensures PortBits(WidenSigned(high), WidenSigned(low)) != 13562
    ensures PortBits(WidenUnsigned(high), WidenUnsigned(low)) == 13562 <==> high == 52 && low == 250
  {
    if low < 128 {
      assert low as bv32 & 0x80 == 0;
      assert PortBits(WidenSigned(high), WidenSigned(low)) & 0x80 == 0;
    } else {
      assert PortBits(WidenSigned(high), WidenSigned(low)) & 0xFFFF_0000 == 0xFFFF_0000;
    }
  }

  /** The arithmetic reading used everywhere else picks out the same two bytes. */
  lemma ShufflePortBytes(f: Frame)
    ensures SourcePort(f) == SHUFFLE_PORT <==> f.buffer[20] == 52 && f.buffer[21] == 250
  {
  }

  /** For every frame: with an unsigned char the expression of the code tests exactly the port the
      model classifies by, and with a signed one it never matches. */
  lemma PortTestAgrees(f: Frame, high: bv8, low: bv8)
    requires high as int == f.buffer[20] && low as int == f.buffer[21]
    ensures PortBits(WidenUnsigned(high), WidenUnsigned(low)) == 13562 <==> SourcePort(f) == SHUFFLE_PORT
    ensures PortBits(WidenSigned(high), WidenSigned(low)) != 13562
  {
    SignedCharNeverMatches(high, low);
    ShufflePortBytes(f);
    ByteIs(high, 52);
    ByteIs(low, 250);
  }

  lemma ByteIs(b: bv8, n: bv8)
    ensures b == n <==> b as int == n as int
  {
    if b as int == n as int {
      assert (b as int) as bv8 == (n as int) as bv8;
    }
  }
}
