/**
 * The one WebSocket frame the server ever writes, and the base frame header
 * layout of section 5.2 of RFC 6455 that it is checked against.
 */
module Frames {
  newtype byte = x: int | 0 <= x < 256

  /** Opcode 0x1 of section 5.2 of RFC 6455: a text frame. */
  const TextOpcode: int := 1

  /** The fixed frame written after every byte read from the client. */
  const HelloFrame: seq<byte> := [0x81, 0x05, 0x48, 0x65, 0x6c, 0x6c, 0x6f]

  /** The fields of the first two bytes of a frame (section 5.2 of RFC 6455). */
  datatype BaseHeader = BaseHeader(fin: bool, rsv: int, opcode: int, masked: bool, length: int)

  /**
   * Byte 0: FIN is bit 7, RSV1-3 are bits 6-4, the opcode is bits 3-0.
   * Byte 1: MASK is bit 7, the 7-bit payload length is bits 6-0.
   */
  function ParseBaseHeader(b0: byte, b1: byte): (h: BaseHeader)
    ensures 0 <= h.rsv < 8 && 0 <= h.opcode < 16 && 0 <= h.length < 128
  {
    BaseHeader(b0 >= 128, (b0 as int / 16) % 8, b0 as int % 16, b1 >= 128, b1 as int % 128)
  }

  /** A string whose characters are all ASCII. */
  predicate IsAscii(s: string)
  {
    forall k :: 0 <= k < |s| ==> s[k] < 128 as char
  }

  /** The bytes of an ASCII string (its UTF-8 encoding). */
  function AsciiBytes(s: string): (r: seq<byte>)
    requires IsAscii(s)
    ensures |r| == |s| && forall k :: 0 <= k < |s| ==> r[k] as int == s[k] as int
  {
    if s == [] then [] else [s[0] as int as byte] + AsciiBytes(s[1..])
  }

  /**
   * A single final, unmasked text frame with a payload short enough for the
   * 7-bit length field, written as section 5.2 of RFC 6455 lays it out.
   */
  function ShortTextFrame(payload: seq<byte>): (r: seq<byte>)
    requires |payload| <= 125
    ensures |r| == 2 + |payload| && r[2..] == payload
    ensures ParseBaseHeader(r[0], r[1]) == BaseHeader(true, 0, TextOpcode, false, |payload|)
  {
    [0x81, |payload| as byte] + payload
  }

  /**
   * The fixed frame is a final unmasked text frame whose length byte equals
   * the length of its payload, and that payload is "Hello".
   */
  lemma HelloFrameIsTextFrame()
    ensures ParseBaseHeader(HelloFrame[0], HelloFrame[1]) == BaseHeader(true, 0, TextOpcode, false, |HelloFrame| - 2)
    ensures |HelloFrame| - 2 == 5
    ensures HelloFrame[2..] == AsciiBytes("Hello")
    ensures HelloFrame == ShortTextFrame(AsciiBytes("Hello"))
  {
    var hello := AsciiBytes("Hello");
    assert hello[0] == 0x48 && hello[1] == 0x65 && hello[2] == 0x6c && hello[3] == 0x6c && hello[4] == 0x6f;
    assert HelloFrame[2..] == hello;
  }
}
