/** TCP headers and segments as bytes (section 3.1 of RFC 793). */
module TcpCodecs {
  import opened ByteStreams
  import opened WrappingIntegers
  import opened TcpSegments
  import opened Checksums
  import opened Parsing

  const HEADER_LENGTH := 20

  function Bit(on: bool, mask: byte): byte {
    if on then mask else 0
  }

  predicate HasBit(b: byte, mask: byte)
    requires mask > 0
  {
    b / mask % 2 == 1
  }

  function Flags(h: Header): byte {
    Bit(h.urg, 32) + Bit(h.ack, 16) + Bit(h.psh, 8) + Bit(h.rst, 4) + Bit(h.syn, 2) + Bit(h.fin, 1)
  }

  // ---- writing ----

  /** The header followed by `tail`, field after field; the functions start at different fields. */
  function FromUrgent(h: Header, tail: seq<byte>): seq<byte>
    requires h.doff >= 5
  {
    ToBytes(h.uptr, 2) + (Zeros(4 * h.doff - HEADER_LENGTH) + tail)
  }

  function FromChecksum(h: Header, tail: seq<byte>): seq<byte>
    requires h.doff >= 5
  {
    ToBytes(h.cksum, 2) + FromUrgent(h, tail)
  }

  function FromOffset(h: Header, tail: seq<byte>): seq<byte>
    requires h.doff >= 5
  {
    ToBytes(h.doff * 16 % 256, 1) + (ToBytes(Flags(h), 1) + (ToBytes(h.win, 2) + FromChecksum(h, tail)))
  }

  function Layout(h: Header, tail: seq<byte>): seq<byte>
    requires h.doff >= 5
  {
    ToBytes(h.sport, 2) + (ToBytes(h.dport, 2) + (ToBytes(h.seqno, 4) + (ToBytes(h.ackno, 4) + FromOffset(h, tail))))
  }

  function HeaderBytes(h: Header): seq<byte>
    requires h.doff >= 5
  {
    Layout(h, [])
  }

  /** Field by field, in the order of the wire. */
  method SerializeHeader(h: Header) returns (ret: Option<seq<byte>>)
    ensures ret == if h.doff < 5 then None else Some(HeaderBytes(h))
  {
    if h.doff < 5 {
      return None;
    }
    var s: seq<byte> := [];
    assert s + HeaderBytes(h) == HeaderBytes(h);
    Assoc(s, ToBytes(h.sport, 2), ToBytes(h.dport, 2) + (ToBytes(h.seqno, 4) + (ToBytes(h.ackno, 4) + FromOffset(h, []))));
    s := UnparseInt(s, h.sport, 2);
    Assoc(s, ToBytes(h.dport, 2), ToBytes(h.seqno, 4) + (ToBytes(h.ackno, 4) + FromOffset(h, [])));
    s := UnparseInt(s, h.dport, 2);
    Assoc(s, ToBytes(h.seqno, 4), ToBytes(h.ackno, 4) + FromOffset(h, []));
    s := UnparseInt(s, h.seqno, 4);
    Assoc(s, ToBytes(h.ackno, 4), FromOffset(h, []));
    s := UnparseInt(s, h.ackno, 4);
    Assoc(s, ToBytes(h.doff * 16 % 256, 1), ToBytes(Flags(h), 1) + (ToBytes(h.win, 2) + FromChecksum(h, [])));
    s := UnparseInt(s, h.doff * 16 % 256, 1);
    Assoc(s, ToBytes(Flags(h), 1), ToBytes(h.win, 2) + FromChecksum(h, []));
    s := UnparseInt(s, Flags(h), 1);
    Assoc(s, ToBytes(h.win, 2), FromChecksum(h, []));
    s := UnparseInt(s, h.win, 2);
    Assoc(s, ToBytes(h.cksum, 2), FromUrgent(h, []));
    s := UnparseInt(s, h.cksum, 2);
    Assoc(s, ToBytes(h.uptr, 2), Zeros(4 * h.doff - HEADER_LENGTH) + []);
    s := UnparseInt(s, h.uptr, 2);
    assert Zeros(4 * h.doff - HEADER_LENGTH) + [] == Zeros(4 * h.doff - HEADER_LENGTH);
    ret := Some(s + Zeros(4 * h.doff - HEADER_LENGTH));
  }

  /** The checksum runs over the header with a zero checksum field, then over the payload. */
  function Checksum(seg: Segment, sum: u32): u16
    requires seg.header.doff >= 5
  {
    Sum(sum, false).Add(HeaderBytes(seg.header.(cksum := 0))).Add(seg.payload).Value()
  }

  /** A header shorter than the fixed fields is refused. */
  function Serialize(seg: Segment, sum: u32): Option<seq<byte>> {
    if seg.header.doff < 5 then None
    else Some(HeaderBytes(seg.header.(cksum := Checksum(seg, sum))) + seg.payload)
  }

  // ---- reading ----

  datatype Parsed = Parsed(header: Header, rest: Parser, result: ParseResult)

  function ParseHeader(p: Parser): Parsed {
    var p1 := p.Skip(2);
    var p2 := p1.Skip(2);
    var p3 := p2.Skip(4);
    var p4 := p3.Skip(4);
    var p5 := p4.Skip(1);
    var flags := p5.U8();
    var p6 := p5.Skip(1);
    var p7 := p6.Skip(2);
    var p8 := p7.Skip(2);
    var p9 := p8.Skip(2);
    var h := Header(p.U16(), p1.U16(), p2.U32(), p3.U32(), p4.U8() / 16,
                    HasBit(flags, 32), HasBit(flags, 16), HasBit(flags, 8), HasBit(flags, 4), HasBit(flags, 2),
                    HasBit(flags, 1), p6.U16(), p7.U16(), p8.U16());
    if h.doff < 5 then Parsed(h, p9, HeaderTooShort)
    else var p10 := p9.Skip(h.doff * 4 - HEADER_LENGTH); Parsed(h, p10, p10.error)
  }

  method ParseHeaderFrom(p: NetParser) returns (h: Header, result: ParseResult)
    modifies p
    ensures Parsed(h, p.State(), result) == ParseHeader(old(p.State()))
  {
    var sport := p.U16();
    var dport := p.U16();
    var seqno := p.U32();
    var ackno := p.U32();
    var doff := p.U8();
    var flags := p.U8();
    var win := p.U16();
    var cksum := p.U16();
    var uptr := p.U16();
    h := Header(sport, dport, seqno, ackno, doff / 16,
                HasBit(flags, 32), HasBit(flags, 16), HasBit(flags, 8), HasBit(flags, 4), HasBit(flags, 2),
                HasBit(flags, 1), win, cksum, uptr);
    if h.doff < 5 {
      return h, HeaderTooShort;
    }
    p.RemovePrefix(h.doff * 4 - HEADER_LENGTH);
    result := p.error;
  }

  datatype Decoded = Decoded(seg: Segment, result: ParseResult)

  /** A bad checksum leaves the segment as it was; the result of the header parser is not looked at. */
  function Parse(was: Segment, buffer: seq<byte>, sum: u32): Decoded {
    if Sum(sum, false).Add(buffer).Value() != 0 then Decoded(was, BadChecksum)
    else
      var p := ParseHeader(Parser(buffer, NoError));
      Decoded(Segment(p.header, p.rest.buffer), p.rest.error)
  }

  method SerializeSegment(seg: Segment, sum: u32) returns (ret: Option<seq<byte>>)
    ensures ret == Serialize(seg, sum)
  {
    var headerOut := seg.header.(cksum := 0);
    var check := new InternetChecksum(sum);
    var bytes := SerializeHeader(headerOut);
    if bytes.None? {
      return None;
    }
    check.Add(bytes.value);
    check.Add(seg.payload);
    var cksum := check.Value();
    headerOut := headerOut.(cksum := cksum);
    bytes := SerializeHeader(headerOut);
    ret := Some(bytes.value + seg.payload);
  }

  method ParseSegment(was: Segment, buffer: seq<byte>, sum: u32) returns (d: Decoded)
    ensures d == Parse(was, buffer, sum)
  {
    var check := new InternetChecksum(sum);
    check.Add(buffer);
    var value := check.Value();
    if value != 0 {
      return Decoded(was, BadChecksum);
    }
    var p := new NetParser(buffer);
    var header, _ := ParseHeaderFrom(p);
    d := Decoded(Segment(header, p.buffer), p.error);
  }

  // ---- the round trip ----

  lemma FlagsBack(h: Header)
    ensures var f := Flags(h);
            && HasBit(f, 32) == h.urg && HasBit(f, 16) == h.ack && HasBit(f, 8) == h.psh
            && HasBit(f, 4) == h.rst && HasBit(f, 2) == h.syn && HasBit(f, 1) == h.fin
  {
  }

  lemma OffsetTail(h: Header, tail: seq<byte>)
    requires h.doff >= 5
    ensures FromOffset(h, tail) == FromOffset(h, []) + tail
  {
    var zeros := Zeros(4 * h.doff - HEADER_LENGTH);
    assert zeros + [] == zeros;
    Assoc(ToBytes(h.uptr, 2), zeros, tail);
    Assoc(ToBytes(h.cksum, 2), FromUrgent(h, []), tail);
    Assoc(ToBytes(h.win, 2), FromChecksum(h, []), tail);
    Assoc(ToBytes(Flags(h), 1), ToBytes(h.win, 2) + FromChecksum(h, []), tail);
    Assoc(ToBytes(h.doff * 16 % 256, 1), ToBytes(Flags(h), 1) + (ToBytes(h.win, 2) + FromChecksum(h, [])), tail);
  }

  lemma LayoutTail(h: Header, tail: seq<byte>)
    requires h.doff >= 5
    ensures Layout(h, tail) == HeaderBytes(h) + tail
  {
    OffsetTail(h, tail);
    var r4 := FromOffset(h, []);
    var r3 := ToBytes(h.ackno, 4) + r4;
    var r2 := ToBytes(h.seqno, 4) + r3;
    Assoc(ToBytes(h.ackno, 4), r4, tail);
    Assoc(ToBytes(h.seqno, 4), r3, tail);
    Assoc(ToBytes(h.dport, 2), r2, tail);
    Assoc(ToBytes(h.sport, 2), ToBytes(h.dport, 2) + r2, tail);
  }

  lemma PortsBack(h: Header, tail: seq<byte>)
    requires 5 <= h.doff
    ensures var p := Parser(Layout(h, tail), NoError);
            && p.U16() == h.sport && p.Skip(2).U16() == h.dport
            && p.Skip(2).Skip(2).U32() == h.seqno && p.Skip(2).Skip(2).Skip(4).U32() == h.ackno
            && p.Skip(2).Skip(2).Skip(4).Skip(4) == Parser(FromOffset(h, tail), NoError)
  {
    Widths();
    var r4 := FromOffset(h, tail);
    var r3 := ToBytes(h.ackno, 4) + r4;
    var r2 := ToBytes(h.seqno, 4) + r3;
    IntBack(h.sport, 2, ToBytes(h.dport, 2) + r2);
    IntBack(h.dport, 2, r2);
    IntBack(h.seqno, 4, r3);
    IntBack(h.ackno, 4, r4);
  }

  lemma OffsetBack(h: Header, tail: seq<byte>)
    requires 5 <= h.doff <= 15
    ensures var p := Parser(FromOffset(h, tail), NoError);
            && p.U8() / 16 == h.doff && p.Skip(1).U8() == Flags(h) && p.Skip(1).Skip(1).U16() == h.win
            && p.Skip(1).Skip(1).Skip(2) == Parser(FromChecksum(h, tail), NoError)
  {
    Widths();
    var r6 := ToBytes(h.win, 2) + FromChecksum(h, tail);
    IntBack(h.doff * 16 % 256, 1, ToBytes(Flags(h), 1) + r6);
    IntBack(Flags(h), 1, r6);
    IntBack(h.win, 2, FromChecksum(h, tail));
  }

  lemma ChecksumBack(h: Header, tail: seq<byte>)
    requires 5 <= h.doff
    ensures var p := Parser(FromChecksum(h, tail), NoError);
            && p.U16() == h.cksum && p.Skip(2).U16() == h.uptr
            && p.Skip(2).Skip(2).Skip(4 * h.doff - HEADER_LENGTH) == Parser(tail, NoError)
  {
    Widths();
    var zeros := Zeros(4 * h.doff - HEADER_LENGTH);
    IntBack(h.cksum, 2, FromUrgent(h, tail));
    IntBack(h.uptr, 2, zeros + tail);
    assert (zeros + tail)[|zeros|..] == tail;
  }

  /** A header written and read back, whatever follows it. */
  lemma HeaderBack(h: Header, tail: seq<byte>)
    requires 5 <= h.doff <= 15
    ensures ParseHeader(Parser(Layout(h, tail), NoError)) == Parsed(h, Parser(tail, NoError), NoError)
  {
    FlagsBack(h);
    PortsBack(h, tail);
    OffsetBack(h, tail);
    ChecksumBack(h, tail);
  }

  // ---- the checksum field ----

  /** The 16 bytes before the checksum. */
  function Before(h: Header): (s: seq<byte>)
    ensures |s| == 16
  {
    ToBytes(h.sport, 2) + (ToBytes(h.dport, 2) + (ToBytes(h.seqno, 4) + (ToBytes(h.ackno, 4)
    + (ToBytes(h.doff * 16 % 256, 1) + (ToBytes(Flags(h), 1) + ToBytes(h.win, 2))))))
  }

  lemma OffsetField(h: Header, tail: seq<byte>)
    requires h.doff >= 5
    ensures FromOffset(h, tail) ==
            (ToBytes(h.doff * 16 % 256, 1) + (ToBytes(Flags(h), 1) + ToBytes(h.win, 2))) + FromChecksum(h, tail)
  {
    var c := FromChecksum(h, tail);
    Assoc(ToBytes(Flags(h), 1), ToBytes(h.win, 2), c);
    Assoc(ToBytes(h.doff * 16 % 256, 1), ToBytes(Flags(h), 1) + ToBytes(h.win, 2), c);
  }

  lemma LayoutField(h: Header, tail: seq<byte>)
    requires h.doff >= 5
    ensures Layout(h, tail) == WithField(Before(h), h.cksum, FromUrgent(h, tail))
  {
    OffsetField(h, tail);
    TwoBytes(h.cksum);
    var c := FromChecksum(h, tail);
    var o := ToBytes(h.doff * 16 % 256, 1) + (ToBytes(Flags(h), 1) + ToBytes(h.win, 2));
    var r3 := ToBytes(h.ackno, 4) + o;
    var r2 := ToBytes(h.seqno, 4) + r3;
    Assoc(ToBytes(h.ackno, 4), o, c);
    Assoc(ToBytes(h.seqno, 4), r3, c);
    Assoc(ToBytes(h.dport, 2), r2, c);
    Assoc(ToBytes(h.sport, 2), ToBytes(h.dport, 2) + r2, c);
    Assoc(Before(h), ToBytes(h.cksum, 2), FromUrgent(h, tail));
  }

  lemma FieldsSame(h: Header, v: u16, tail: seq<byte>)
    requires h.doff >= 5
    ensures Before(h.(cksum := v)) == Before(h) && FromUrgent(h.(cksum := v), tail) == FromUrgent(h, tail)
  {
  }

  /** What `serialize` writes passes the receiver's check. */
  lemma ChecksumPasses(seg: Segment, sum: u32)
    requires seg.header.doff >= 5
    ensures Sum(sum, false).Add(Serialize(seg, sum).value).Value() == 0
  {
    var h, v := seg.header, Checksum(seg, sum);
    var zero, out := h.(cksum := 0), h.(cksum := v);
    AddChunks(Sum(sum, false), HeaderBytes(zero), seg.payload);
    LayoutTail(zero, seg.payload);
    LayoutTail(out, seg.payload);
    LayoutField(zero, seg.payload);
    LayoutField(out, seg.payload);
    FieldsSame(h, 0, seg.payload);
    FieldsSame(h, v, seg.payload);
    InsertComplement(sum, Before(h), FromUrgent(h, seg.payload));
  }

  /** Serializing a segment and parsing the bytes with the same pseudo-header sum succeeds and restores
      every field but the checksum, and the payload, exactly when the data offset fits its four bits. */
  lemma RoundTrip(seg: Segment, sum: u32, was: Segment)
    requires seg.header.doff >= 5
    ensures Parse(was, Serialize(seg, sum).value, sum)
              == Decoded(seg.(header := seg.header.(cksum := Checksum(seg, sum))), NoError)
            <==> seg.header.doff <= 15
  {
    var out := seg.header.(cksum := Checksum(seg, sum));
    ChecksumPasses(seg, sum);
    LayoutTail(out, seg.payload);
    if seg.header.doff <= 15 {
      HeaderBack(out, seg.payload);
    }
  }
}
