/** IPv4 headers and datagrams as bytes (section 3.1 of RFC 791). */
module Ipv4Codecs {
  import opened ByteStreams
  import opened WrappingIntegers
  import opened Checksums
  import opened Parsing

  const HEADER_LENGTH := 20

  datatype Ipv4Header = Ipv4Header(
    ver: byte, hlen: byte, tos: byte, len: u16, id: u16, df: bool, mf: bool, offset: u16,
    ttl: byte, proto: byte, cksum: u16, src: u32, dst: u32)
  {
    /** The length of the payload, as 16-bit arithmetic has it. */
    function PayloadLength(): u16 {
      (len - 4 * (hlen as int)) % 0x1_0000
    }

    /** The contribution of the pseudo-header to the TCP checksum. */
    function PseudoChecksum(): u32 {
      (src / 0x1_0000 + src % 0x1_0000 + dst / 0x1_0000 + dst % 0x1_0000 + proto + PayloadLength()) % TWO32
    }
  }

  datatype Datagram = Datagram(header: Ipv4Header, payload: seq<byte>)

  function FirstByte(h: Ipv4Header): byte {
    h.ver % 16 * 16 + h.hlen % 16
  }

  function Fragment(h: Ipv4Header): u16 {
    (if h.df then 0x4000 else 0) + (if h.mf then 0x2000 else 0) + h.offset % 0x2000
  }

  // ---- writing ----

  /** What `serialize` accepts; it throws for other headers. */
  predicate Writable(h: Ipv4Header) {
    h.ver == 4 && 4 * (h.hlen as int) >= HEADER_LENGTH
  }

  /** The header followed by `tail`, field after field; the functions start at different fields. */
  function FromAddresses(h: Ipv4Header, tail: seq<byte>): seq<byte> {
    ToBytes(h.src, 4) + (ToBytes(h.dst, 4) + tail)
  }

  function FromChecksum(h: Ipv4Header, tail: seq<byte>): seq<byte> {
    ToBytes(h.cksum, 2) + FromAddresses(h, tail)
  }

  function FromFragment(h: Ipv4Header, tail: seq<byte>): seq<byte> {
    ToBytes(Fragment(h), 2) + (ToBytes(h.ttl, 1) + (ToBytes(h.proto, 1) + FromChecksum(h, tail)))
  }

  function Layout(h: Ipv4Header, tail: seq<byte>): seq<byte> {
    ToBytes(FirstByte(h), 1) + (ToBytes(h.tos, 1) + (ToBytes(h.len, 2) + (ToBytes(h.id, 2) + FromFragment(h, tail))))
  }

  function Padding(h: Ipv4Header): seq<byte>
    requires Writable(h)
  {
    Zeros(4 * (h.hlen as int) - HEADER_LENGTH)
  }

  function HeaderBytes(h: Ipv4Header): seq<byte>
    requires Writable(h)
  {
    Layout(h, Padding(h))
  }

  /** The checksum runs over the header only. */
  function Checksum(h: Ipv4Header): u16
    requires Writable(h)
  {
    Sum(0, false).Add(HeaderBytes(h.(cksum := 0))).Value()
  }

  /** A payload of the wrong size and a header that cannot be written are refused. */
  function Serialize(d: Datagram): Option<seq<byte>> {
    if |d.payload| != d.header.PayloadLength() || !Writable(d.header) then None
    else Some(HeaderBytes(d.header.(cksum := Checksum(d.header))) + d.payload)
  }

  // ---- reading ----

  datatype Parsed = Parsed(header: Ipv4Header, rest: Parser, result: ParseResult)

  /** The fixed fields and the parser after them. */
  function ParseFields(p: Parser): (Ipv4Header, Parser) {
    var first := p.U8();
    var p1 := p.Skip(1);
    var p2 := p1.Skip(1);
    var p3 := p2.Skip(2);
    var p4 := p3.Skip(2);
    var fragment := p4.U16();
    var p5 := p4.Skip(2);
    var p6 := p5.Skip(1);
    var p7 := p6.Skip(1);
    var p8 := p7.Skip(2);
    var p9 := p8.Skip(4);
    (Ipv4Header(first / 16, first % 16, p1.U8(), p2.U16(), p3.U16(), fragment / 0x4000 % 2 == 1,
                fragment / 0x2000 % 2 == 1, fragment % 0x2000, p5.U8(), p6.U8(), p7.U16(), p8.U32(), p9.U32()),
     p9.Skip(4))
  }

  /** The checks on the fields, the options, and the checksum over the original bytes. */
  function CheckHeader(original: seq<byte>, h: Ipv4Header, rest: Parser): Parsed {
    if |original| < 4 * (h.hlen as int) then Parsed(h, rest, PacketTooShort)
    else if h.ver != 4 then Parsed(h, rest, WrongIpVersion)
    else if h.hlen < 5 then Parsed(h, rest, HeaderTooShort)
    else if |original| != h.len then Parsed(h, rest, TruncatedPacket)
    else
      var r := rest.Skip(4 * (h.hlen as int) - HEADER_LENGTH);
      if r.Failed() then Parsed(h, r, r.error)
      else if Sum(0, false).Add(original[..4 * (h.hlen as int)]).Value() != 0 then Parsed(h, r, BadChecksum)
      else Parsed(h, r, NoError)
  }

  function ParseHeader(was: Ipv4Header, p: Parser): Parsed {
    if |p.buffer| < HEADER_LENGTH then Parsed(was, p, PacketTooShort)
    else CheckHeader(p.buffer, ParseFields(p).0, ParseFields(p).1)
  }

  datatype Decoded = Decoded(datagram: Datagram, result: ParseResult)

  /** The result of the header parser is not looked at. */
  function Parse(was: Ipv4Header, buffer: seq<byte>): Decoded {
    var p := ParseHeader(was, Parser(buffer, NoError));
    var d := Datagram(p.header, p.rest.buffer);
    Decoded(d, if |d.payload| != p.header.PayloadLength() then PacketTooShort else p.rest.error)
  }

  // ---- the methods ----

  method SerializeHeader(h: Ipv4Header) returns (ret: Option<seq<byte>>)
    ensures ret == if Writable(h) then Some(HeaderBytes(h)) else None
  {
    if h.ver != 4 || 4 * (h.hlen as int) < HEADER_LENGTH {
      return None;
    }
    var s: seq<byte> := [];
    assert s + HeaderBytes(h) == HeaderBytes(h);
    Assoc(s, ToBytes(FirstByte(h), 1), ToBytes(h.tos, 1) + (ToBytes(h.len, 2) + (ToBytes(h.id, 2) + FromFragment(h, Padding(h)))));
    s := UnparseInt(s, FirstByte(h), 1);
    Assoc(s, ToBytes(h.tos, 1), ToBytes(h.len, 2) + (ToBytes(h.id, 2) + FromFragment(h, Padding(h))));
    s := UnparseInt(s, h.tos, 1);
    Assoc(s, ToBytes(h.len, 2), ToBytes(h.id, 2) + FromFragment(h, Padding(h)));
    s := UnparseInt(s, h.len, 2);
    Assoc(s, ToBytes(h.id, 2), FromFragment(h, Padding(h)));
    s := UnparseInt(s, h.id, 2);
    Assoc(s, ToBytes(Fragment(h), 2), ToBytes(h.ttl, 1) + (ToBytes(h.proto, 1) + FromChecksum(h, Padding(h))));
    s := UnparseInt(s, Fragment(h), 2);
    Assoc(s, ToBytes(h.ttl, 1), ToBytes(h.proto, 1) + FromChecksum(h, Padding(h)));
    s := UnparseInt(s, h.ttl, 1);
    Assoc(s, ToBytes(h.proto, 1), FromChecksum(h, Padding(h)));
    s := UnparseInt(s, h.proto, 1);
    Assoc(s, ToBytes(h.cksum, 2), FromAddresses(h, Padding(h)));
    s := UnparseInt(s, h.cksum, 2);
    Assoc(s, ToBytes(h.src, 4), ToBytes(h.dst, 4) + Padding(h));
    s := UnparseInt(s, h.src, 4);
    Assoc(s, ToBytes(h.dst, 4), Padding(h));
    s := UnparseInt(s, h.dst, 4);
    ret := Some(s + Zeros(4 * (h.hlen as int) - HEADER_LENGTH));
  }

  method SerializeDatagram(d: Datagram) returns (ret: Option<seq<byte>>)
    ensures ret == Serialize(d)
  {
    if |d.payload| != d.header.PayloadLength() {
      return None;
    }
    var headerOut := d.header.(cksum := 0);
    var bytes := SerializeHeader(headerOut);
    if bytes.None? {
      return None;
    }
    var cksum := ChecksumOf(bytes.value);
    headerOut := headerOut.(cksum := cksum);
    bytes := SerializeHeader(headerOut);
    ret := Some(bytes.value + d.payload);
  }

  method ParseFieldsFrom(p: NetParser) returns (h: Ipv4Header)
    modifies p
    ensures (h, p.State()) == ParseFields(old(p.State()))
  {
    var first := p.U8();
    var tos := p.U8();
    var len := p.U16();
    var id := p.U16();
    var fragment := p.U16();
    var ttl := p.U8();
    var proto := p.U8();
    var cksum := p.U16();
    var src := p.U32();
    var dst := p.U32();
    h := Ipv4Header(first / 16, first % 16, tos, len, id, fragment / 0x4000 % 2 == 1, fragment / 0x2000 % 2 == 1,
                    fragment % 0x2000, ttl, proto, cksum, src, dst);
  }

  method ParseHeaderFrom(was: Ipv4Header, p: NetParser) returns (h: Ipv4Header, result: ParseResult)
    modifies p
    ensures Parsed(h, p.State(), result) == ParseHeader(was, old(p.State()))
  {
    var original := p.buffer;
    if |original| < HEADER_LENGTH {
      return was, PacketTooShort;
    }
    h := ParseFieldsFrom(p);
    result := CheckHeaderFrom(original, h, p);
  }

  method CheckHeaderFrom(original: seq<byte>, h: Ipv4Header, p: NetParser) returns (result: ParseResult)
    modifies p
    ensures Parsed(h, p.State(), result) == CheckHeader(original, h, old(p.State()))
  {
    if |original| < 4 * (h.hlen as int) {
      return PacketTooShort;
    }
    if h.ver != 4 {
      return WrongIpVersion;
    }
    if h.hlen < 5 {
      return HeaderTooShort;
    }
    if |original| != h.len {
      return TruncatedPacket;
    }
    p.RemovePrefix(4 * (h.hlen as int) - HEADER_LENGTH);
    if p.error != NoError {
      return p.error;
    }
    var value := ChecksumOf(original[..4 * (h.hlen as int)]);
    result := if value != 0 then BadChecksum else NoError;
  }

  method ChecksumOf(data: seq<byte>) returns (value: u16)
    ensures value == Sum(0, false).Add(data).Value()
  {
    var check := new InternetChecksum(0);
    check.Add(data);
    value := check.Value();
  }

  method ParseDatagram(was: Ipv4Header, buffer: seq<byte>) returns (d: Decoded)
    ensures d == Parse(was, buffer)
  {
    var p := new NetParser(buffer);
    var header, _ := ParseHeaderFrom(was, p);
    d := Decoded(Datagram(header, p.buffer),
                 if |p.buffer| != header.PayloadLength() then PacketTooShort else p.error);
  }

  // ---- the round trip ----

  lemma FragmentTail(h: Ipv4Header, a: seq<byte>, b: seq<byte>)
    ensures FromFragment(h, a + b) == FromFragment(h, a) + b
  {
    Assoc(ToBytes(h.dst, 4), a, b);
    Assoc(ToBytes(h.src, 4), ToBytes(h.dst, 4) + a, b);
    Assoc(ToBytes(h.cksum, 2), FromAddresses(h, a), b);
    Assoc(ToBytes(h.proto, 1), FromChecksum(h, a), b);
    Assoc(ToBytes(h.ttl, 1), ToBytes(h.proto, 1) + FromChecksum(h, a), b);
    Assoc(ToBytes(Fragment(h), 2), ToBytes(h.ttl, 1) + (ToBytes(h.proto, 1) + FromChecksum(h, a)), b);
  }

  lemma LayoutTail(h: Ipv4Header, a: seq<byte>, b: seq<byte>)
    ensures Layout(h, a + b) == Layout(h, a) + b
  {
    FragmentTail(h, a, b);
    var r4 := FromFragment(h, a);
    var r3 := ToBytes(h.id, 2) + r4;
    var r2 := ToBytes(h.len, 2) + r3;
    Assoc(ToBytes(h.id, 2), r4, b);
    Assoc(ToBytes(h.len, 2), r3, b);
    Assoc(ToBytes(h.tos, 1), r2, b);
    Assoc(ToBytes(FirstByte(h), 1), ToBytes(h.tos, 1) + r2, b);
  }

  lemma FrontBack(h: Ipv4Header, tail: seq<byte>)
    ensures var p := Parser(Layout(h, tail), NoError);
            && p.U8() == FirstByte(h) && p.Skip(1).U8() == h.tos && p.Skip(1).Skip(1).U16() == h.len
            && p.Skip(1).Skip(1).Skip(2).U16() == h.id
            && p.Skip(1).Skip(1).Skip(2).Skip(2) == Parser(FromFragment(h, tail), NoError)
  {
    Widths();
    var r4 := FromFragment(h, tail);
    var r3 := ToBytes(h.id, 2) + r4;
    var r2 := ToBytes(h.len, 2) + r3;
    IntBack(FirstByte(h), 1, ToBytes(h.tos, 1) + r2);
    IntBack(h.tos, 1, r2);
    IntBack(h.len, 2, r3);
    IntBack(h.id, 2, r4);
  }

  lemma FragmentBack(h: Ipv4Header, tail: seq<byte>)
    ensures var p := Parser(FromFragment(h, tail), NoError);
            && p.U16() == Fragment(h) && p.Skip(2).U8() == h.ttl && p.Skip(2).Skip(1).U8() == h.proto
            && p.Skip(2).Skip(1).Skip(1) == Parser(FromChecksum(h, tail), NoError)
  {
    Widths();
    var r7 := ToBytes(h.proto, 1) + FromChecksum(h, tail);
    IntBack(Fragment(h), 2, ToBytes(h.ttl, 1) + r7);
    IntBack(h.ttl, 1, r7);
    IntBack(h.proto, 1, FromChecksum(h, tail));
  }

  lemma ChecksumBack(h: Ipv4Header, tail: seq<byte>)
    ensures var p := Parser(FromChecksum(h, tail), NoError);
            && p.U16() == h.cksum && p.Skip(2).U32() == h.src && p.Skip(2).Skip(4).U32() == h.dst
            && p.Skip(2).Skip(4).Skip(4) == Parser(tail, NoError)
  {
    Widths();
    IntBack(h.cksum, 2, FromAddresses(h, tail));
    IntBack(h.src, 4, ToBytes(h.dst, 4) + tail);
    IntBack(h.dst, 4, tail);
  }

  /** What the narrow fields keep: four bits of the header length, thirteen of the fragment offset. */
  function Narrowed(h: Ipv4Header): Ipv4Header {
    h.(hlen := h.hlen % 16, offset := h.offset % 0x2000)
  }

  lemma NarrowBack(h: Ipv4Header)
    requires h.ver == 4
    ensures FirstByte(h) / 16 == 4 && FirstByte(h) % 16 == h.hlen % 16
    ensures Fragment(h) / 0x4000 % 2 == 1 <==> h.df
    ensures Fragment(h) / 0x2000 % 2 == 1 <==> h.mf
    ensures Fragment(h) % 0x2000 == h.offset % 0x2000
  {
  }

  /** The fixed fields written and read back, whatever follows them. */
  lemma FieldsBack(h: Ipv4Header, tail: seq<byte>)
    requires h.ver == 4
    ensures ParseFields(Parser(Layout(h, tail), NoError)) == (Narrowed(h), Parser(tail, NoError))
  {
    NarrowBack(h);
    FrontBack(h, tail);
    FragmentBack(h, tail);
    ChecksumBack(h, tail);
  }

  // ---- the checksum field ----

  /** The 10 bytes before the checksum. */
  function Before(h: Ipv4Header): (s: seq<byte>)
    ensures |s| == 10
  {
    ToBytes(FirstByte(h), 1) + (ToBytes(h.tos, 1) + (ToBytes(h.len, 2) + (ToBytes(h.id, 2)
    + (ToBytes(Fragment(h), 2) + (ToBytes(h.ttl, 1) + ToBytes(h.proto, 1))))))
  }

  lemma LayoutField(h: Ipv4Header, tail: seq<byte>)
    ensures Layout(h, tail) == WithField(Before(h), h.cksum, FromAddresses(h, tail))
  {
    TwoBytes(h.cksum);
    var c := FromChecksum(h, tail);
    var r6 := ToBytes(h.ttl, 1) + ToBytes(h.proto, 1);
    var r5 := ToBytes(Fragment(h), 2) + r6;
    var r4 := ToBytes(h.id, 2) + r5;
    var r3 := ToBytes(h.len, 2) + r4;
    Assoc(ToBytes(h.ttl, 1), ToBytes(h.proto, 1), c);
    Assoc(ToBytes(Fragment(h), 2), r6, c);
    Assoc(ToBytes(h.id, 2), r5, c);
    Assoc(ToBytes(h.len, 2), r4, c);
    Assoc(ToBytes(h.tos, 1), r3, c);
    Assoc(ToBytes(FirstByte(h), 1), ToBytes(h.tos, 1) + r3, c);
    Assoc(Before(h), ToBytes(h.cksum, 2), FromAddresses(h, tail));
  }

  lemma FieldsSame(h: Ipv4Header, v: u16)
    requires Writable(h)
    ensures Before(h.(cksum := v)) == Before(h)
    ensures FromAddresses(h.(cksum := v), Padding(h.(cksum := v))) == FromAddresses(h, Padding(h))
  {
  }

  /** The header `serialize` writes passes the receiver's check. */
  lemma ChecksumPasses(h: Ipv4Header)
    requires Writable(h)
    ensures Sum(0, false).Add(HeaderBytes(h.(cksum := Checksum(h)))).Value() == 0
  {
    var v := Checksum(h);
    var zero, out := h.(cksum := 0), h.(cksum := v);
    LayoutField(zero, Padding(zero));
    LayoutField(out, Padding(out));
    FieldsSame(h, 0);
    FieldsSame(h, v);
    InsertComplement(0, Before(h), FromAddresses(h, Padding(h)));
  }

  lemma HeaderSize(h: Ipv4Header)
    requires Writable(h)
    ensures |HeaderBytes(h)| == 4 * (h.hlen as int)
  {
  }

  lemma AcceptHeader(h: Ipv4Header, payload: seq<byte>)
    requires Writable(h) && h.len == 4 * (h.hlen as int) + |payload| && |HeaderBytes(h)| == 4 * (h.hlen as int)
    requires Sum(0, false).Add(HeaderBytes(h)).Value() == 0
    ensures CheckHeader(HeaderBytes(h) + payload, h, Parser(Padding(h) + payload, NoError))
              == Parsed(h, Parser(payload, NoError), NoError)
  {
    assert (Padding(h) + payload)[|Padding(h)|..] == payload;
    assert (HeaderBytes(h) + payload)[..4 * (h.hlen as int)] == HeaderBytes(h);
  }

  /** After the fixed fields, cut to their widths, the checks begin. */
  lemma NarrowedBack(h: Ipv4Header, payload: seq<byte>, was: Ipv4Header)
    requires Writable(h)
    ensures ParseHeader(was, Parser(HeaderBytes(h) + payload, NoError))
              == CheckHeader(HeaderBytes(h) + payload, Narrowed(h), Parser(Padding(h) + payload, NoError))
  {
    LayoutTail(h, Padding(h), payload);
    FieldsBack(h, Padding(h) + payload);
    HeaderSize(h);
  }

  lemma NarrowSame(h: Ipv4Header)
    ensures Narrowed(h) == h <==> h.hlen <= 15 && h.offset < 0x2000
  {
  }

  lemma FieldsKept(h: Ipv4Header, payload: seq<byte>, was: Ipv4Header)
    requires Writable(h) && h.hlen <= 15 && h.offset < 0x2000
    ensures ParseHeader(was, Parser(HeaderBytes(h) + payload, NoError))
              == CheckHeader(HeaderBytes(h) + payload, h, Parser(Padding(h) + payload, NoError))
  {
    NarrowSame(h);
    NarrowedBack(h, payload, was);
  }

  /** A well-formed header written and read back: the header parser accepts it, checksum included. */
  lemma HeaderBack(h: Ipv4Header, payload: seq<byte>, was: Ipv4Header)
    requires Writable(h) && h.hlen <= 15 && h.offset < 0x2000 && h.len == 4 * (h.hlen as int) + |payload|
    requires Sum(0, false).Add(HeaderBytes(h)).Value() == 0
    ensures ParseHeader(was, Parser(HeaderBytes(h) + payload, NoError)) == Parsed(h, Parser(payload, NoError), NoError)
  {
    HeaderSize(h);
    AcceptHeader(h, payload);
    FieldsKept(h, payload, was);
  }

  /** Where the total length is shorter than the header, the header parser stops after the fixed fields. */
  lemma TruncatedBack(h: Ipv4Header, payload: seq<byte>, was: Ipv4Header)
    requires Writable(h) && h.hlen <= 15 && h.offset < 0x2000 && 4 * (h.hlen as int) + |payload| != h.len
    ensures ParseHeader(was, Parser(HeaderBytes(h) + payload, NoError))
              == Parsed(h, Parser(Padding(h) + payload, NoError), TruncatedPacket)
  {
    HeaderSize(h);
    FieldsKept(h, payload, was);
  }

  lemma CutShows(original: seq<byte>, h: Ipv4Header, rest: Parser)
    ensures CheckHeader(original, h, rest).header == h
  {
  }

  /** The datagrams the wire can carry: header length and fragment offset fit their fields, and the total
      length counts the header; without options the header parser's complaint about it has no effect. */
  predicate Fits(h: Ipv4Header) {
    h.hlen <= 15 && h.offset < 0x2000 && (4 * (h.hlen as int) <= h.len || h.hlen == 5)
  }

  lemma Lengths(h: Ipv4Header)
    ensures 4 * (h.hlen as int) <= h.len ==> h.len == 4 * (h.hlen as int) + h.PayloadLength()
    ensures h.len < 4 * (h.hlen as int) ==> h.len != 4 * (h.hlen as int) + h.PayloadLength()
  {
  }

  lemma LengthSame(h: Ipv4Header, v: u16)
    ensures h.(cksum := v).PayloadLength() == h.PayloadLength()
  {
  }

  /** The datagram as it arrives: only the checksum field is new. */
  function Sent(d: Datagram): Datagram
    requires Writable(d.header)
  {
    d.(header := d.header.(cksum := Checksum(d.header)))
  }

  lemma RoundTripCut(d: Datagram, was: Ipv4Header)
    requires Serialize(d).Some? && (15 < d.header.hlen || 0x2000 <= d.header.offset)
    ensures Parse(was, Serialize(d).value).datagram.header != Sent(d).header
  {
    var out := Sent(d).header;
    NarrowSame(out);
    NarrowedBack(out, d.payload, was);
    CutShows(Serialize(d).value, Narrowed(out), Parser(Padding(out) + d.payload, NoError));
  }

  lemma RoundTripWhole(d: Datagram, was: Ipv4Header)
    requires Serialize(d).Some? && d.header.hlen <= 15 && d.header.offset < 0x2000 && 4 * (d.header.hlen as int) <= d.header.len
    ensures Parse(was, Serialize(d).value) == Decoded(Sent(d), NoError)
  {
    var out := Sent(d).header;
    ChecksumPasses(d.header);
    Lengths(out);
    HeaderBack(out, d.payload, was);
  }

  lemma RoundTripTruncated(d: Datagram, was: Ipv4Header)
    requires Serialize(d).Some? && d.header.hlen <= 15 && d.header.offset < 0x2000 && d.header.len < 4 * (d.header.hlen as int)
    ensures Parse(was, Serialize(d).value) == Decoded(Sent(d), NoError) <==> d.header.hlen == 5
  {
    var out := Sent(d).header;
    Lengths(out);
    TruncatedBack(out, d.payload, was);
    PaddedSize(out, d.payload);
    var got := Padding(out) + d.payload;
    LengthSame(d.header, Checksum(d.header));
    assert Parse(was, Serialize(d).value) == Decoded(Datagram(out, got), if |got| != |d.payload| then PacketTooShort else NoError);
  }

  /** Serializing a datagram and parsing the bytes succeeds and restores every field but the checksum, and
      the payload, exactly for the datagrams the wire can carry. */
  lemma RoundTrip(d: Datagram, was: Ipv4Header)
    requires Serialize(d).Some?
    ensures Parse(was, Serialize(d).value) == Decoded(Sent(d), NoError) <==> Fits(d.header)
  {
    if 15 < d.header.hlen || 0x2000 <= d.header.offset {
      RoundTripCut(d, was);
    } else if 4 * (d.header.hlen as int) <= d.header.len {
      RoundTripWhole(d, was);
    } else {
      RoundTripTruncated(d, was);
    }
  }

  lemma PaddedSize(h: Ipv4Header, payload: seq<byte>)
    requires Writable(h)
    ensures |Padding(h) + payload| == 4 * (h.hlen as int) - HEADER_LENGTH + |payload|
    ensures h.hlen == 5 ==> Padding(h) + payload == payload
  {
  }

  // ---- the pseudo-header ----

  function PseudoHeader(h: Ipv4Header): seq<byte> {
    ToBytes(h.src, 4) + (ToBytes(h.dst, 4) + ([0, h.proto] + ToBytes(h.PayloadLength(), 2)))
  }

  lemma WordOf(v: u16, rest: seq<byte>)
    ensures WordSum(ToBytes(v, 2) + rest, false) == v + WordSum(rest, false)
  {
    TwoBytes(v);
    var s := [v / 256, v % 256] + rest;
    assert s[1..] == [v % 256] + rest && s[1..][1..] == rest;
  }

  lemma FourBytes(v: u32)
    ensures ToBytes(v, 4) == ToBytes(v / 0x1_0000, 2) + ToBytes(v % 0x1_0000, 2)
  {
    assert ToBytes(v, 4) == ToBytes(v / 256, 3) + [v % 256];
    assert ToBytes(v / 256, 3) == ToBytes(v / 256 / 256, 2) + [v / 256 % 256];
    assert v / 256 / 256 == v / 0x1_0000;
    TwoBytes(v % 0x1_0000);
    assert v % 0x1_0000 / 256 == v / 256 % 256 && v % 0x1_0000 % 256 == v % 256;
  }

  lemma AddressSum(v: u32, rest: seq<byte>)
    ensures WordSum(ToBytes(v, 4) + rest, false) == v / 0x1_0000 + v % 0x1_0000 + WordSum(rest, false)
  {
    FourBytes(v);
    Assoc(ToBytes(v / 0x1_0000, 2), ToBytes(v % 0x1_0000, 2), rest);
    WordOf(v / 0x1_0000, ToBytes(v % 0x1_0000, 2) + rest);
    WordOf(v % 0x1_0000, rest);
  }

  lemma PseudoTail(proto: byte, n: u16)
    ensures WordSum([0, proto] + ToBytes(n, 2), false) == proto + n
  {
    var tail := ToBytes(n, 2);
    var s := [0, proto] + tail;
    assert s[1..] == [proto] + tail && s[1..][1..] == tail;
    WordOf(n, []);
    assert tail + [] == tail;
  }

  lemma PseudoWords(h: Ipv4Header)
    ensures WordSum(PseudoHeader(h), false)
              == h.src / 0x1_0000 + h.src % 0x1_0000 + h.dst / 0x1_0000 + h.dst % 0x1_0000 + h.proto + h.PayloadLength()
  {
    var tail := [0, h.proto] + ToBytes(h.PayloadLength(), 2);
    AddressSum(h.src, ToBytes(h.dst, 4) + tail);
    AddressSum(h.dst, tail);
    PseudoTail(h.proto, h.PayloadLength());
  }

  lemma Halves(v: u32)
    ensures v / 0x1_0000 < 0x1_0000 && v % 0x1_0000 < 0x1_0000
  {
  }

  /** The number is the sum of the pseudo-header's words (section 3.1 of RFC 793), and small enough for
      the checksum of any segment an IPv4 datagram can hold. */
  lemma PseudoIsSum(h: Ipv4Header)
    ensures h.PseudoChecksum() == WordSum(PseudoHeader(h), false) < 0x10_0000
  {
    PseudoWords(h);
    Halves(h.src);
    Halves(h.dst);
    var total := WordSum(PseudoHeader(h), false);
    assert total < 0x10_0000;
  }
}
