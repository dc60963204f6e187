/** TCP headers, segments and the fixed parameters of the implementation. */
module TcpSegments {
  import opened WrappingIntegers
  import opened ByteStreams

  const MAX_PAYLOAD_SIZE := 1000
  const MAX_RETX_ATTEMPTS := 8

  datatype Header = Header(
    sport: u16, dport: u16, seqno: u32, ackno: u32, doff: byte,
    urg: bool, ack: bool, psh: bool, rst: bool, syn: bool, fin: bool,
    win: u16, cksum: u16, uptr: u16)

  const DEFAULT_HEADER := Header(0, 0, 0, 0, 5, false, false, false, false, false, false, 0, 0, 0)

  datatype Segment = Segment(header: Header, payload: seq<byte>) {

    function LengthInSequenceSpace(): nat {
      |payload| + (if header.syn then 1 else 0) + (if header.fin then 1 else 0)
    }
  }
}
