/** What a network interface means: address cache, waiting datagrams and request timers as a value,
    and each operation as a function on it (address resolution as in RFC 826). */
module Linking {
  import opened WrappingIntegers
  import opened Parsing
  import opened Ipv4Codecs

  type EthernetAddress = x: int | 0 <= x < 0x1_0000_0000_0000

  const BROADCAST: EthernetAddress := 0xffff_ffff_ffff
  const REQUEST_INTERVAL := 5000
  const ADDRESS_LIFETIME := 30000

  datatype Opcode = Request | Reply

  datatype ArpMessage = ArpMessage(
    opcode: Opcode, senderEth: EthernetAddress, senderIp: u32, targetEth: EthernetAddress, targetIp: u32)

  /** The type field of a frame, and the message its payload parses to, if it does. */
  datatype Payload = Ip(datagram: Option<Datagram>) | Arp(message: Option<ArpMessage>) | OtherType

  datatype Frame = Frame(dst: EthernetAddress, src: EthernetAddress, payload: Payload)

  function IpFrame(src: EthernetAddress, dst: EthernetAddress, d: Datagram): Frame {
    Frame(dst, src, Ip(Some(d)))
  }

  /** One frame for each datagram, in order. */
  function IpFrames(src: EthernetAddress, dst: EthernetAddress, ds: seq<Datagram>): seq<Frame> {
    if ds == [] then [] else [IpFrame(src, dst, ds[0])] + IpFrames(src, dst, ds[1..])
  }

  /** `serialize` throws on any other datagram. */
  predicate Serializable(d: Datagram) {
    |d.payload| == d.header.PayloadLength() && Writable(d.header)
  }

  lemma SerializesExactly(d: Datagram)
    ensures Serialize(d).Some? <==> Serializable(d)
  {
  }

  /** The datagrams before the first one that cannot be serialized. */
  function Sendable(ds: seq<Datagram>): (r: seq<Datagram>)
    ensures forall d :: d in r ==> Serializable(d)
  {
    if ds == [] || !Serializable(ds[0]) then [] else [ds[0]] + Sendable(ds[1..])
  }

  /** The others. */
  function Unsent(ds: seq<Datagram>): (r: seq<Datagram>)
    ensures Sendable(ds) + r == ds
    ensures r != [] ==> !Serializable(r[0])
  {
    if ds == [] || !Serializable(ds[0]) then ds else Unsent(ds[1..])
  }

  datatype Remembered = Remembered(addr: EthernetAddress, age: nat) {
    function Aged(ms: nat): Remembered {
      Remembered(addr, age + ms)
    }
  }

  datatype Interface = Interface(
    eth: EthernetAddress, ip: u32, out: seq<Frame>,
    waiting: map<u32, seq<Datagram>>, cache: map<u32, Remembered>, timers: map<u32, nat>)
  {
    function RequestFrame(target: u32): Frame {
      Frame(BROADCAST, eth, Arp(Some(ArpMessage(Request, eth, ip, 0, target))))
    }

    function ReplyFrame(to: ArpMessage): Frame {
      Frame(to.senderEth, eth, Arp(Some(ArpMessage(Reply, eth, ip, to.senderEth, to.senderIp))))
    }

    function Waiting(hop: u32): seq<Datagram> {
      if hop in waiting then waiting[hop] else []
    }

    // ---- sending ----

    /** A request was broadcast too recently for another one. */
    predicate Recent(hop: u32) {
      hop in timers && timers[hop] <= REQUEST_INTERVAL
    }

    predicate SendThrows(d: Datagram, hop: u32) {
      hop in cache && !Serializable(d)
    }

    function SendFrames(d: Datagram, hop: u32): seq<Frame> {
      if SendThrows(d, hop) then []
      else if hop in cache then [IpFrame(eth, cache[hop].addr, d)]
      else if Recent(hop) then []
      else [RequestFrame(hop)]
    }

    function Send(d: Datagram, hop: u32): Interface {
      this.(out := out + SendFrames(d, hop),
            waiting := if hop in cache then waiting else waiting[hop := Waiting(hop) + [d]],
            timers := if hop in cache || Recent(hop) then timers else timers[hop := 0])
    }

    // ---- receiving ----

    predicate ForUs(f: Frame) {
      f.dst == eth || f.dst == BROADCAST
    }

    /** The message of a frame that is one for us. */
    function Message(f: Frame): Option<ArpMessage> {
      if ForUs(f) && f.payload.Arp? then f.payload.message else None
    }

    /** A frame of another type aborts, and so would a timer without a queue. */
    predicate Handles(f: Frame) {
      && (ForUs(f) ==> !f.payload.OtherType?)
      && (Message(f).Some? && Message(f).value.senderIp in timers ==> Message(f).value.senderIp in waiting)
    }

    function Delivered(f: Frame): Option<Datagram> {
      if ForUs(f) && f.payload.Ip? then f.payload.datagram else None
    }

    /** The datagrams that wait for the sender's address. */
    function Due(m: ArpMessage): seq<Datagram> {
      if m.senderIp in timers then Waiting(m.senderIp) else []
    }

    /** Those that leave, up to the first that cannot be serialized. */
    function Released(m: ArpMessage): seq<Datagram> {
      Sendable(Due(m))
    }

    predicate LearnThrows(m: ArpMessage) {
      Unsent(Due(m)) != []
    }

    function Replies(m: ArpMessage): seq<Frame> {
      if m.opcode == Request && m.targetIp == ip && !LearnThrows(m) then [ReplyFrame(m)] else []
    }

    function LearnFrames(m: ArpMessage): seq<Frame> {
      IpFrames(eth, m.senderEth, Released(m)) + Replies(m)
    }

    /** What is left of the queues: the exception leaves the rest of the queue behind, without its timer. */
    function WaitingAfter(m: ArpMessage): map<u32, seq<Datagram>> {
      if m.senderIp !in timers then waiting
      else if LearnThrows(m) then waiting[m.senderIp := Unsent(Due(m))]
      else waiting - {m.senderIp}
    }

    function Learn(m: ArpMessage): Interface {
      this.(out := out + LearnFrames(m),
            cache := cache[m.senderIp := Remembered(m.senderEth, 0)],
            timers := timers - {m.senderIp},
            waiting := WaitingAfter(m))
    }

    function Receive(f: Frame): Interface
      requires Handles(f)
    {
      if Message(f).Some? then Learn(Message(f).value) else this
    }

    predicate ReceiveThrows(f: Frame) {
      Message(f).Some? && LearnThrows(Message(f).value)
    }

    // ---- time ----

    function Tick(ms: nat): Interface {
      this.(timers := map hop | hop in timers :: timers[hop] + ms,
            cache := map hop | hop in cache && cache[hop].Aged(ms).age <= ADDRESS_LIFETIME :: cache[hop].Aged(ms))
    }
  }

  function InitialInterface(eth: EthernetAddress, ip: u32): Interface {
    Interface(eth, ip, [], map[], map[], map[])
  }
}
