/** The network interface: it frames datagrams for hops whose Ethernet address it knows, and asks for
    the others. */
module NetworkInterfaces {
  import opened WrappingIntegers
  import opened Parsing
  import opened Ipv4Codecs
  import opened Linking

  class NetworkInterface {
    const ethernetAddress: EthernetAddress
    const ipAddress: u32
    var framesOut: seq<Frame>
    var waitingDgrams: map<u32, seq<Datagram>>
    var ipEthMap: map<u32, Remembered>
    var ipWaitingTimeMap: map<u32, nat>

    ghost function State(): Interface
      reads this
    {
      Interface(ethernetAddress, ipAddress, framesOut, waitingDgrams, ipEthMap, ipWaitingTimeMap)
    }

    constructor (ethernetAddress: EthernetAddress, ipAddress: u32)
      ensures State() == InitialInterface(ethernetAddress, ipAddress)
    {
      this.ethernetAddress, this.ipAddress := ethernetAddress, ipAddress;
      framesOut, waitingDgrams, ipEthMap, ipWaitingTimeMap := [], map[], map[], map[];
    }

    /** `threw` says that the call ended in the exception of `serialize`. */
    method SendDatagram(dgram: Datagram, nextHopIp: u32) returns (threw: bool)
      modifies this
      ensures threw == old(State()).SendThrows(dgram, nextHopIp)
      ensures State() == old(State()).Send(dgram, nextHopIp)
    {
      threw := false;
      if nextHopIp in ipEthMap {
        threw := PushFrame(dgram, ipEthMap[nextHopIp].addr);
        return;
      }
      if nextHopIp in waitingDgrams {
        waitingDgrams := waitingDgrams[nextHopIp := waitingDgrams[nextHopIp] + [dgram]];
      } else {
        waitingDgrams := waitingDgrams[nextHopIp := [dgram]];
        assert [] + [dgram] == [dgram];
      }
      if nextHopIp in ipWaitingTimeMap && ipWaitingTimeMap[nextHopIp] <= REQUEST_INTERVAL {
        assert framesOut + [] == framesOut;
        return;
      }
      ipWaitingTimeMap := ipWaitingTimeMap[nextHopIp := 0];
      var message := ArpMessage(Request, ethernetAddress, ipAddress, 0, nextHopIp);
      framesOut := framesOut + [Frame(BROADCAST, ethernetAddress, Arp(Some(message)))];
    }

    /** Serializes a datagram into a frame and queues it. */
    method PushFrame(dgram: Datagram, dst: EthernetAddress) returns (threw: bool)
      modifies this`framesOut
      ensures threw == !Serializable(dgram)
      ensures framesOut == old(framesOut) + if threw then [] else [IpFrame(ethernetAddress, dst, dgram)]
    {
      var bytes := SerializeDatagram(dgram);
      SerializesExactly(dgram);
      threw := bytes.None?;
      if threw {
        assert framesOut + [] == framesOut;
      } else {
        framesOut := framesOut + [Frame(dst, ethernetAddress, Ip(Some(dgram)))];
      }
    }

    method RecvFrame(frame: Frame) returns (ret: Option<Datagram>, threw: bool)
      requires State().Handles(frame)
      modifies this
      ensures threw == old(State()).ReceiveThrows(frame)
      ensures ret == old(State()).Delivered(frame)
      ensures State() == old(State()).Receive(frame)
    {
      if frame.dst != ethernetAddress && frame.dst != BROADCAST {
        return None, false;
      }
      if frame.payload.Ip? {
        return frame.payload.datagram, false;
      }
      if frame.payload.message.None? {
        return None, false;
      }
      threw := LearnFrom(frame.payload.message.value);
      ret := None;
    }

    method LearnFrom(message: ArpMessage) returns (threw: bool)
      requires message.senderIp in ipWaitingTimeMap ==> message.senderIp in waitingDgrams
      modifies this
      ensures threw == old(State()).LearnThrows(message)
      ensures State() == old(State()).Learn(message)
    {
      ghost var before := State();
      ipEthMap := ipEthMap[message.senderIp := Remembered(message.senderEth, 0)];
      threw := Release(message);
      if !threw {
        Answer(message);
      }
      FramesJoined(before.out, IpFrames(ethernetAddress, message.senderEth, before.Released(message)), before.Replies(message));
    }

    /** Replies to a request for this interface. */
    method Answer(message: ArpMessage)
      modifies this`framesOut
      ensures framesOut == old(framesOut) + if message.opcode == Request && message.targetIp == ipAddress
                                            then [old(State()).ReplyFrame(message)] else []
    {
      if message.opcode == Request && message.targetIp == ipAddress {
        var reply := ArpMessage(Reply, ethernetAddress, ipAddress, message.senderEth, message.senderIp);
        framesOut := framesOut + [Frame(message.senderEth, ethernetAddress, Arp(Some(reply)))];
      } else {
        assert framesOut + [] == framesOut;
      }
    }

    /** Lets the queue for the sender go, if there is one. */
    method Release(message: ArpMessage) returns (threw: bool)
      requires message.senderIp in ipWaitingTimeMap ==> message.senderIp in waitingDgrams
      modifies this`framesOut, this`waitingDgrams, this`ipWaitingTimeMap
      ensures threw == old(State()).LearnThrows(message)
      ensures framesOut == old(framesOut) + IpFrames(ethernetAddress, message.senderEth, old(State()).Released(message))
      ensures waitingDgrams == old(State()).WaitingAfter(message)
      ensures ipWaitingTimeMap == old(ipWaitingTimeMap) - {message.senderIp}
    {
      var ip := message.senderIp;
      threw := false;
      if ip in ipWaitingTimeMap {
        ipWaitingTimeMap := ipWaitingTimeMap - {ip};
        threw := FrameAll(ip, message.senderEth);
        if !threw {
          waitingDgrams := waitingDgrams - {ip};
        }
      } else {
        assert framesOut + [] == framesOut;
        assert ipWaitingTimeMap - {ip} == ipWaitingTimeMap;
      }
    }

    /** Drains a queue into frames for one address, front first, up to a datagram that cannot be serialized. */
    method FrameAll(ip: u32, dst: EthernetAddress) returns (threw: bool)
      requires ip in waitingDgrams
      modifies this`framesOut, this`waitingDgrams
      ensures threw == (Unsent(old(waitingDgrams[ip])) != [])
      ensures framesOut == old(framesOut) + IpFrames(ethernetAddress, dst, Sendable(old(waitingDgrams[ip])))
      ensures waitingDgrams == old(waitingDgrams)[ip := Unsent(old(waitingDgrams[ip]))]
    {
      ghost var was, due, out := waitingDgrams, waitingDgrams[ip], framesOut;
      threw := false;
      while !threw && waitingDgrams[ip] != []
        invariant ip in waitingDgrams && waitingDgrams == was[ip := waitingDgrams[ip]]
        invariant Partly(ethernetAddress, dst, due, waitingDgrams[ip], out, framesOut)
        invariant threw ==> waitingDgrams[ip] != [] && !Serializable(waitingDgrams[ip][0])
        decreases !threw, |waitingDgrams[ip]|
      {
        FrameFirst(ethernetAddress, dst, due, waitingDgrams[ip], out, framesOut);
        threw := PushFrame(waitingDgrams[ip][0], dst);
        if !threw {
          waitingDgrams := waitingDgrams[ip := waitingDgrams[ip][1..]];
        }
      }
      PartlyDone(ethernetAddress, dst, due, waitingDgrams[ip], out, framesOut);
    }

    method Tick(ms: nat)
      modifies this
      ensures State() == old(State()).Tick(ms)
    {
      AgeTimers(ms);
      AgeAddresses(ms);
    }

    method AgeTimers(ms: nat)
      modifies this`ipWaitingTimeMap
      ensures ipWaitingTimeMap == old(State()).Tick(ms).timers
    {
      var unvisited := ipWaitingTimeMap.Keys;
      while unvisited != {}
        invariant unvisited <= ipWaitingTimeMap.Keys == old(ipWaitingTimeMap).Keys
        invariant forall hop :: hop in ipWaitingTimeMap ==>
                    ipWaitingTimeMap[hop] == old(ipWaitingTimeMap)[hop] + if hop in unvisited then 0 else ms
        decreases |unvisited|
      {
        var hop :| hop in unvisited;
        ipWaitingTimeMap := ipWaitingTimeMap[hop := ipWaitingTimeMap[hop] + ms];
        unvisited := unvisited - {hop};
      }
    }

    method AgeAddresses(ms: nat)
      modifies this`ipEthMap
      ensures ipEthMap == old(State()).Tick(ms).cache
    {
      ghost var was := ipEthMap;
      var unvisited := ipEthMap.Keys;
      while unvisited != {}
        invariant AgedBut(was, ipEthMap, unvisited, ms)
        decreases |unvisited|
      {
        var hop :| hop in unvisited;
        AgeOne(was, ipEthMap, unvisited, ms, hop);
        var entry := ipEthMap[hop].Aged(ms);
        if entry.age > ADDRESS_LIFETIME {
          ipEthMap := ipEthMap - {hop};
        } else {
          ipEthMap := ipEthMap[hop := entry];
        }
        unvisited := unvisited - {hop};
      }
      AgedAll(was, ipEthMap, ms);
    }
  }

  lemma FramesJoined(a: seq<Frame>, b: seq<Frame>, c: seq<Frame>)
    ensures (a + b) + c == a + (b + c) && (c == [] ==> a + (b + c) == a + b)
  {
  }

  /** Half way through a queue: what is left would still be framed behind what was. */
  ghost predicate Partly(src: EthernetAddress, dst: EthernetAddress, due: seq<Datagram>, left: seq<Datagram>,
                         out: seq<Frame>, now: seq<Frame>) {
    Unsent(left) == Unsent(due) && now + IpFrames(src, dst, Sendable(left)) == out + IpFrames(src, dst, Sendable(due))
  }

  lemma FrameFirst(src: EthernetAddress, dst: EthernetAddress, due: seq<Datagram>, left: seq<Datagram>,
                   out: seq<Frame>, now: seq<Frame>)
    requires Partly(src, dst, due, left, out, now) && left != []
    ensures Serializable(left[0]) ==> Partly(src, dst, due, left[1..], out, now + [IpFrame(src, dst, left[0])])
  {
    if Serializable(left[0]) {
      var rest := Sendable(left[1..]);
      assert Sendable(left)[1..] == rest;
      assert IpFrames(src, dst, Sendable(left)) == [IpFrame(src, dst, left[0])] + IpFrames(src, dst, rest);
    }
  }

  lemma PartlyDone(src: EthernetAddress, dst: EthernetAddress, due: seq<Datagram>, left: seq<Datagram>,
                   out: seq<Frame>, now: seq<Frame>)
    requires Partly(src, dst, due, left, out, now) && (left == [] || !Serializable(left[0]))
    ensures Unsent(due) == left && now == out + IpFrames(src, dst, Sendable(due))
  {
    assert now + [] == now;
  }

  /** Half way through the ageing: the entries not yet visited are as they were, the others have their new age. */
  ghost predicate AgedBut(was: map<u32, Remembered>, now: map<u32, Remembered>, unvisited: set<u32>, ms: nat) {
    && unvisited <= was.Keys
    && forall hop :: AgedAt(was, now, unvisited, ms, hop)
  }

  ghost predicate AgedAt(was: map<u32, Remembered>, now: map<u32, Remembered>, unvisited: set<u32>, ms: nat, hop: u32) {
    if hop in unvisited then hop in was && hop in now && now[hop] == was[hop]
    else if hop in was && was[hop].Aged(ms).age <= ADDRESS_LIFETIME then hop in now && now[hop] == was[hop].Aged(ms)
    else hop !in now
  }

  lemma AgeOne(was: map<u32, Remembered>, now: map<u32, Remembered>, unvisited: set<u32>, ms: nat, hop: u32)
    requires AgedBut(was, now, unvisited, ms) && hop in unvisited
    ensures hop in now
    ensures var entry := now[hop].Aged(ms);
            var next := if entry.age > ADDRESS_LIFETIME then now - {hop} else now[hop := entry];
            AgedBut(was, next, unvisited - {hop}, ms)
  {
    assert AgedAt(was, now, unvisited, ms, hop);
    var entry := now[hop].Aged(ms);
    var next := if entry.age > ADDRESS_LIFETIME then now - {hop} else now[hop := entry];
    forall h ensures AgedAt(was, next, unvisited - {hop}, ms, h) {
      assert AgedAt(was, now, unvisited, ms, h);
    }
  }

  lemma AgedAll(was: map<u32, Remembered>, now: map<u32, Remembered>, ms: nat)
    requires AgedBut(was, now, {}, ms)
    ensures now == map hop | hop in was && was[hop].Aged(ms).age <= ADDRESS_LIFETIME :: was[hop].Aged(ms)
  {
    forall h ensures h in now <==> h in was && was[h].Aged(ms).age <= ADDRESS_LIFETIME {
      assert AgedAt(was, now, {}, ms, h);
    }
    forall h | h in now ensures now[h] == was[h].Aged(ms) {
      assert AgedAt(was, now, {}, ms, h);
    }
  }
}
