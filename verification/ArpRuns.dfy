/** Whole runs of a network interface: what was submitted, framed, learned and asked, in order. */
module ArpRuns {
  import opened WrappingIntegers
  import opened Parsing
  import opened Ipv4Codecs
  import opened Linking

  // ---- the history of a run ----

  datatype Entry =
    | Submitted(hop: u32, d: Datagram)
    | Refused(hop: u32, d: Datagram)
    | Framed(hop: u32, d: Datagram, dst: EthernetAddress, at: nat)
    | Learned(ip: u32, addr: EthernetAddress, at: nat)
    | Asked(ip: u32, at: nat)

  datatype History = Start | Then(before: History, entry: Entry)

  function SubmittedTo(h: History, hop: u32): seq<Datagram> {
    if h.Start? then []
    else if h.entry.Submitted? && h.entry.hop == hop then SubmittedTo(h.before, hop) + [h.entry.d]
    else SubmittedTo(h.before, hop)
  }

  function FramedFor(h: History, hop: u32): seq<Datagram> {
    if h.Start? then []
    else if h.entry.Framed? && h.entry.hop == hop then FramedFor(h.before, hop) + [h.entry.d]
    else FramedFor(h.before, hop)
  }

  datatype Lesson = Lesson(addr: EthernetAddress, at: nat)

  function LastLearned(h: History, ip: u32): Option<Lesson> {
    if h.Start? then None
    else if h.entry.Learned? && h.entry.ip == ip then Some(Lesson(h.entry.addr, h.entry.at))
    else LastLearned(h.before, ip)
  }

  function LastAsked(h: History, ip: u32): Option<nat> {
    if h.Start? then None
    else if h.entry.Asked? && h.entry.ip == ip then Some(h.entry.at)
    else LastAsked(h.before, ip)
  }

  /** Every datagram for `hop` was framed to the address learned last, at most 30000 ms before. */
  predicate Addressed(h: History, hop: u32) {
    h.Then? ==>
      && Addressed(h.before, hop)
      && (h.entry.Framed? && h.entry.hop == hop ==>
            var l := LastLearned(h.before, hop);
            l.Some? && l.value.addr == h.entry.dst && l.value.at <= h.entry.at <= l.value.at + ADDRESS_LIFETIME)
  }

  /** Each request for `ip` comes more than 5000 ms after the one before. */
  predicate Spaced(h: History, ip: u32) {
    h.Then? ==>
      && Spaced(h.before, ip)
      && (h.entry.Asked? && h.entry.ip == ip && LastAsked(h.before, ip).Some? ==>
            h.entry.at > LastAsked(h.before, ip).value + REQUEST_INTERVAL)
  }

  // ---- runs ----

  /** `jumped` holds the hops for which a datagram went out although others waited. */
  datatype Run = Run(net: Interface, now: nat, log: History, jumped: set<u32>)

  /** A datagram for a known hop for which others wait, left behind by an exception. */
  predicate Jumps(net: Interface, d: Datagram, hop: u32) {
    hop in net.cache && hop in net.waiting && Serializable(d)
  }

  /** What a frame put out on behalf of `hop` adds to the history; replies add nothing. */
  function Note(log: History, hop: u32, f: Frame, at: nat): History {
    if f.payload.Ip? && f.payload.datagram.Some? then Then(log, Framed(hop, f.payload.datagram.value, f.dst, at))
    else if f.payload.Arp? && f.payload.message.Some? && f.payload.message.value.opcode == Request
    then Then(log, Asked(f.payload.message.value.targetIp, at))
    else log
  }

  function Transcribe(log: History, hop: u32, frames: seq<Frame>, at: nat): History
    decreases |frames|
  {
    if frames == [] then log else Transcribe(Note(log, hop, frames[0], at), hop, frames[1..], at)
  }

  datatype Event = SendDatagram(d: Datagram, hop: u32) | RecvFrame(f: Frame) | Tick(ms: nat) | TakeFrames

  /** The source aborts on a frame for us that is neither IPv4 nor ARP. */
  predicate Proper(net: Interface, e: Event) {
    e.RecvFrame? && net.ForUs(e.f) ==> !e.f.payload.OtherType?
  }

  function Hear(r: Run, m: ArpMessage): Run {
    var log := Then(r.log, Learned(m.senderIp, m.senderEth, r.now));
    Run(r.net.Learn(m), r.now, Transcribe(log, m.senderIp, r.net.LearnFrames(m), r.now), r.jumped)
  }

  /** A call that ends in an exception has not taken the datagram. */
  function Taken(net: Interface, d: Datagram, hop: u32): Entry {
    if net.SendThrows(d, hop) then Refused(hop, d) else Submitted(hop, d)
  }

  function Next(r: Run, e: Event): Run
    requires e.RecvFrame? ==> r.net.Handles(e.f)
  {
    match e
    case SendDatagram(d, hop) =>
      Run(r.net.Send(d, hop), r.now, Transcribe(Then(r.log, Taken(r.net, d, hop)), hop, r.net.SendFrames(d, hop), r.now),
          if Jumps(r.net, d, hop) then r.jumped + {hop} else r.jumped)
    case RecvFrame(f) => if r.net.Message(f).Some? then Hear(r, r.net.Message(f).value) else r
    case Tick(ms) => Run(r.net.Tick(ms), r.now + ms, r.log, r.jumped)
    case TakeFrames => r.(net := r.net.(out := []))
  }

  // ---- what holds at each address ----

  /** A timer has a queue and no cached address; a queue is without a timer only if its front cannot be serialized. */
  predicate KeysAt(net: Interface, ip: u32) {
    && (ip in net.timers ==> ip in net.waiting)
    && (ip in net.cache ==> ip !in net.timers)
    && (ip in net.waiting ==> net.waiting[ip] != [] && (ip !in net.timers ==> !Serializable(net.waiting[ip][0])))
  }

  predicate SomewhereElse(a: seq<Datagram>, b: seq<Datagram>) {
    exists k :: 0 <= k < |a| && k < |b| && a[k] != b[k]
  }

  /** The order holds until a datagram jumps the queue, and then never again; but nothing is lost or framed twice. */
  predicate Accounted(jumped: bool, framed: seq<Datagram>, taken: seq<Datagram>, waiting: seq<Datagram>) {
    && (if jumped then SomewhereElse(framed, taken) else taken == framed + waiting)
    && multiset(taken) == multiset(framed) + multiset(waiting)
  }

  predicate ConservedAt(r: Run, hop: u32) {
    Accounted(hop in r.jumped, FramedFor(r.log, hop), SubmittedTo(r.log, hop), r.net.Waiting(hop))
  }

  /** A cached address is the one learned last, at its age; it is cached for 30000 ms. */
  predicate CachedAt(r: Run, ip: u32) {
    var l := LastLearned(r.log, ip);
    && (l.Some? ==> l.value.at <= r.now)
    && (ip in r.net.cache <==> l.Some? && r.now <= l.value.at + ADDRESS_LIFETIME)
    && (ip in r.net.cache ==> r.net.cache[ip] == Remembered(l.value.addr, r.now - l.value.at))
  }

  /** The time of the last request is in the timer; once the timer is gone, the address was learned
      later, and it stays cached for 30000 ms. */
  predicate AskedAt(r: Run, ip: u32) {
    var t := LastAsked(r.log, ip);
    && (ip in r.net.timers ==> t.Some? && t.value + r.net.timers[ip] == r.now)
    && (t.Some? && ip !in r.net.timers ==>
          && t.value <= r.now
          && ((ip in r.net.cache && t.value + r.net.cache[ip].age <= r.now) || r.now > t.value + ADDRESS_LIFETIME))
  }

  /** What the history says of the times and addresses at `ip`. */
  predicate TimedAt(r: Run, ip: u32) {
    CachedAt(r, ip) && AskedAt(r, ip) && Addressed(r.log, ip) && Spaced(r.log, ip)
  }

  predicate InvAt(r: Run, ip: u32) {
    KeysAt(r.net, ip) && ConservedAt(r, ip) && TimedAt(r, ip)
  }

  /** At `ip` the interface is the same in `q` as in `r`. */
  predicate SameNet(r: Interface, q: Interface, ip: u32) {
    && (ip in q.cache <==> ip in r.cache) && (ip in r.cache ==> q.cache[ip] == r.cache[ip])
    && (ip in q.timers <==> ip in r.timers) && (ip in r.timers ==> q.timers[ip] == r.timers[ip])
    && (ip in q.waiting <==> ip in r.waiting) && (ip in r.waiting ==> q.waiting[ip] == r.waiting[ip])
  }

  /** At `ip` the history `k` says the same as `h`. */
  predicate SameLog(h: History, k: History, ip: u32) {
    && SubmittedTo(k, ip) == SubmittedTo(h, ip) && FramedFor(k, ip) == FramedFor(h, ip)
    && LastLearned(k, ip) == LastLearned(h, ip) && LastAsked(k, ip) == LastAsked(h, ip)
    && (Addressed(h, ip) ==> Addressed(k, ip)) && (Spaced(h, ip) ==> Spaced(k, ip))
  }

  lemma Unaffected(r: Run, q: Run, ip: u32)
    requires InvAt(r, ip) && SameNet(r.net, q.net, ip) && SameLog(r.log, q.log, ip)
    requires q.now == r.now && (ip in q.jumped <==> ip in r.jumped)
    ensures InvAt(q, ip)
  {
  }

  // ---- transcription ----

  lemma {:induction false} TranscribeTwo(log: History, hop: u32, a: seq<Frame>, b: seq<Frame>, at: nat)
    ensures Transcribe(log, hop, a + b, at) == Transcribe(Transcribe(log, hop, a, at), hop, b, at)
    decreases |a|
  {
    if a == [] {
      assert a + b == b;
    } else {
      TranscribeTwo(Note(log, hop, a[0], at), hop, a[1..], b, at);
      assert (a + b)[1..] == a[1..] + b;
    }
  }

  /** Framing a queue for `hop` shows at `hop` only. */
  lemma {:induction false} FramesElsewhere(log: History, hop: u32, src: EthernetAddress, dst: EthernetAddress, ds: seq<Datagram>, at: nat, ip: u32)
    ensures var h := Transcribe(log, hop, IpFrames(src, dst, ds), at);
            && SubmittedTo(h, ip) == SubmittedTo(log, ip) && LastLearned(h, ip) == LastLearned(log, ip)
            && LastAsked(h, ip) == LastAsked(log, ip) && (Spaced(log, ip) ==> Spaced(h, ip))
            && (ip != hop ==> FramedFor(h, ip) == FramedFor(log, ip) && (Addressed(log, ip) ==> Addressed(h, ip)))
    decreases |ds|
  {
    if ds != [] {
      FramesElsewhere(Then(log, Framed(hop, ds[0], dst, at)), hop, src, dst, ds[1..], at, ip);
      assert IpFrames(src, dst, ds)[1..] == IpFrames(src, dst, ds[1..]);
    }
  }

  lemma OneByOne(before: seq<Datagram>, ds: seq<Datagram>)
    requires ds != []
    ensures (before + [ds[0]]) + ds[1..] == before + ds
  {
  }

  /** At `hop` itself the queue follows what was framed before, in order, and rightly addressed. */
  lemma {:induction false} FramesHere(log: History, hop: u32, src: EthernetAddress, dst: EthernetAddress, ds: seq<Datagram>, at: nat)
    requires Addressed(log, hop) && LastLearned(log, hop) == Some(Lesson(dst, at))
    ensures var h := Transcribe(log, hop, IpFrames(src, dst, ds), at);
            FramedFor(h, hop) == FramedFor(log, hop) + ds && Addressed(h, hop)
    decreases |ds|
  {
    if ds != [] {
      var log1 := Then(log, Framed(hop, ds[0], dst, at));
      FramesHere(log1, hop, src, dst, ds[1..], at);
      assert IpFrames(src, dst, ds)[1..] == IpFrames(src, dst, ds[1..]);
      OneByOne(FramedFor(log, hop), ds);
    }
  }

  lemma TranscribeOne(log: History, hop: u32, f: Frame, at: nat)
    ensures Transcribe(log, hop, [f], at) == Note(log, hop, f, at)
  {
    assert [f][1..] == [];
  }

  lemma RepliesSilent(net: Interface, m: ArpMessage, log: History, at: nat)
    ensures Transcribe(log, m.senderIp, net.Replies(m), at) == log
  {
    TranscribeOne(log, m.senderIp, net.ReplyFrame(m), at);
  }

  // ---- every event keeps the invariant at every address ----

  lemma SendLog(r: Run, d: Datagram, hop: u32)
    ensures var log := Then(r.log, Taken(r.net, d, hop));
            Next(r, SendDatagram(d, hop)).log ==
              if r.net.SendThrows(d, hop) then log
              else if hop in r.net.cache then Then(log, Framed(hop, d, r.net.cache[hop].addr, r.now))
              else if r.net.Recent(hop) then log
              else Then(log, Asked(hop, r.now))
  {
    var log := Then(r.log, Taken(r.net, d, hop));
    if hop in r.net.cache {
      TranscribeOne(log, hop, IpFrame(r.net.eth, r.net.cache[hop].addr, d), r.now);
    } else {
      TranscribeOne(log, hop, r.net.RequestFrame(hop), r.now);
    }
  }

  lemma SendElsewhere(r: Run, d: Datagram, hop: u32, ip: u32)
    requires InvAt(r, ip) && ip != hop
    ensures InvAt(Next(r, SendDatagram(d, hop)), ip)
  {
    SendLog(r, d, hop);
    Unaffected(r, Next(r, SendDatagram(d, hop)), ip);
  }

  /** A longer history differs where the shorter did. */
  lemma StillElse(a: seq<Datagram>, b: seq<Datagram>, a': seq<Datagram>, b': seq<Datagram>)
    requires SomewhereElse(a, b) && a <= a' && b <= b'
    ensures SomewhereElse(a', b')
  {
    var k :| 0 <= k < |a| && k < |b| && a[k] != b[k];
    assert a'[k] != b'[k];
  }

  /** A datagram joins the queue. */
  lemma AccountQueued(jumped: bool, f: seq<Datagram>, s: seq<Datagram>, w: seq<Datagram>, d: Datagram)
    requires Accounted(jumped, f, s, w)
    ensures Accounted(jumped, f, s + [d], w + [d])
  {
    if jumped { StillElse(f, s, f, s + [d]); } else { assert s + [d] == f + (w + [d]); }
  }

  /** A datagram goes out past those that wait. */
  lemma AccountFramed(jumped: bool, f: seq<Datagram>, s: seq<Datagram>, w: seq<Datagram>, d: Datagram)
    requires Accounted(jumped, f, s, w) && (w != [] ==> w[0] != d)
    ensures Accounted(jumped || w != [], f + [d], s + [d], w)
  {
    if jumped {
      StillElse(f, s, f + [d], s + [d]);
    } else if w != [] {
      assert (f + [d])[|f|] == d && (s + [d])[|f|] == w[0];
    } else {
      assert s + [d] == (f + [d]) + w;
    }
  }

  /** The front of the queue goes out. */
  lemma AccountReleased(jumped: bool, f: seq<Datagram>, s: seq<Datagram>, out: seq<Datagram>, w: seq<Datagram>)
    requires Accounted(jumped, f, s, out + w)
    ensures Accounted(jumped, f + out, s, w)
  {
    if jumped { StillElse(f, s, f + out, s); } else { assert f + (out + w) == (f + out) + w; }
  }

  /** What a call adds to the history and the queue of its hop. */
  lemma SendWrites(r: Run, d: Datagram, hop: u32)
    requires KeysAt(r.net, hop)
    ensures var q, f, s, w := Next(r, SendDatagram(d, hop)), FramedFor(r.log, hop), SubmittedTo(r.log, hop), r.net.Waiting(hop);
            && SubmittedTo(q.log, hop) == (if r.net.SendThrows(d, hop) then s else s + [d])
            && FramedFor(q.log, hop) == (if hop in r.net.cache && Serializable(d) then f + [d] else f)
            && q.net.Waiting(hop) == (if hop in r.net.cache then w else w + [d])
            && (hop in q.jumped <==> hop in r.jumped || (hop in r.net.cache && Serializable(d) && w != []))
  {
    SendLog(r, d, hop);
  }

  lemma SendAccounted(r: Run, d: Datagram, hop: u32)
    requires KeysAt(r.net, hop) && ConservedAt(r, hop)
    ensures ConservedAt(Next(r, SendDatagram(d, hop)), hop)
  {
    SendWrites(r, d, hop);
    var f, s, w := FramedFor(r.log, hop), SubmittedTo(r.log, hop), r.net.Waiting(hop);
    if hop !in r.net.cache {
      AccountQueued(hop in r.jumped, f, s, w, d);
    } else if Serializable(d) {
      AccountFramed(hop in r.jumped, f, s, w, d);
    }
  }

  lemma SendTimed(r: Run, d: Datagram, hop: u32)
    requires KeysAt(r.net, hop) && TimedAt(r, hop)
    ensures KeysAt(r.net.Send(d, hop), hop) && TimedAt(Next(r, SendDatagram(d, hop)), hop)
  {
    SendLog(r, d, hop);
  }

  lemma SendHere(r: Run, d: Datagram, hop: u32)
    requires InvAt(r, hop)
    ensures InvAt(Next(r, SendDatagram(d, hop)), hop)
  {
    SendAccounted(r, d, hop);
    SendTimed(r, d, hop);
  }

  lemma HearLog(r: Run, m: ArpMessage)
    ensures Hear(r, m).log == Transcribe(Then(r.log, Learned(m.senderIp, m.senderEth, r.now)), m.senderIp,
                                         IpFrames(r.net.eth, m.senderEth, r.net.Released(m)), r.now)
  {
    var log := Then(r.log, Learned(m.senderIp, m.senderEth, r.now));
    var frames := IpFrames(r.net.eth, m.senderEth, r.net.Released(m));
    TranscribeTwo(log, m.senderIp, frames, r.net.Replies(m), r.now);
    RepliesSilent(r.net, m, Transcribe(log, m.senderIp, frames, r.now), r.now);
  }

  lemma HearLogElsewhere(r: Run, m: ArpMessage, ip: u32)
    requires ip != m.senderIp
    ensures SameLog(r.log, Hear(r, m).log, ip)
  {
    HearLog(r, m);
    var log := Then(r.log, Learned(m.senderIp, m.senderEth, r.now));
    FramesElsewhere(log, m.senderIp, r.net.eth, m.senderEth, r.net.Released(m), r.now, ip);
  }

  lemma HearElsewhere(r: Run, m: ArpMessage, ip: u32)
    requires InvAt(r, ip) && ip != m.senderIp
    ensures InvAt(Hear(r, m), ip)
  {
    HearLogElsewhere(r, m, ip);
    Unaffected(r, Hear(r, m), ip);
  }

  /** What is released and what is left make up what waited. */
  lemma Parts(net: Interface, m: ArpMessage)
    requires KeysAt(net, m.senderIp)
    ensures net.Released(m) + net.Learn(m).Waiting(m.senderIp) == net.Waiting(m.senderIp)
    ensures KeysAt(net.Learn(m), m.senderIp)
  {
    if m.senderIp !in net.timers { assert net.Released(m) == []; }
  }

  /** What the release adds to the history of the sender. */
  lemma HearWrites(r: Run, m: ArpMessage)
    requires Addressed(r.log, m.senderIp)
    ensures var ip, h := m.senderIp, Hear(r, m).log;
            && SubmittedTo(h, ip) == SubmittedTo(r.log, ip) && FramedFor(h, ip) == FramedFor(r.log, ip) + r.net.Released(m)
            && LastLearned(h, ip) == Some(Lesson(m.senderEth, r.now)) && LastAsked(h, ip) == LastAsked(r.log, ip)
            && Addressed(h, ip) && (Spaced(r.log, ip) ==> Spaced(h, ip))
  {
    HearLog(r, m);
    var ip := m.senderIp;
    var log := Then(r.log, Learned(ip, m.senderEth, r.now));
    FramesElsewhere(log, ip, r.net.eth, m.senderEth, r.net.Released(m), r.now, ip);
    FramesHere(log, ip, r.net.eth, m.senderEth, r.net.Released(m), r.now);
  }

  lemma HearTimed(r: Run, m: ArpMessage)
    requires KeysAt(r.net, m.senderIp) && TimedAt(r, m.senderIp)
    ensures TimedAt(Hear(r, m), m.senderIp)
  {
    HearWrites(r, m);
  }

  lemma HearAccounted(r: Run, m: ArpMessage)
    requires InvAt(r, m.senderIp)
    ensures ConservedAt(Hear(r, m), m.senderIp)
  {
    var ip := m.senderIp;
    HearWrites(r, m);
    Parts(r.net, m);
    AccountReleased(ip in r.jumped, FramedFor(r.log, ip), SubmittedTo(r.log, ip), r.net.Released(m), r.net.Learn(m).Waiting(ip));
  }

  lemma HearHere(r: Run, m: ArpMessage)
    requires InvAt(r, m.senderIp)
    ensures InvAt(Hear(r, m), m.senderIp)
  {
    HearTimed(r, m);
    HearAccounted(r, m);
    Parts(r.net, m);
  }

  lemma TickKeeps(r: Run, ms: nat, ip: u32)
    requires InvAt(r, ip)
    ensures InvAt(Next(r, Tick(ms)), ip)
  {
  }

  lemma StepKeeps(r: Run, e: Event, ip: u32)
    requires InvAt(r, ip) && (e.RecvFrame? ==> r.net.Handles(e.f))
    ensures InvAt(Next(r, e), ip)
  {
    match e
    case SendDatagram(d, hop) => if ip == hop { SendHere(r, d, hop); } else { SendElsewhere(r, d, hop, ip); }
    case RecvFrame(f) =>
      if r.net.Message(f).Some? {
        var m := r.net.Message(f).value;
        if ip == m.senderIp { HearHere(r, m); } else { HearElsewhere(r, m, ip); }
      }
    case Tick(ms) => TickKeeps(r, ms, ip);
    case TakeFrames =>
  }

  ghost predicate Inv(r: Run) {
    forall ip: u32 :: InvAt(r, ip)
  }

  /** The assertion that a timer has a queue holds for every frame that arrives. */
  lemma NeverAborts(r: Run, e: Event)
    requires Inv(r) && Proper(r.net, e)
    ensures e.RecvFrame? ==> r.net.Handles(e.f)
  {
    if e.RecvFrame? && r.net.Message(e.f).Some? {
      assert InvAt(r, r.net.Message(e.f).value.senderIp);
    }
  }

  /** `q` is reached from `r` by the events, all of them proper. */
  ghost predicate Reaches(r: Run, events: seq<Event>, q: Run)
    decreases |events|
  {
    if events == [] then r == q
    else
      && Proper(r.net, events[0])
      && (events[0].RecvFrame? ==> r.net.Handles(events[0].f))
      && Reaches(Next(r, events[0]), events[1..], q)
  }

  lemma {:induction false} ReachesInv(r: Run, events: seq<Event>, q: Run)
    requires Inv(r) && Reaches(r, events, q)
    ensures Inv(q)
    decreases |events|
  {
    if events != [] {
      forall ip: u32 ensures InvAt(Next(r, events[0]), ip) { StepKeeps(r, events[0], ip); }
      ReachesInv(Next(r, events[0]), events[1..], q);
    }
  }

  function InitialRun(eth: EthernetAddress, ip: u32): Run {
    Run(InitialInterface(eth, ip), 0, Start, {})
  }

  lemma RunInv(eth: EthernetAddress, ip: u32, events: seq<Event>, r: Run)
    requires Reaches(InitialRun(eth, ip), events, r)
    ensures Inv(r)
  {
    ReachesInv(InitialRun(eth, ip), events, r);
  }

  // ---- the results ----

  /** In every run nothing taken for a hop is lost or framed twice, and the order of the frames and then the queue is that of the
      calls exactly if no datagram was sent to a known hop for which others waited; every frame went to the address
      learned last, at most 30000 ms old; timers have queues and no cached address; and no frame makes the source abort. */
  lemma Conservation(eth: EthernetAddress, ip: u32, events: seq<Event>, r: Run, hop: u32, e: Event)
    requires Reaches(InitialRun(eth, ip), events, r)
    ensures multiset(SubmittedTo(r.log, hop)) == multiset(FramedFor(r.log, hop)) + multiset(r.net.Waiting(hop))
    ensures SubmittedTo(r.log, hop) == FramedFor(r.log, hop) + r.net.Waiting(hop) <==> hop !in r.jumped
    ensures Addressed(r.log, hop)
    ensures KeysAt(r.net, hop)
    ensures Proper(r.net, e) && e.RecvFrame? ==> r.net.Handles(e.f)
  {
    RunInv(eth, ip, events, r);
    assert InvAt(r, hop);
    if Proper(r.net, e) { NeverAborts(r, e); }
  }

  /** Every datagram that was sent can be serialized. */
  predicate WellFormed(events: seq<Event>) {
    forall k :: 0 <= k < |events| && events[k].SendDatagram? ==> Serializable(events[k].d)
  }

  predicate AllSerializable(ds: seq<Datagram>) {
    forall d :: d in ds ==> Serializable(d)
  }

  predicate Smooth(r: Run) {
    r.jumped == {} && forall hop :: hop in r.net.waiting ==> hop in r.net.timers && AllSerializable(r.net.waiting[hop])
  }

  lemma {:induction false} AllSent(ds: seq<Datagram>)
    requires AllSerializable(ds)
    ensures Sendable(ds) == ds && Unsent(ds) == []
  {
    if ds != [] { AllSent(ds[1..]); }
  }

  lemma SmoothStep(r: Run, e: Event)
    requires Inv(r) && Smooth(r) && (e.RecvFrame? ==> r.net.Handles(e.f)) && (e.SendDatagram? ==> Serializable(e.d))
    ensures Smooth(Next(r, e)) && !Throws(r.net, e)
  {
    if e.RecvFrame? && r.net.Message(e.f).Some? {
      AllSent(r.net.Due(r.net.Message(e.f).value));
    } else if e.SendDatagram? {
      assert InvAt(r, e.hop);
    }
  }

  /** The call ends in the exception of `serialize`. */
  predicate Throws(net: Interface, e: Event) {
    (e.SendDatagram? && net.SendThrows(e.d, e.hop)) || (e.RecvFrame? && net.ReceiveThrows(e.f))
  }

  lemma {:induction false} SmoothRun(r: Run, events: seq<Event>, q: Run)
    requires Inv(r) && Smooth(r) && Reaches(r, events, q) && WellFormed(events)
    ensures Smooth(q)
    decreases |events|
  {
    if events != [] {
      SmoothStep(r, events[0]);
      forall ip: u32 ensures InvAt(Next(r, events[0]), ip) { StepKeeps(r, events[0], ip); }
      SmoothRun(Next(r, events[0]), events[1..], q);
    }
  }

  /** As long as only datagrams are sent that can be serialized, no call throws, and the order is kept at every hop. */
  lemma WellFormedOrder(eth: EthernetAddress, ip: u32, events: seq<Event>, r: Run, hop: u32, e: Event)
    requires Reaches(InitialRun(eth, ip), events, r) && WellFormed(events)
    ensures SubmittedTo(r.log, hop) == FramedFor(r.log, hop) + r.net.Waiting(hop)
    ensures (e.SendDatagram? ==> Serializable(e.d)) && (e.RecvFrame? ==> r.net.Handles(e.f)) ==> !Throws(r.net, e)
  {
    RunInv(eth, ip, events, r);
    assert InvAt(r, hop);
    assert Inv(InitialRun(eth, ip));
    SmoothRun(InitialRun(eth, ip), events, r);
    if (e.SendDatagram? ==> Serializable(e.d)) && (e.RecvFrame? ==> r.net.Handles(e.f)) { SmoothStep(r, e); }
  }

  lemma BlockedStep(r: Run, e: Event, hop: u32)
    requires (e.RecvFrame? ==> r.net.Handles(e.f)) && hop in r.net.waiting && r.net.waiting[hop] != [] && !Serializable(r.net.waiting[hop][0])
    ensures hop in Next(r, e).net.waiting && r.net.waiting[hop] <= Next(r, e).net.waiting[hop]
  {
    if e.RecvFrame? && r.net.Message(e.f).Some? {
      var m := r.net.Message(e.f).value;
      assert m.senderIp == hop ==> r.net.Due(m) == [] || Unsent(r.net.Due(m)) == r.net.Due(m);
    }
  }

  /** A datagram at the front of its queue that cannot be serialized blocks the queue for good: whatever happens, nothing in it
      is ever framed. */
  lemma {:induction false} BlockedForever(r: Run, events: seq<Event>, q: Run, hop: u32)
    requires Reaches(r, events, q) && hop in r.net.waiting && r.net.waiting[hop] != [] && !Serializable(r.net.waiting[hop][0])
    ensures hop in q.net.waiting && r.net.waiting[hop] <= q.net.waiting[hop]
    decreases |events|
  {
    if events != [] {
      BlockedStep(r, events[0], hop);
      BlockedForever(Next(r, events[0]), events[1..], q, hop);
    }
  }

  /** A run that breaks the order: a datagram that cannot be serialized waits for a hop, the hop answers, and the next datagram
      overtakes it. */
  lemma OrderBroken(eth: EthernetAddress, ip: u32, hop: u32, addr: EthernetAddress, bad: Datagram, good: Datagram)
    returns (events: seq<Event>, r: Run)
    requires !Serializable(bad) && Serializable(good)
    ensures Reaches(InitialRun(eth, ip), events, r) && hop in r.jumped
    ensures SubmittedTo(r.log, hop) != FramedFor(r.log, hop) + r.net.Waiting(hop)
  {
    var answer := RecvFrame(Frame(eth, addr, Arp(Some(ArpMessage(Reply, addr, hop, eth, ip)))));
    var r1 := Next(InitialRun(eth, ip), SendDatagram(bad, hop));
    assert r1.net.waiting[hop] == [bad] && hop in r1.net.timers && Unsent([bad]) == [bad];
    var r2 := Next(r1, answer);
    assert r2.net.waiting[hop] == [bad] && hop in r2.net.cache;
    r := Next(r2, SendDatagram(good, hop));
    events := [SendDatagram(bad, hop), answer, SendDatagram(good, hop)];
    assert Reaches(r, [], r) && Reaches(r2, [SendDatagram(good, hop)], r) && Reaches(r1, [answer, SendDatagram(good, hop)], r);
    Conservation(eth, ip, events, r, hop, TakeFrames);
  }

  /** In every run a hop is known exactly for 30000 ms after its address was learned last; a datagram for a known
      hop is framed at once or, if it cannot be serialized, refused; one for an unknown hop is queued, with a request exactly
      if none for this hop was broadcast in the last 5000 ms. */
  lemma SendsExactly(eth: EthernetAddress, ip: u32, events: seq<Event>, r: Run, d: Datagram, hop: u32)
    requires Reaches(InitialRun(eth, ip), events, r)
    ensures var l, t := LastLearned(r.log, hop), LastAsked(r.log, hop);
            var log := Then(r.log, Submitted(hop, d));
            Next(r, SendDatagram(d, hop)).log ==
              if l.Some? && r.now <= l.value.at + ADDRESS_LIFETIME
              then (if Serializable(d) then Then(log, Framed(hop, d, l.value.addr, r.now)) else Then(r.log, Refused(hop, d)))
              else if t.Some? && r.now <= t.value + REQUEST_INTERVAL then log
              else Then(log, Asked(hop, r.now))
  {
    RunInv(eth, ip, events, r);
    assert InvAt(r, hop);
    SendLog(r, d, hop);
  }

  predicate PrefixOf(a: History, b: History) {
    a == b || (b.Then? && PrefixOf(a, b.before))
  }

  lemma {:induction false} SpacedBefore(a: History, b: History, ip: u32)
    requires PrefixOf(a, b) && Spaced(b, ip)
    ensures Spaced(a, ip)
  {
    if a != b { SpacedBefore(a, b.before, ip); }
  }

  /** The last request is no earlier than any other. */
  lemma {:induction false} LastIsLatest(a: History, t: nat, b: History, ip: u32)
    requires PrefixOf(Then(a, Asked(ip, t)), b) && Spaced(b, ip)
    ensures LastAsked(b, ip).Some? && LastAsked(b, ip).value >= t
  {
    if Then(a, Asked(ip, t)) != b { LastIsLatest(a, t, b.before, ip); }
  }

  /** In every run, any two broadcast requests for the same address are more than 5000 ms apart,
      whatever was learned or expired in between. */
  lemma RateLimit(eth: EthernetAddress, ip: u32, events: seq<Event>, r: Run,
                  target: u32, a: History, t: nat, b: History, u: nat)
    requires Reaches(InitialRun(eth, ip), events, r)
    requires PrefixOf(Then(a, Asked(target, t)), b) && PrefixOf(Then(b, Asked(target, u)), r.log)
    ensures u > t + REQUEST_INTERVAL
  {
    RunInv(eth, ip, events, r);
    assert InvAt(r, target);
    SpacedBefore(Then(b, Asked(target, u)), r.log, target);
    LastIsLatest(a, t, b, target);
  }

  // ---- two interfaces ----

  lemma {:induction false} LastOf(src: EthernetAddress, dst: EthernetAddress, ds: seq<Datagram>, d: Datagram)
    ensures IpFrames(src, dst, ds + [d]) == IpFrames(src, dst, ds) + [IpFrame(src, dst, d)]
    decreases |ds|
  {
    if ds == [] {
      assert ds + [d] == [d] && [d][1..] == [];
    } else {
      LastOf(src, dst, ds[1..], d);
      assert (ds + [d])[1..] == ds[1..] + [d];
    }
  }

  lemma KeysDue(net: Interface, m: ArpMessage)
    requires KeysAt(net, m.senderIp) && AllSerializable(net.Waiting(m.senderIp))
    ensures net.Due(m) == net.Waiting(m.senderIp) && net.Released(m) == net.Waiting(m.senderIp) && !net.LearnThrows(m)
  {
    AllSent(net.Due(m));
  }

  /** The message of `a` makes `b` learn its address, frame what waited for it and, if it asks for `b`, reply last. */
  lemma Hearing(b: Interface, m: ArpMessage)
    requires KeysAt(b, m.senderIp) && AllSerializable(b.Waiting(m.senderIp))
    ensures var b1 := b.Learn(m);
            && b1.cache[m.senderIp] == Remembered(m.senderEth, 0) && m.senderIp !in b1.waiting
            && b1.out == b.out + IpFrames(b.eth, m.senderEth, b.Waiting(m.senderIp)) + b.Replies(m)
  {
    KeysDue(b, m);
    var frames := IpFrames(b.eth, m.senderEth, b.Waiting(m.senderIp));
    assert b.out + (frames + b.Replies(m)) == (b.out + frames) + b.Replies(m);
  }

  /** Resolution works: the request `a` broadcasts for `b` makes `b` learn `a` and put out one reply to `a`, last; and the reply
      makes `a` learn `b` and frame for it what waited and then the new datagram, as long as what waits can be serialized. */
  lemma Resolution(a: Interface, b: Interface, d: Datagram)
    requires b.ip !in a.cache && !a.Recent(b.ip) && KeysAt(a, b.ip) && KeysAt(b, a.ip)
    ensures var request, reply := a.RequestFrame(b.ip), Frame(a.eth, b.eth, Arp(Some(ArpMessage(Reply, b.eth, b.ip, a.eth, a.ip))));
            var a1 := a.Send(d, b.ip);
            && a1.out == a.out + [request] && b.Handles(request) && a1.Handles(reply)
            && var b1, a2 := b.Receive(request), a1.Receive(reply);
            && b1.cache[a.ip] == Remembered(a.eth, 0) && a2.cache[b.ip] == Remembered(b.eth, 0)
            && (AllSerializable(b.Waiting(a.ip)) ==>
                  b1.out == b.out + IpFrames(b.eth, a.eth, b.Waiting(a.ip)) + [reply])
            && (AllSerializable(a.Waiting(b.ip) + [d]) ==>
                  && b.ip !in a2.waiting
                  && a2.out == a1.out + IpFrames(a.eth, b.eth, a.Waiting(b.ip)) + [IpFrame(a.eth, b.eth, d)])
  {
    if AllSerializable(b.Waiting(a.ip)) { Hearing(b, ArpMessage(Request, a.eth, a.ip, 0, b.ip)); }
    if AllSerializable(a.Waiting(b.ip) + [d]) { Answer(a, b, d); }
  }

  lemma Answer(a: Interface, b: Interface, d: Datagram)
    requires b.ip !in a.cache && KeysAt(a, b.ip) && AllSerializable(a.Waiting(b.ip) + [d])
    ensures var a1, m := a.Send(d, b.ip), ArpMessage(Reply, b.eth, b.ip, a.eth, a.ip);
            && b.ip !in a1.Learn(m).waiting
            && a1.Learn(m).out == a1.out + IpFrames(a.eth, b.eth, a.Waiting(b.ip)) + [IpFrame(a.eth, b.eth, d)]
  {
    var a1, frames := a.Send(d, b.ip), IpFrames(a.eth, b.eth, a.Waiting(b.ip));
    Hearing(a1, ArpMessage(Reply, b.eth, b.ip, a.eth, a.ip));
    LastOf(a.eth, b.eth, a.Waiting(b.ip), d);
    assert a1.out + (frames + [IpFrame(a.eth, b.eth, d)]) + [] == a1.out + frames + [IpFrame(a.eth, b.eth, d)];
  }
}
