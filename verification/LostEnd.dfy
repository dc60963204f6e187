/** The end of a stream and bytes beyond it: which pushes the source aborts on, and which lose the end. */
module LostEnd {
  import opened ByteStreams
  import opened Reassembly
  import opened StreamReassemblers
  import opened Connecting
  import opened ConnectionInvariants
  import opened ConnectionRuns
  import opened TcpStates
  import ReassemblerRuns

  // ---- the drain loop, slice by slice ----

  datatype Outcome = Aborted | Done(state: State)

  /** The loop of `reassemble`: it aborts when it comes to write after the end. */
  ghost function DrainLoop(now: State, ss: seq<Slice>): Outcome
    requires now.out.Valid()
    decreases |ss|
  {
    if ss == [] || ss[0].index != now.Next() then Done(now)
    else if now.out.ended then Aborted
    else DrainLoop(now.TakeOut(ss[0].data), ss[1..])
  }

  /** The slices are the stored bytes of `now`, which fit the output. */
  ghost predicate Stored(now: State, ss: seq<Slice>) {
    && now.out.Valid() && Represents(ss, now.pending) && now.starts == Starts(ss, now.pending)
    && Count(now.pending) <= now.out.Room() && (forall i :: i in now.pending ==> i >= now.Next())
  }

  lemma TakeFirst(now: State, ss: seq<Slice>)
    requires Stored(now, ss) && ss != [] && ss[0].index == now.Next() && !now.out.ended
    ensures |ss[0].data| <= now.out.Room() && Stored(now.TakeOut(ss[0].data), ss[1..])
  {
    FirstSize(ss, now.pending);
    FirstStart(ss, now.pending);
    TakeOutIs(now, ss[0].data);
  }

  lemma {:induction false} LoopCompletes(start: State, now: State, ss: seq<Slice>)
    requires PartlyDrained(start, now) && Stored(now, ss)
    requires forall i :: i in start.pending ==> i >= start.Next()
    requires forall i :: i in start.starts ==> i in start.pending
    ensures DrainLoop(now, ss) == Done(start.Drain())
    decreases |ss|
  {
    if ss == [] || ss[0].index != now.Next() {
      DrainDone(start, now, ss);
    } else {
      DrainStep(start, now, ss);
      TakeFirst(now, ss);
      LoopCompletes(start, now.TakeOut(ss[0].data), ss[1..]);
    }
  }

  /** There are bytes to write after the end. */
  ghost predicate Blocked(now: State) {
    && !now.Flows() && (now.eof && now.Next() == now.eofIndex ==> now.out.ended)
  }

  lemma FirstAtNext(now: State, ss: seq<Slice>)
    requires Stored(now, ss) && Run(now.pending, now.Next()) != []
    ensures ss != [] && ss[0].index == now.Next()
  {
    assert now.Next() in now.pending;
    assert ss[0].Agrees(now.pending) && ss[0].index in now.pending;
  }

  /** What lies behind the first slice of the run still blocks. */
  lemma BlockedOn(now: State, ss: seq<Slice>)
    requires Stored(now, ss) && Blocked(now) && !now.out.ended && ss != [] && ss[0].index == now.Next()
    requires |ss[0].data| <= now.out.Room()
    ensures Blocked(now.TakeOut(ss[0].data))
  {
    var d, e := ss[0].data, ss[0].End();
    RunTakes(now.pending, ss);
    TakeOutIs(now, d);
    StrictlyInside(ss, now.pending, now.eofIndex);
    assert now.eofIndex >= e;
    assert now.eofIndex in From(now.pending, e);
  }

  lemma {:induction false} LoopAborts(now: State, ss: seq<Slice>)
    requires Stored(now, ss) && Blocked(now)
    ensures DrainLoop(now, ss) == Aborted
    decreases |ss|
  {
    FirstAtNext(now, ss);
    if !now.out.ended {
      TakeFirst(now, ss);
      BlockedOn(now, ss);
      LoopAborts(now.TakeOut(ss[0].data), ss[1..]);
    }
  }

  /** The loop aborts exactly if the stream has ended before a byte to write, or a slice of the run begins at the
      known end; otherwise it moves the longest run. */
  lemma DrainLoopExactly(start: State, ss: seq<Slice>)
    requires Stored(start, ss)
    ensures DrainLoop(start.CheckEof(), ss) == if start.CanDrain() then Done(start.Drain()) else Aborted
  {
    RunSize(start.pending, start.Next());
    if start.CanDrain() {
      DrainStart(start);
      LoopCompletes(start, start.CheckEof(), ss);
    } else {
      LoopAborts(start.CheckEof(), ss);
    }
  }

  /** What a push does, with the slices `ss` that the insertion leaves. */
  ghost function PushOutcome(r: State, data: seq<byte>, index: nat, last: bool, ss: seq<Slice>): Outcome
    requires r.Valid()
  {
    if last && r.eof && r.eofIndex != index + |data| then Aborted
    else
      var n := if last then r.NoteEof(index + |data|) else r;
      if data == [] || index + |data| <= r.Next() then Done(n)
      else DrainLoop(n.Insert(data, index).CheckEof(), ss)
  }

  /** A push aborts exactly if it is not admitted, and otherwise is the push of the map. */
  lemma PushExactly(r: State, data: seq<byte>, index: nat, last: bool, ss: seq<Slice>)
    requires r.Valid() && Stored((if last then r.NoteEof(index + |data|) else r).Insert(data, index), ss)
    ensures PushOutcome(r, data, index, last, ss) == if r.Admits(data, index, last) then Done(r.Push(data, index, last)) else Aborted
  {
    var n := if last then r.NoteEof(index + |data|) else r;
    InsertFits(n, data, index);
    DrainLoopExactly(n.Insert(data, index), ss);
  }

  // ---- losing the end ----

  /** A push that brings something new loses the end exactly if it was lost before or the run passes it. */
  lemma RunPassesEnd(r: State, data: seq<byte>, index: nat, last: bool)
    requires r.Valid() && r.Admits(data, index, last) && data != [] && index + |data| > r.Next()
    ensures var n := if last then r.NoteEof(index + |data|) else r;
            r.Push(data, index, last).Lost() <==>
              n.Lost() || (n.eof && r.Next() < n.eofIndex < RunEnd(n.Insert(data, index).pending, r.Next()))
  {
    var n := if last then r.NoteEof(index + |data|) else r;
    PushDrains(r, data, index, last, n);
    InsertFits(n, data, index);
    DrainKeepsValid(n.Insert(data, index));
  }

  /** Every index from the next one to `e` is stored or pushed. */
  ghost predicate Covered(r: State, data: seq<byte>, index: nat, e: nat) {
    forall i :: r.Next() <= i <= e ==> i in r.pending || index <= i < index + |data|
  }

  lemma KeptInRoom(m: Sparse, next: nat, k: nat, i: nat)
    requires (forall j :: j in m ==> j >= next) && i in m && i < next + k
    ensures i in Lowest(m, k)
  {
    SubsetSize(Below(Indices(m), i), Interval(next, i));
  }

  /** The run reaches past `e` exactly if everything up to `e` is there and fits. */
  lemma RunCovers(n: State, data: seq<byte>, index: nat, e: nat)
    requires n.out.Valid() && (forall i :: i in n.pending ==> i > n.Next()) && n.Next() <= e
    ensures e < RunEnd(n.Insert(data, index).pending, n.Next()) <==> e < n.Next() + n.out.Room() && Covered(n, data, index, e)
  {
    var next, all := n.Next(), Cut(data, index, n.Next()) + n.pending;
    var kept := n.Insert(data, index).pending;
    InsertFits(n, data, index);
    if e < RunEnd(kept, next) {
      forall i | next <= i <= e ensures i in n.pending || index <= i < index + |data| { assert i in kept && i in all; }
    } else if e < next + n.out.Room() && Covered(n, data, index, e) {
      forall i | next <= i <= e ensures i in kept { KeptInRoom(all, next, n.out.Room(), i); }
    }
  }

  /** A push loses the end exactly if the end was lost before, if it names an end that lies behind, or if with it every byte
      up to the end and the one beyond is there and fits: then one slice holds both. */
  lemma EndLostExactly(r: State, data: seq<byte>, index: nat, last: bool)
    requires r.Valid() && r.Admits(data, index, last)
    ensures var n := if last then r.NoteEof(index + |data|) else r;
            r.Push(data, index, last).Lost() <==>
              || r.Lost() || (last && !r.eof && index + |data| < r.Next())
              || (&& data != [] && index + |data| > r.Next() && n.eof
                  && r.Next() < n.eofIndex < r.Next() + r.out.Room() && Covered(r, data, index, n.eofIndex))
  {
    var n := if last then r.NoteEof(index + |data|) else r;
    if data != [] && index + |data| > r.Next() {
      RunPassesEnd(r, data, index, last);
      if n.eof && r.Next() <= n.eofIndex { RunCovers(n, data, index, n.eofIndex); }
    }
  }

  lemma TwoBytesRun(a: byte, b: byte)
    ensures Run(map[0 := a, 1 := b], 0) == [a, b]
  {
    var m: Sparse := map[0 := a, 1 := b];
    RunContinues(m, 0, [a, b]);
    assert 2 !in m && RunEnd(m, 2) == 2;
  }

  lemma TwoBytesPass(known: State, a: byte, b: byte)
    requires known.Valid() && known.out.written == [] && known.out.Room() >= 2
    requires known.pending == map[] && known.starts == {} && known.eof && known.eofIndex == 1
    ensures known.Admits([a, b], 0, false)
    ensures var r := known.Push([a, b], 0, false); r.out.written == [a, b] && r.Lost() && !r.out.ended
  {
    TwoBytesStored(known, a, b);
    TwoBytesRun(a, b);
    var m := known.Insert([a, b], 0);
    assert m.Flows();
    PushDrains(known, [a, b], 0, false, known);
    InsertFits(known, [a, b], 0);
    DrainKeepsValid(m);
    assert [] + [a, b] == [a, b];
  }

  /** One input that does it: the end is known at index 1, then two bytes arrive in one slice. */
  lemma TwoBytesLoseTheEnd(capacity: nat, a: byte, b: byte)
    requires capacity >= 2
    ensures var empty := ReassemblerRuns.Fresh(capacity);
            && empty.Valid() && empty.Admits([], 1, true)
            && var known := empty.Push([], 1, true);
               && known.Admits([a, b], 0, false)
               && var r := known.Push([a, b], 0, false);
                  r.out.written == [a, b] && r.Lost() && !r.out.ended
  {
    var empty := ReassemblerRuns.Fresh(capacity);
    CountZero(empty.pending);
    TwoBytesPass(empty.Push([], 1, true), a, b);
  }

  /** The two bytes are one slice. */
  lemma TwoBytesStored(known: State, a: byte, b: byte)
    requires known.out.Valid() && known.out.written == [] && known.out.Room() >= 2
    requires known.pending == map[] && known.starts == {}
    ensures known.Insert([a, b], 0).pending == map[0 := a, 1 := b] && known.Insert([a, b], 0).starts == {0}
  {
    var all := Cut([a, b], 0, 0) + known.pending;
    assert all == map[0 := a, 1 := b];
    assert Indices(all) == {0, 1};
    LowestSize(all, known.out.Room());
  }

  // ---- a connection whose peer overran its own FIN ----

  /** Once the end is lost, no event brings it back: the inbound stream never ends, and the connection can only end in
      an error. */
  lemma {:induction false} LostForever(c: Connection, events: seq<Event>, d: Connection)
    requires ConnectionInv(c) && c.receiver.reas.Lost() && Reaches(c, events, d)
    ensures d.receiver.reas.Lost() && !d.Inbound().ended && (!d.active ==> Error(d))
    decreases |events|
  {
    if events == [] {
      assert !d.active && !Error(d) ==> d.Inbound().ended;
    } else {
      EventAdvances(c, events[0]);
      NextKeeps(c, events[0]);
      LostForever(Next(c, events[0]), events[1..], d);
    }
  }
}
