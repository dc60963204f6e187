/** Runs of the reassembler on excerpts of one byte stream. */
module ReassemblerRuns {
  import opened ByteStreams
  import opened Reassembly

  /** `data` at `index` is cut from the stream `s`; `last` says it reaches the end of `s`. */
  predicate Excerpt(data: seq<byte>, index: nat, last: bool, s: seq<byte>) {
    && index + |data| <= |s|
    && s[index..index + |data|] == data
    && (last ==> index + |data| == |s|)
  }

  /** Everything held comes from `s`, and the end is known only as the end of `s`. */
  ghost predicate InStream(r: State, s: seq<byte>) {
    && r.Valid()
    && r.out.written <= s
    && (forall i :: i in r.pending ==> i < |s| && r.pending[i] == s[i])
    && (r.eof ==> r.eofIndex == |s|)
    && (r.out.ended ==> r.eof && r.Next() == |s|)
  }

  /** The bytes pushed, whatever was cut away or evicted, agree with the stream. */
  lemma InsertInStream(r: State, data: seq<byte>, index: nat, s: seq<byte>)
    requires r.out.Valid()
    requires forall i :: i in r.pending ==> i < |s| && r.pending[i] == s[i]
    requires index + |data| <= |s| && s[index..index + |data|] == data
    ensures forall i :: i in r.Insert(data, index).pending ==> i < |s| && r.Insert(data, index).pending[i] == s[i]
  {
    var c := Cut(data, index, r.Next());
    forall i | i in c ensures i < |s| && c[i] == s[i] {
      assert data[i - index] == s[index..index + |data|][i - index];
    }
  }

  lemma RunInStream(m: Sparse, next: nat, s: seq<byte>)
    requires next <= |s|
    requires forall i :: i in m ==> i < |s| && m[i] == s[i]
    ensures s[..next] + Run(m, next) <= s
  {
    var e := RunEnd(m, next);
    assert e > next ==> e - 1 in m;
    assert s[..next] + Run(m, next) == s[..e];
  }

  lemma NoteEofInStream(r: State, end: nat, s: seq<byte>)
    requires InStream(r, s) && end == |s|
    ensures InStream(r.NoteEof(end), s) && r.NoteEof(end).pending == r.pending
    ensures r.NoteEof(end).out.written == r.out.written && r.NoteEof(end).eof
  {
  }

  /** A push of an excerpt never trips an assertion of the source. */
  lemma ExcerptAdmitted(r: State, data: seq<byte>, index: nat, last: bool, s: seq<byte>)
    requires InStream(r, s) && Excerpt(data, index, last, s)
    ensures r.Admits(data, index, last)
  {
    var n := if last then r.NoteEof(index + |data|) else r;
    if last { NoteEofInStream(r, index + |data|, s); }
    InsertInStream(n, data, index, s);
    RunInStream(n.Insert(data, index).pending, r.Next(), s);
  }

  /** A push of an excerpt keeps everything within the stream. */
  lemma PushInStream(r: State, data: seq<byte>, index: nat, last: bool, s: seq<byte>)
    requires InStream(r, s) && Excerpt(data, index, last, s)
    ensures r.Admits(data, index, last)
    ensures InStream(r.Push(data, index, last), s)
    ensures r.out.written <= r.Push(data, index, last).out.written
    ensures r.Push(data, index, last).eof == (r.eof || last)
  {
    ExcerptAdmitted(r, data, index, last, s);
    var n := if last then r.NoteEof(index + |data|) else r;
    if last { NoteEofInStream(r, index + |data|, s); }
    if data != [] && index + |data| > r.Next() {
      InsertFits(n, data, index);
      InsertInStream(n, data, index, s);
      DrainInStream(n.Insert(data, index), s);
    }
  }

  lemma DrainInStream(r: State, s: seq<byte>)
    requires r.CanDrain() && Count(r.pending) <= r.out.Room()
    requires forall i :: i in r.pending ==> r.Next() <= i < |s| && r.pending[i] == s[i]
    requires r.out.written <= s
    requires r.eof ==> r.eofIndex == |s|
    requires r.out.ended ==> r.eof && r.Next() == |s|
    ensures InStream(r.Drain(), s)
    ensures r.out.written <= r.Drain().out.written && r.Drain().eof == r.eof
  {
    DrainKeepsValid(r);
    RunInStream(r.pending, r.Next(), s);
    assert s[..r.Next()] == r.out.written;
  }

  /** If the push holds the next byte and there is room, the output advances. */
  lemma PushAdvances(r: State, data: seq<byte>, index: nat, last: bool)
    requires r.Valid() && r.Admits(data, index, last)
    requires index <= r.Next() < index + |data| && r.out.Room() > 0
    ensures r.Push(data, index, last).Next() > r.Next()
  {
    var n := if last then r.NoteEof(index + |data|) else r;
    var all := Cut(data, index, r.Next()) + r.pending;
    assert Below(Indices(all), r.Next()) == {};
    assert r.Next() in n.Insert(data, index).pending;
    InsertFits(n, data, index);
    DrainKeepsValid(n.Insert(data, index));
  }

  // ---- confluence ----

  datatype Op = Push(data: seq<byte>, index: nat, last: bool) | Pop(len: nat)

  predicate Allowed(op: Op, s: seq<byte>) {
    op.Push? ==> Excerpt(op.data, op.index, op.last, s)
  }

  /** One step; reading more than is buffered is refused and changes nothing. */
  ghost function Step(r: State, op: Op, s: seq<byte>): State
    requires InStream(r, s) && Allowed(op, s)
  {
    match op
    case Push(data, index, last) =>
      ExcerptAdmitted(r, data, index, last, s);
      r.Push(data, index, last)
    case Pop(len) =>
      if len <= r.out.Buffered() then r.(out := r.out.Pop(len)) else r
  }

  lemma StepInStream(r: State, op: Op, s: seq<byte>)
    requires InStream(r, s) && Allowed(op, s)
    ensures InStream(Step(r, op, s), s)
  {
    if op.Push? {
      PushInStream(r, op.data, op.index, op.last, s);
    }
  }

  ghost function Steps(r: State, ops: seq<Op>, s: seq<byte>): (r': State)
    requires InStream(r, s) && forall op :: op in ops ==> Allowed(op, s)
    ensures InStream(r', s)
    decreases |ops|
  {
    if ops == [] then r else
      StepInStream(r, ops[0], s);
      Steps(Step(r, ops[0], s), ops[1..], s)
  }

  predicate Covers(op: Op, i: nat) {
    op.Push? && op.index <= i < op.index + |op.data|
  }

  /** Index `i` has arrived: it is assembled or pending. */
  predicate Has(r: State, i: nat) {
    i < r.Next() || i in r.pending
  }

  /** With room for the whole stream a push loses nothing. */
  lemma NothingEvicted(r: State, data: seq<byte>, index: nat, s: seq<byte>)
    requires r.out.Valid() && |s| <= r.out.capacity && r.Next() <= |s|
    requires forall i :: i in r.pending ==> r.Next() <= i < |s|
    requires index + |data| <= |s|
    ensures r.Insert(data, index).pending == Cut(data, index, r.Next()) + r.pending
  {
    var all := Cut(data, index, r.Next()) + r.pending;
    SubsetSize(Indices(all), Interval(r.Next(), |s|));
    LowestSize(all, r.out.Room());
  }

  /** After a push an index has arrived exactly if it had before or the push brought it. */
  lemma PushHas(r: State, data: seq<byte>, index: nat, s: seq<byte>, i: nat)
    requires InStream(r, s) && |s| <= r.out.capacity && Excerpt(data, index, false, s)
    requires data != [] && index + |data| > r.Next() && r.Insert(data, index).CanDrain()
    ensures var r' := r.Insert(data, index).Drain();
            && (Has(r', i) <==> Has(r, i) || index <= i < index + |data|)
            && r'.eof == r.eof && r'.out.capacity == r.out.capacity
  {
    NothingEvicted(r, data, index, s);
    var m := r.Insert(data, index);
    InsertFits(r, data, index);
    DrainKeepsValid(m);
    assert i in m.pending <==> i in r.pending || (r.Next() <= i && index <= i < index + |data|);
    var e := RunEnd(m.pending, m.Next());
    assert i in From(m.pending, e) <==> i in m.pending && i >= e;
  }

  lemma PushHasAll(r: State, n: State, data: seq<byte>, index: nat, last: bool, s: seq<byte>, i: nat)
    requires InStream(r, s) && Excerpt(data, index, last, s) && |s| <= r.out.capacity
    requires r.Admits(data, index, last)
    requires n == if last then r.NoteEof(index + |data|) else r
    requires InStream(n, s) && n.eof == (r.eof || last)
    ensures Has(r.Push(data, index, last), i) <==> Has(r, i) || index <= i < index + |data|
    ensures r.Push(data, index, last).eof == (r.eof || last)
    ensures r.Push(data, index, last).out.capacity == r.out.capacity
  {
    if data != [] && index + |data| > r.Next() {
      PushDrains(r, data, index, last, n);
      PushHas(n, data, index, s, i);
    }
  }

  lemma StepHas(r: State, op: Op, s: seq<byte>, i: nat)
    requires InStream(r, s) && Allowed(op, s) && |s| <= r.out.capacity
    ensures Has(Step(r, op, s), i) <==> Has(r, i) || Covers(op, i)
    ensures Step(r, op, s).eof == (r.eof || (op.Push? && op.last))
    ensures Step(r, op, s).out.capacity == r.out.capacity
  {
    if op.Push? {
      var Push(data, index, last) := op;
      ExcerptAdmitted(r, data, index, last, s);
      if last {
        NoteEofInStream(r, index + |data|, s);
        PushHasAll(r, r.NoteEof(index + |data|), data, index, last, s, i);
      } else {
        PushHasAll(r, r, data, index, last, s, i);
      }
    }
  }

  ghost predicate SomeCovers(ops: seq<Op>, i: nat) {
    exists k :: 0 <= k < |ops| && Covers(ops[k], i)
  }

  ghost predicate SomeLast(ops: seq<Op>) {
    exists k :: 0 <= k < |ops| && ops[k].Push? && ops[k].last
  }

  lemma SomeFirst(ops: seq<Op>, i: nat)
    requires ops != []
    ensures SomeCovers(ops, i) <==> Covers(ops[0], i) || SomeCovers(ops[1..], i)
    ensures SomeLast(ops) <==> (ops[0].Push? && ops[0].last) || SomeLast(ops[1..])
  {
    assert forall k :: 0 <= k < |ops[1..]| ==> ops[1..][k] == ops[k + 1];
    if SomeCovers(ops, i) && !Covers(ops[0], i) {
      var k :| 0 <= k < |ops| && Covers(ops[k], i);
      assert ops[1..][k - 1] == ops[k];
    }
    if SomeLast(ops) && !(ops[0].Push? && ops[0].last) {
      var k :| 0 <= k < |ops| && ops[k].Push? && ops[k].last;
      assert ops[1..][k - 1] == ops[k];
    }
  }

  /** After a run an index has arrived exactly if it had before or some push brought it. */
  lemma {:induction false} StepsHave(r: State, ops: seq<Op>, s: seq<byte>, i: nat)
    requires InStream(r, s) && |s| <= r.out.capacity && forall op :: op in ops ==> Allowed(op, s)
    ensures Has(Steps(r, ops, s), i) <==> Has(r, i) || SomeCovers(ops, i)
    ensures Steps(r, ops, s).eof <==> r.eof || SomeLast(ops)
    decreases |ops|
  {
    if ops != [] {
      StepInStream(r, ops[0], s);
      StepHas(r, ops[0], s, i);
      StepsHave(Step(r, ops[0], s), ops[1..], s, i);
      SomeFirst(ops, i);
    }
  }

  /** Confluence: whatever the order, the overlaps and the reads in between, excerpts that cover the
      stream, one of them marked as its end, assemble to exactly the stream. */
  lemma Confluence(capacity: nat, ops: seq<Op>, s: seq<byte>)
    requires 0 < capacity && |s| <= capacity
    requires forall op :: op in ops ==> Allowed(op, s)
    requires forall i: nat :: i < |s| ==> SomeCovers(ops, i)
    requires SomeLast(ops)
    ensures var r := Steps(Fresh(capacity), ops, s);
            r.out.written == s && r.out.ended && r.pending == map[]
  {
    var r := Steps(Fresh(capacity), ops, s);
    StepsHave(Fresh(capacity), ops, s, r.Next());
    assert r.Next() == |s|;
    assert forall i :: i in r.pending ==> i < |s|;
  }

  ghost function Fresh(capacity: nat): State {
    State(Stream(capacity, [], 0, false, false), map[], {}, false, 0)
  }
}
