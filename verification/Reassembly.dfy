/** What the stream reassembler means: bytes at their stream indices, with no trace of how they were
    cut into slices. */
module Reassembly {
  import opened ByteStreams

  /** Bytes placed at stream indices. */
  type Sparse = map<nat, byte>

  /** The indices that hold a byte, and how many there are. */
  function Indices(m: Sparse): set<nat> {
    set i | i in m
  }

  function Count(m: Sparse): nat {
    |Indices(m)|
  }

  lemma CountZero(m: Sparse)
    ensures Count(m) == 0 <==> m == map[]
  {
    if Count(m) == 0 {
      assert forall i :: i in m ==> i in Indices(m);
    }
  }

  /** Every byte of `a` is in `b`. */
  ghost predicate Within(a: Sparse, b: Sparse) {
    forall i :: i in a ==> i in b && b[i] == a[i]
  }

  function Below(keys: set<nat>, i: nat): set<nat> {
    set j | j in keys && j < i
  }

  /** How many of `keys` lie below `i`. */
  function Rank(keys: set<nat>, i: nat): nat {
    |Below(keys, i)|
  }

  /** The bytes at the `k` lowest indices of `m`: those with fewer than `k` indices below them. */
  function Lowest(m: Sparse, k: nat): (low: Sparse)
    ensures Within(low, m)
  {
    map i | i in m && Rank(Indices(m), i) < k :: m[i]
  }

  ghost predicate IsInterval(s: set<nat>, a: nat, b: nat) {
    && (forall i :: i in s <==> a <= i < b)
    && |s| == if a <= b then b - a else 0
  }

  lemma IntervalExists(a: nat, b: nat)
    ensures exists s :: IsInterval(s, a, b)
  {
    var s, n := {}, a;
    while n < b
      invariant n <= b || n == a
      invariant forall i :: i in s <==> a <= i < n
      invariant |s| == n - a
    {
      s, n := s + {n}, n + 1;
    }
    assert IsInterval(s, a, b);
  }

  /** The indices from `a` up to but not including `b`. */
  ghost function Interval(a: nat, b: nat): (s: set<nat>)
    ensures IsInterval(s, a, b)
  {
    IntervalExists(a, b);
    var s :| IsInterval(s, a, b);
    s
  }

  /** The bytes of `data`, whose first byte has stream index `index`, from index `start` on. */
  ghost function Cut(data: seq<byte>, index: nat, start: nat): Sparse {
    var lo := if index < start then start else index;
    var keys := Interval(lo, index + |data|);
    map i | i in keys :: data[i - index]
  }

  /** `e` is the first index at or after `next` with no byte in `m`. */
  ghost predicate IsRunEnd(m: Sparse, next: nat, e: nat) {
    && next <= e && e !in m
    && (forall i :: next <= i < e ==> i in m)
  }

  lemma RunEndExists(m: Sparse, next: nat)
    ensures exists e :: IsRunEnd(m, next, e)
  {
    var e, left := next, Indices(m);
    while e in m
      invariant forall i :: next <= i < e ==> i in m
      invariant next <= e
      invariant forall i :: i in m && i >= e ==> i in left
      decreases left
    {
      e, left := e + 1, left - {e};
    }
    assert IsRunEnd(m, next, e);
  }

  ghost function RunEnd(m: Sparse, next: nat): (e: nat)
    ensures IsRunEnd(m, next, e)
  {
    RunEndExists(m, next);
    var e :| IsRunEnd(m, next, e);
    e
  }

  /** The longest run of consecutive bytes of `m` starting at index `next`. */
  ghost function Run(m: Sparse, next: nat): (run: seq<byte>)
    ensures next + |run| == RunEnd(m, next)
  {
    seq(RunEnd(m, next) - next, k requires 0 <= k < RunEnd(m, next) - next => m[next + k])
  }

  function From(m: Sparse, start: nat): Sparse {
    map i | i in m && i >= start :: m[i]
  }

  /** Where the stored slices begin, as far as their bytes are in `m`. */
  function Kept(starts: set<nat>, m: Sparse): set<nat> {
    set i | i in starts && i in m
  }

  /** A slice that fills the gaps of `m` from `begin` on begins at `i`. */
  predicate BeginsAt(m: Sparse, begin: nat, i: nat) {
    i !in m && (i == begin || (i > 0 && i - 1 in m))
  }

  /** Where the slices of `kept` begin after the gaps of `m` between `begin` and `end` were filled. */
  function Restarted(starts: set<nat>, m: Sparse, begin: nat, end: nat, kept: Sparse): set<nat> {
    set i | i in kept && (i in starts || (begin <= i < end && BeginsAt(m, begin, i)))
  }

  /** The output, the bytes that wait for their turn, the indices at which the slices that hold these bytes
      begin, and the end of the stream as far as it is known. */
  datatype State = State(out: Stream, pending: Sparse, starts: set<nat>, eof: bool, eofIndex: nat) {

    /** The index of the first byte not assembled yet. */
    function Next(): nat {
      |out.written|
    }

    /** Everything at or below the next index is assembled, the pending bytes together with the buffered
        ones never exceed the capacity, and the stream has ended exactly if it stops at its known end. */
    predicate Valid() {
      && out.Valid()
      && (forall i :: i in pending ==> i > Next())
      && Count(pending) <= out.Room()
      && (out.ended <==> eof && Next() == eofIndex)
    }

    /** The output has run past the end of the stream, which will never be noticed. */
    predicate Lost() {
      eof && eofIndex < Next()
    }

    function CheckEof(): State {
      if eof && Next() == eofIndex then this.(out := out.EndInput()) else this
    }

    function NoteEof(end: nat): State {
      (if eof then this else this.(eof := true, eofIndex := end)).CheckEof()
    }

    /** Old bytes win on overlap; the highest indices are given up when there is no room. */
    ghost function Insert(data: seq<byte>, index: nat): State
      requires out.Valid()
    {
      var begin := if index < Next() then Next() else index;
      var kept := Lowest(Cut(data, index, Next()) + pending, out.Room());
      this.(pending := kept, starts := Restarted(starts, pending, begin, index + |data|, kept))
    }

    /** Moves `d`, the bytes at the next indices, to the output. */
    function TakeOut(d: seq<byte>): State
      requires out.Valid() && !out.ended
    {
      var rest := From(pending, Next() + |d|);
      State(out.Write(d), rest, Kept(starts, rest), eof, eofIndex).CheckEof()
    }

    /** No byte of the run would be written after the end: the stream is open, and no slice of the run begins
        at the known end. */
    ghost predicate Flows() {
      var run := Run(pending, Next());
      run != [] ==> !out.ended && !(eof && Next() <= eofIndex < Next() + |run| && eofIndex in starts)
    }

    ghost predicate CanDrain() {
      out.Valid() && |Run(pending, Next())| <= out.Room() && Flows()
    }

    /** Moves the longest run to the output. */
    ghost function Drain(): State
      requires CanDrain()
    {
      var run := Run(pending, Next());
      if run == [] then CheckEof() else
      TakeOut(run)
    }

    /** A push the source completes without aborting: a repeated end flag names the same end, and no byte
        is written after the end. Bytes may still run past the end, inside one slice. */
    ghost predicate Admits(data: seq<byte>, index: nat, last: bool)
      requires Valid()
    {
      var r := if last then NoteEof(index + |data|) else this;
      && (last && eof ==> eofIndex == index + |data|)
      && (index + |data| > Next() && data != [] ==> r.Insert(data, index).Flows())
    }

    ghost function Push(data: seq<byte>, index: nat, last: bool): (r: State)
      requires Valid() && Admits(data, index, last)
      ensures r.Valid()
    {
      var r := if last then NoteEof(index + |data|) else this;
      if data == [] || index + |data| <= Next() then r
      else
        InsertFits(r, data, index);
        var r1 := r.Insert(data, index);
        DrainKeepsValid(r1);
        r1.Drain()
    }
  }

  // ---- the lowest indices ----

  /** `kept` holds some lowest indices of `all`, with the same bytes. */
  ghost predicate IsLowPart(kept: Sparse, all: Sparse) {
    && Within(kept, all)
    && (forall i, j :: i in kept && j in all && j !in kept ==> i < j)
  }

  lemma LowPartIsLowest(kept: Sparse, all: Sparse, k: nat)
    requires IsLowPart(kept, all)
    requires Count(kept) == k || (kept == all && Count(all) <= k)
    ensures kept == Lowest(all, k)
  {
    forall i | i in all
      ensures i in kept <==> Rank(Indices(all), i) < k
    {
      var below := Below(Indices(all), i);
      if i in kept {
        SubsetSize(below, Indices(kept) - {i});
      } else {
        SubsetSize(Indices(kept), below);
      }
    }
  }

  lemma SubsetSize<T>(a: set<T>, b: set<T>)
    requires a <= b
    ensures |a| <= |b|
  {
    if a != {} {
      var x :| x in a;
      SubsetSize(a - {x}, b - {x});
    }
  }

  /** Exactly the given number of indices survive. */
  lemma LowestSize(m: Sparse, k: nat)
    ensures Count(Lowest(m, k)) == if Count(m) <= k then Count(m) else k
    ensures Count(m) <= k ==> Lowest(m, k) == m
    ensures IsLowPart(Lowest(m, k), m)
  {
    var kept := LowestWitness(m, k);
    LowPartIsLowest(kept, m, k);
  }

  lemma LowestWitness(m: Sparse, k: nat) returns (kept: Sparse)
    ensures IsLowPart(kept, m)
    ensures if Count(m) <= k then kept == m else Count(kept) == k
    decreases Count(m)
  {
    kept := m;
    while Count(kept) > k
      invariant IsLowPart(kept, m)
      invariant Count(m) > k ==> Count(kept) >= k
      invariant Count(m) <= k ==> kept == m
      decreases Count(kept)
    {
      assert Indices(kept) != {};
      var top := MaxKey(Indices(kept));
      var rest := kept - {top};
      assert Indices(rest) == Indices(kept) - {top};
      forall i | i in rest ensures i < top { assert i in Indices(kept); }
      kept := rest;
    }
  }

  lemma MaxKey(keys: set<nat>) returns (top: nat)
    requires keys != {}
    ensures top in keys && forall i :: i in keys ==> i <= top
  {
    var x :| x in keys;
    var rest := keys - {x};
    assert keys == rest + {x};
    if rest == {} {
      top := x;
    } else {
      top := MaxKey(rest);
      if x > top { top := x; }
    }
  }

  // ---- runs ----

  /** A run depends only on the bytes from its start on. */
  lemma RunAgree(m: Sparse, m': Sparse, next: nat)
    requires From(m, next) == From(m', next)
    ensures Run(m, next) == Run(m', next)
  {
    assert forall i :: i in m && i >= next <==> i in From(m, next);
    assert forall i :: i in m' && i >= next <==> i in From(m', next);
    assert RunEnd(m, next) == RunEnd(m', next);
    forall k | 0 <= k < |Run(m, next)| ensures Run(m, next)[k] == Run(m', next)[k] {
      assert m[next + k] == From(m, next)[next + k] == m'[next + k];
    }
  }

  lemma RunSize(m: Sparse, next: nat)
    ensures |Run(m, next)| <= Count(m)
  {
    SubsetSize(Interval(next, RunEnd(m, next)), Indices(m));
  }

  /** A run that begins with the bytes `d` continues after them. */
  lemma RunContinues(m: Sparse, next: nat, d: seq<byte>)
    requires forall i :: next <= i < next + |d| ==> i in m && m[i] == d[i - next]
    ensures Run(m, next) == d + Run(m, next + |d|)
  {
    assert RunEnd(m, next) == RunEnd(m, next + |d|);
    forall k | 0 <= k < |Run(m, next)| ensures Run(m, next)[k] == (d + Run(m, next + |d|))[k] {
      assert next + k in m;
    }
  }

  // ---- one push ----

  lemma InsertFits(r: State, data: seq<byte>, index: nat)
    requires r.out.Valid()
    requires forall i :: i in r.pending ==> i > r.Next()
    ensures Count(r.Insert(data, index).pending) <= r.out.Room()
    ensures forall i :: i in r.Insert(data, index).pending ==> i >= r.Next()
    ensures |Run(r.Insert(data, index).pending, r.Next())| <= r.out.Room()
  {
    LowestSize(Cut(data, index, r.Next()) + r.pending, r.out.Room());
    RunSize(r.Insert(data, index).pending, r.Next());
  }

  /** Draining takes as many bytes from the pending ones as it adds to the output. */
  lemma DrainMoves(m: Sparse, next: nat)
    requires forall i :: i in m ==> i >= next
    ensures Count(From(m, next + |Run(m, next)|)) == Count(m) - |Run(m, next)|
    ensures forall i :: i in m && i >= RunEnd(m, next) ==> i > RunEnd(m, next)
  {
    var run := Run(m, next);
    var rest := From(m, next + |run|);
    var moved := Interval(next, next + |run|);
    assert Indices(m) == moved + Indices(rest);
  }

  lemma DrainKeepsValid(r: State)
    requires r.CanDrain()
    requires Count(r.pending) <= r.out.Room()
    requires forall i :: i in r.pending ==> i >= r.Next()
    requires r.out.ended ==> r.eof && r.Next() == r.eofIndex
    ensures r.Drain().Valid()
    ensures r.Drain().out.written == r.out.written + Run(r.pending, r.Next())
    ensures r.Drain().pending == From(r.pending, r.Next() + |Run(r.pending, r.Next())|)
    ensures r.Drain().out.ended == (r.out.ended || (r.eof && r.Drain().Next() == r.eofIndex))
  {
    DrainMoves(r.pending, r.Next());
    if Run(r.pending, r.Next()) == [] {
      assert From(r.pending, r.Next()) == r.pending;
    }
  }

  /** A push that brings something new, in two steps. */
  lemma PushDrains(r: State, data: seq<byte>, index: nat, last: bool, n: State)
    requires r.Valid() && r.Admits(data, index, last) && data != [] && index + |data| > r.Next()
    requires n == if last then r.NoteEof(index + |data|) else r
    ensures n.out.Valid() && n.pending == r.pending && n.Next() == r.Next()
    ensures n.out.ended ==> n.eof && n.Next() == n.eofIndex
    ensures n.Insert(data, index).CanDrain() && r.Push(data, index, last) == n.Insert(data, index).Drain()
  {
    InsertFits(n, data, index);
  }

  /** What a push leaves alone, and what it never takes back. */
  lemma PushFrame(r: State, data: seq<byte>, index: nat, last: bool)
    requires r.Valid() && r.Admits(data, index, last)
    ensures var p := r.Push(data, index, last);
            && p.out == r.out.(written := p.out.written, ended := p.out.ended)
            && r.out.written <= p.out.written
            && (r.out.ended ==> p.out.ended && p.out.written == r.out.written)
            && (r.eof ==> p.eof && p.eofIndex == r.eofIndex)
  {
    if data != [] && index + |data| > r.Next() {
      var n := if last then r.NoteEof(index + |data|) else r;
      PushDrains(r, data, index, last, n);
      InsertFits(n, data, index);
      DrainKeepsValid(n.Insert(data, index));
    }
  }
}
