/** The stream reassembler: an ordered list of disjoint slices feeding a byte stream. */
module StreamReassemblers {
  import opened ByteStreams
  import opened Reassembly

  /** A stored slice; the source's ordered map keeps one per starting index. */
  datatype Slice = Slice(index: nat, data: seq<byte>) {
    function End(): nat {
      index + |data|
    }

    ghost predicate Agrees(m: Sparse) {
      forall i {:trigger m[i]} {:trigger i in m} :: index <= i < End() ==> i in m && m[i] == data[i - index]
    }
  }

  datatype Range = Range(begin: nat, end: nat) {
    predicate Valid() {
      begin < end
    }

    function Size(): nat
      requires Valid()
    {
      end - begin
    }
  }

  /** The slices hold exactly the bytes of `m`: they are nonempty, disjoint and in increasing order. */
  ghost predicate Represents(ss: seq<Slice>, m: Sparse) {
    if ss == [] then m == map[] else
      && ss[0].data != []
      && (forall i :: i in m ==> i >= ss[0].index)
      && ss[0].Agrees(m)
      && Represents(ss[1..], From(m, ss[0].End()))
  }

  /** A slice begins at `i`. */
  ghost predicate BeginsSlice(ss: seq<Slice>, i: nat) {
    ss != [] && (ss[0].index == i || BeginsSlice(ss[1..], i))
  }

  /** The stored indices at which a slice begins. */
  ghost function Starts(ss: seq<Slice>, m: Sparse): set<nat> {
    set i | i in m && BeginsSlice(ss, i)
  }

  lemma {:induction false} StartsStored(ss: seq<Slice>, m: Sparse, i: nat)
    requires Represents(ss, m) && BeginsSlice(ss, i)
    ensures i in m
  {
    if ss[0].index != i { StartsStored(ss[1..], From(m, ss[0].End()), i); }
  }

  /** Without its first slice the list begins where the bytes behind it do. */
  lemma FirstStart(ss: seq<Slice>, m: Sparse)
    requires ss != [] && Represents(ss, m)
    ensures Starts(ss[1..], From(m, ss[0].End())) == Kept(Starts(ss, m), From(m, ss[0].End()))
  {
    var rest := From(m, ss[0].End());
    forall i | i in rest ensures BeginsSlice(ss[1..], i) <==> BeginsSlice(ss, i) {}
  }

  /** An index is stored but no slice begins there exactly if a slice holds it strictly inside. */
  lemma {:induction false} StrictlyInside(ss: seq<Slice>, m: Sparse, i: nat)
    requires Represents(ss, m)
    ensures i in m && !BeginsSlice(ss, i) <==> exists k :: 0 <= k < |ss| && ss[k].index < i < ss[k].End()
  {
    if ss != [] {
      var rest := From(m, ss[0].End());
      StrictlyInside(ss[1..], rest, i);
      assert forall k :: 0 <= k < |ss[1..]| ==> ss[1..][k] == ss[k + 1];
      if ss[0].index <= i < ss[0].End() {
        assert i in m && i !in rest;
        if BeginsSlice(ss[1..], i) { StartsStored(ss[1..], rest, i); }
        forall k | 1 <= k < |ss| ensures !(ss[k].index < i < ss[k].End()) {
          assert ss[1..][k - 1] == ss[k];
        }
      } else {
        assert i in m <==> i in rest;
        if exists k :: 0 <= k < |ss| && ss[k].index < i < ss[k].End() {
          var k :| 0 <= k < |ss| && ss[k].index < i < ss[k].End();
          assert ss[1..][k - 1] == ss[k];
        }
      }
    }
  }

  function TotalSize(ss: seq<Slice>): nat {
    if ss == [] then 0 else |ss[0].data| + TotalSize(ss[1..])
  }

  lemma SizesSplit(m: Sparse, rest: Sparse, a: nat, b: nat)
    requires a <= b
    requires forall i :: i in m <==> i in rest || a <= i < b
    requires forall i :: i in rest ==> !(a <= i < b)
    ensures Count(m) == Count(rest) + (b - a)
  {
    assert Indices(m) == Indices(rest) + Interval(a, b);
  }

  lemma FirstSize(ss: seq<Slice>, m: Sparse)
    requires ss != [] && Represents(ss, m)
    ensures Count(m) == Count(From(m, ss[0].End())) + |ss[0].data|
  {
    SizesSplit(m, From(m, ss[0].End()), ss[0].index, ss[0].End());
  }

  /** The sizes of the slices add up to the number of bytes they hold. */
  lemma {:induction false} SlicesAddUp(ss: seq<Slice>, m: Sparse)
    requires Represents(ss, m)
    ensures TotalSize(ss) == Count(m)
  {
    if ss != [] {
      FirstSize(ss, m);
      SlicesAddUp(ss[1..], From(m, ss[0].End()));
    }
  }

  // ---- insertion into the ordered map, at a key not present ----

  function Emplace(ss: seq<Slice>, s: Slice): seq<Slice> {
    if ss == [] || s.index < ss[0].index then [s] + ss else [ss[0]] + Emplace(ss[1..], s)
  }

  lemma {:induction false} EmplaceStarts(ss: seq<Slice>, s: Slice, i: nat)
    ensures BeginsSlice(Emplace(ss, s), i) <==> BeginsSlice(ss, i) || i == s.index
  {
    if ss == [] || s.index < ss[0].index {
      assert ([s] + ss)[1..] == ss;
    } else {
      EmplaceStarts(ss[1..], s, i);
      assert ([ss[0]] + Emplace(ss[1..], s))[1..] == Emplace(ss[1..], s);
    }
  }

  lemma RepresentsCons(s: Slice, rest: seq<Slice>, m: Sparse)
    requires s.data != [] && s.Agrees(m) && forall i :: i in m ==> i >= s.index
    requires Represents(rest, From(m, s.End()))
    ensures Represents([s] + rest, m)
  {
    assert ([s] + rest)[1..] == rest;
  }

  /** A slice in front of everything else. */
  lemma CutInFront(s: Slice, m: Sparse)
    requires forall i :: i in m ==> i >= s.End()
    ensures var m' := Cut(s.data, s.index, 0) + m;
            s.Agrees(m') && From(m', s.End()) == m && (forall i :: i in m' ==> i >= s.index)
  {
  }

  /** A slice behind the first one. */
  lemma CutBehind(s: Slice, m: Sparse, first: Slice)
    requires first.Agrees(m) && first.End() <= s.index && (forall i :: i in m ==> i >= first.index)
    ensures var m' := Cut(s.data, s.index, 0) + m;
            && first.Agrees(m') && From(m', first.End()) == Cut(s.data, s.index, 0) + From(m, first.End())
            && (forall i :: i in m' ==> i >= first.index)
  {
    AgreesMore(first, m, Cut(s.data, s.index, 0) + m);
  }

  lemma AgreesMore(s: Slice, m: Sparse, m': Sparse)
    requires s.Agrees(m) && Within(m, m')
    ensures s.Agrees(m')
  {
    forall i | s.index <= i < s.End() ensures i in m' && m'[i] == s.data[i - s.index] {
      assert i in m;
    }
  }

  lemma {:induction false} EmplaceRepresents(ss: seq<Slice>, s: Slice, m: Sparse)
    requires Represents(ss, m) && s.data != []
    requires forall i :: s.index <= i < s.End() ==> i !in m
    ensures Represents(Emplace(ss, s), Cut(s.data, s.index, 0) + m)
  {
    var m' := Cut(s.data, s.index, 0) + m;
    if ss == [] || s.index < ss[0].index {
      assert forall i :: i in m ==> i >= s.End();
      CutInFront(s, m);
      RepresentsCons(s, ss, m');
    } else {
      assert s.index !in m;
      CutBehind(s, m, ss[0]);
      EmplaceRepresents(ss[1..], s, From(m, ss[0].End()));
      RepresentsCons(ss[0], Emplace(ss[1..], s), m');
    }
  }

  // ---- eviction from the tail ----

  ghost function Upto(m: Sparse, limit: nat): Sparse {
    map i | i in m && i < limit :: m[i]
  }

  lemma {:induction false} LastSlice(ss: seq<Slice>, m: Sparse)
    requires ss != [] && Represents(ss, m)
    ensures ss[|ss| - 1].data != [] && ss[|ss| - 1].Agrees(m)
    ensures forall i :: i in m ==> i < ss[|ss| - 1].End()
  {
    if |ss| > 1 {
      var rest := From(m, ss[0].End());
      assert ss[1..][|ss| - 2] == ss[|ss| - 1];
      LastSlice(ss[1..], rest);
      AgreesMore(ss[|ss| - 1], rest, m);
      assert ss[|ss| - 1].index in rest;
      forall i | i in m ensures i < ss[|ss| - 1].End() {
        assert i in rest || i < ss[0].End();
      }
    } else {
      forall i | i in m ensures i < ss[0].End() {
        assert i !in From(m, ss[0].End());
      }
    }
  }

  /** The list with the last slice cut to its first `n` bytes, or dropped. */
  function Trimmed(ss: seq<Slice>, n: nat): seq<Slice>
    requires ss != [] && n < |ss[|ss| - 1].data|
  {
    var last := ss[|ss| - 1];
    ss[..|ss| - 1] + if n == 0 then [] else [last.(data := last.data[..n])]
  }

  lemma {:induction false} TrimmedRepresents(ss: seq<Slice>, m: Sparse, n: nat, limit: nat)
    requires ss != [] && Represents(ss, m) && n < |ss[|ss| - 1].data| && limit == ss[|ss| - 1].index + n
    ensures Represents(Trimmed(ss, n), Upto(m, limit))
  {
    if |ss| == 1 {
      TrimmedSingle(ss, m, n);
    } else {
      var tail := ss[1..];
      assert tail[|tail| - 1] == ss[|ss| - 1];
      TrimmedRepresents(tail, From(m, ss[0].End()), n, limit);
      TrimmedStep(ss, m, n, limit);
    }
  }

  lemma TrimmedStep(ss: seq<Slice>, m: Sparse, n: nat, limit: nat)
    requires |ss| > 1 && Represents(ss, m) && n < |ss[|ss| - 1].data| && limit == ss[|ss| - 1].index + n
    requires ss[1..][|ss[1..]| - 1] == ss[|ss| - 1]
    requires Represents(Trimmed(ss[1..], n), Upto(From(m, ss[0].End()), limit))
    ensures Represents(Trimmed(ss, n), Upto(m, limit))
  {
    TrimmedTail(ss, m, n, limit);
    RepresentsCons(ss[0], Trimmed(ss[1..], n), Upto(m, limit));
  }

  lemma TrimmedSingle(ss: seq<Slice>, m: Sparse, n: nat)
    requires |ss| == 1 && Represents(ss, m) && n < |ss[0].data|
    ensures Represents(Trimmed(ss, n), Upto(m, ss[0].index + n))
  {
    var m' := Upto(m, ss[0].index + n);
    if n == 0 {
      assert m' == map[];
    } else {
      var s := ss[0].(data := ss[0].data[..n]);
      assert From(m', s.End()) == map[];
      RepresentsCons(s, [], m');
      assert Trimmed(ss, n) == [s] + [];
    }
  }

  lemma TrimmedTail(ss: seq<Slice>, m: Sparse, n: nat, limit: nat)
    requires |ss| > 1 && Represents(ss, m) && n < |ss[|ss| - 1].data| && limit == ss[|ss| - 1].index + n
    ensures ss[1..][|ss[1..]| - 1] == ss[|ss| - 1]
    ensures Trimmed(ss, n) == [ss[0]] + Trimmed(ss[1..], n)
    ensures From(Upto(m, limit), ss[0].End()) == Upto(From(m, ss[0].End()), limit)
    ensures ss[0].Agrees(Upto(m, limit))
    ensures forall i :: i in Upto(m, limit) ==> i >= ss[0].index
  {
    var rest := From(m, ss[0].End());
    assert ss[1..][|ss| - 2] == ss[|ss| - 1];
    LastSlice(ss[1..], rest);
    assert ss[|ss| - 1].index in rest;
  }

  /** Trimming keeps the beginnings that are still stored. */
  lemma {:induction false} TrimmedStarts(ss: seq<Slice>, m: Sparse, n: nat, limit: nat, i: nat)
    requires ss != [] && Represents(ss, m) && n < |ss[|ss| - 1].data| && limit == ss[|ss| - 1].index + n
    ensures BeginsSlice(Trimmed(ss, n), i) <==> BeginsSlice(ss, i) && i in Upto(m, limit)
  {
    assert ss[0].index in m;
    if |ss| == 1 {
      if n > 0 { assert Trimmed(ss, n)[1..] == []; }
    } else {
      var rest := From(m, ss[0].End());
      TrimmedTail(ss, m, n, limit);
      TrimmedStarts(ss[1..], rest, n, limit, i);
      assert Trimmed(ss, n)[1..] == Trimmed(ss[1..], n);
      TrimmedFirst(ss, m, limit);
      if BeginsSlice(ss[1..], i) { StartsStored(ss[1..], rest, i); }
    }
  }

  lemma TrimmedFirst(ss: seq<Slice>, m: Sparse, limit: nat)
    requires |ss| > 1 && Represents(ss, m) && ss[0].Agrees(Upto(m, limit))
    ensures ss[0].index in Upto(m, limit)
  {
  }

  lemma TrimmedIsLow(ss: seq<Slice>, m: Sparse, n: nat)
    requires ss != [] && Represents(ss, m) && n < |ss[|ss| - 1].data|
    ensures var last := ss[|ss| - 1];
            && IsLowPart(Upto(m, last.index + n), m)
            && Count(Upto(m, last.index + n)) == Count(m) - (|last.data| - n)
  {
    var last := ss[|ss| - 1];
    LastSlice(ss, m);
    SizesSplit(m, Upto(m, last.index + n), last.index + n, last.End());
  }

  // ---- ranges of indices ----

  function PrevEnd(rs: seq<Range>, begin: nat, k: nat): nat
    requires k <= |rs|
  {
    if k == 0 then begin else rs[k - 1].end
  }

  /** The k-th range holds indices that are in `m` (or, if `!taken`, are not), and those between its
      predecessor and it are the opposite. */
  ghost predicate Tile(rs: seq<Range>, m: Sparse, taken: bool, begin: nat, k: nat)
    requires k < |rs|
  {
    && PrevEnd(rs, begin, k) <= rs[k].begin < rs[k].end
    && (forall i :: PrevEnd(rs, begin, k) <= i < rs[k].begin ==> (i in m) != taken)
    && (forall i :: rs[k].begin <= i < rs[k].end ==> (i in m) == taken)
  }

  /** The ranges are exactly the indices between `begin` and `end` that are (not) in `m`. */
  ghost predicate Tiles(rs: seq<Range>, m: Sparse, taken: bool, begin: nat, end: nat) {
    && (forall k {:trigger Tile(rs, m, taken, begin, k)} :: 0 <= k < |rs| ==> Tile(rs, m, taken, begin, k))
    && PrevEnd(rs, begin, |rs|) <= end
    && (forall i :: PrevEnd(rs, begin, |rs|) <= i < end ==> (i in m) != taken)
  }

  lemma TilesAppend(rs: seq<Range>, m: Sparse, taken: bool, begin: nat, r: Range)
    requires Tiles(rs, m, taken, begin, r.begin) && r.Valid()
    requires forall i :: r.begin <= i < r.end ==> (i in m) == taken
    ensures Tiles(rs + [r], m, taken, begin, r.end)
  {
    var rs' := rs + [r];
    forall k | 0 <= k < |rs'| ensures Tile(rs', m, taken, begin, k) {
      if k < |rs| {
        assert Tile(rs, m, taken, begin, k);
        assert PrevEnd(rs', begin, k) == PrevEnd(rs, begin, k);
      }
    }
  }

  /** The slices before the k-th are looked at; they end at `done`. */
  ghost predicate Scanned(ss: seq<Slice>, m: Sparse, k: nat, done: nat, begin: nat, end: nat, rs: seq<Range>) {
    && k <= |ss| && begin <= end
    && Represents(ss[k..], From(m, done))
    && Tiles(rs, m, true, begin, Clamp(done, begin, end))
  }

  lemma ScanSkip(ss: seq<Slice>, m: Sparse, k: nat, done: nat, begin: nat, end: nat, rs: seq<Range>)
    requires Scanned(ss, m, k, done, begin, end, rs) && k < |ss|
    ensures ss[k].index in m && done <= ss[k].index && (forall i :: i in From(m, done) ==> i >= ss[k].index)
    ensures forall i :: ss[k].index <= i < ss[k].End() ==> i in m
    ensures Represents(ss[k + 1..], From(m, ss[k].End()))
  {
    var left := From(m, done);
    assert ss[k..][0] == ss[k] && ss[k..][1..] == ss[k + 1..];
    assert ss[k].Agrees(left);
    assert ss[k].index in left;
    assert From(left, ss[k].End()) == From(m, ss[k].End());
    forall i | ss[k].index <= i < ss[k].End() ensures i in m { assert i in left; }
  }

  /** The parts of the stored slices that overlap `[begin, end)`. */
  method OverlapArea(ss: seq<Slice>, begin: nat, end: nat, ghost m: Sparse) returns (unneeded: seq<Range>)
    requires begin < end && Represents(ss, m)
    ensures Tiles(unneeded, m, true, begin, end)
  {
    unneeded := [];
    ghost var done := 0;
    assert From(m, 0) == m && ss[0..] == ss;
    var k := 0;
    while k < |ss|
      invariant Scanned(ss, m, k, done, begin, end, unneeded)
      decreases |ss| - k
    {
      var s := ss[k];
      ScanSkip(ss, m, k, done, begin, end, unneeded);
      if s.End() <= begin {
        k, done := k + 1, s.End();
        continue;
      }
      if s.index >= end {
        break;
      }
      var lo := if begin < s.index then s.index else begin;
      var hi := if end < s.End() then end else s.End();
      NothingBetween(unneeded, m, begin, end, done, s.index, lo);
      TilesAppend(unneeded, m, true, begin, Range(lo, hi));
      unneeded := unneeded + [Range(lo, hi)];
      k, done := k + 1, s.End();
    }
    if k < |ss| {
      ScanSkip(ss, m, k, done, begin, end, unneeded);
    }
    NothingBetween(unneeded, m, begin, end, done, if k < |ss| then ss[k].index else end, end);
  }

  function Clamp(x: nat, lo: nat, hi: nat): nat {
    if x < lo then lo else if x > hi then hi else x
  }

  lemma NothingBetween(rs: seq<Range>, m: Sparse, begin: nat, end: nat, done: nat, first: nat, upto: nat)
    requires begin <= end && Tiles(rs, m, true, begin, Clamp(done, begin, end))
    requires forall i :: i in From(m, done) ==> i >= first || i >= end
    requires Clamp(done, begin, end) <= upto <= end && (upto <= first || upto == begin)
    ensures Tiles(rs, m, true, begin, upto)
  {
    forall i | Clamp(done, begin, end) <= i < upto ensures i !in m {
      assert i in m ==> i in From(m, done);
    }
    forall k | 0 <= k < |rs| ensures Tile(rs, m, true, begin, k) {}
  }

  /** The rest of `[begin, end)`: what a push really adds. */
  method NeededArea(unneeded: seq<Range>, begin: nat, end: nat, ghost m: Sparse)
    returns (needed: seq<Range>, insertSize: nat)
    requires begin < end && Tiles(unneeded, m, true, begin, end)
    ensures Tiles(needed, m, false, begin, end) && BeginsRight(needed, m, begin, end)
    ensures insertSize == Free(m, begin, end - begin)
  {
    needed, insertSize := [], 0;
    var prevEnd := begin;
    var k := 0;
    while k < |unneeded|
      invariant 0 <= k <= |unneeded|
      invariant begin <= prevEnd == PrevEnd(unneeded, begin, k) <= end
      invariant insertSize == Free(m, begin, prevEnd - begin)
      invariant Tiles(needed, m, false, begin, prevEnd)
      invariant BeginsRight(needed, m, begin, prevEnd)
      invariant prevEnd == begin || prevEnd - 1 in m
    {
      var u := unneeded[k];
      assert Tile(unneeded, m, true, begin, k);
      TilesWithin(unneeded, m, true, begin, end, k);
      needed, insertSize := AddGap(needed, insertSize, prevEnd, u.begin, begin, m);
      FreeTaken(m, begin, u.begin, u.end);
      BeginsTaken(needed, m, begin, u.begin, u.end);
      TilesExtend(needed, m, false, begin, u.begin, u.end);
      prevEnd := u.end;
      k := k + 1;
    }
    needed, insertSize := AddGap(needed, insertSize, prevEnd, end, begin, m);
  }

  /** Notes the gap between two ranges, if there is one. */
  method AddGap(needed: seq<Range>, insertSize: nat, from: nat, to: nat, begin: nat, ghost m: Sparse)
    returns (needed': seq<Range>, insertSize': nat)
    requires begin <= from <= to && Tiles(needed, m, false, begin, from) && insertSize == Free(m, begin, from - begin)
    requires BeginsRight(needed, m, begin, from) && (from == begin || from - 1 in m)
    requires forall i :: from <= i < to ==> i !in m
    ensures Tiles(needed', m, false, begin, to) && insertSize' == Free(m, begin, to - begin)
    ensures BeginsRight(needed', m, begin, to)
  {
    needed', insertSize' := needed, insertSize;
    FreeGap(m, begin, from, to);
    if from < to {
      var range := Range(from, to);
      insertSize' := insertSize + range.Size();
      TilesAppend(needed, m, false, begin, range);
      BeginsGap(needed, m, begin, range);
      needed' := needed + [range];
    }
  }

  /** The ranges begin exactly where a slice is needed. */
  ghost predicate BeginsRight(rs: seq<Range>, m: Sparse, begin: nat, end: nat) {
    forall i: nat :: HasBegin(rs, i) <==> begin <= i < end && BeginsAt(m, begin, i)
  }

  ghost predicate HasBegin(rs: seq<Range>, i: nat) {
    HasBeginUpto(rs, |rs|, i)
  }

  ghost predicate HasBeginUpto(rs: seq<Range>, k: nat, i: nat)
    requires k <= |rs|
  {
    k > 0 && (rs[k - 1].begin == i || HasBeginUpto(rs, k - 1, i))
  }

  lemma {:induction false} BeginsSame(rs: seq<Range>, r: Range, k: nat, i: nat)
    requires k <= |rs|
    ensures HasBeginUpto(rs + [r], k, i) <==> HasBeginUpto(rs, k, i)
  {
    if k > 0 { BeginsSame(rs, r, k - 1, i); }
  }

  lemma BeginsMore(rs: seq<Range>, r: Range, i: nat)
    ensures HasBegin(rs + [r], i) <==> HasBegin(rs, i) || i == r.begin
  {
    BeginsSame(rs, r, |rs|, i);
  }

  /** A gap brings one slice. */
  lemma BeginsGap(rs: seq<Range>, m: Sparse, begin: nat, r: Range)
    requires BeginsRight(rs, m, begin, r.begin) && begin <= r.begin < r.end && (r.begin == begin || r.begin - 1 in m)
    requires forall i :: r.begin <= i < r.end ==> i !in m
    ensures BeginsRight(rs + [r], m, begin, r.end)
  {
    forall i: nat ensures HasBegin(rs + [r], i) <==> begin <= i < r.end && BeginsAt(m, begin, i) {
      BeginsMore(rs, r, i);
      assert HasBegin(rs, i) <==> begin <= i < r.begin && BeginsAt(m, begin, i);
    }
  }

  lemma BeginsTaken(rs: seq<Range>, m: Sparse, begin: nat, a: nat, b: nat)
    requires BeginsRight(rs, m, begin, a) && begin <= a <= b
    requires forall i :: a <= i < b ==> i in m
    ensures BeginsRight(rs, m, begin, b)
  {
    forall i: nat ensures HasBegin(rs, i) <==> begin <= i < b && BeginsAt(m, begin, i) {
      assert HasBegin(rs, i) <==> begin <= i < a && BeginsAt(m, begin, i);
    }
  }

  /** How many of the `n` indices from `begin` on are not in `m`. */
  function Free(m: Sparse, begin: nat, n: nat): nat {
    if n == 0 then 0 else Free(m, begin, n - 1) + if begin + n - 1 in m then 0 else 1
  }

  lemma {:induction false} FreeGap(m: Sparse, begin: nat, a: nat, b: nat)
    requires begin <= a <= b
    requires forall i :: a <= i < b ==> i !in m
    ensures Free(m, begin, b - begin) == Free(m, begin, a - begin) + (b - a)
  {
    if a < b { FreeGap(m, begin, a, b - 1); }
  }

  lemma {:induction false} FreeTaken(m: Sparse, begin: nat, a: nat, b: nat)
    requires begin <= a <= b
    requires forall i :: a <= i < b ==> i in m
    ensures Free(m, begin, b - begin) == Free(m, begin, a - begin)
  {
    if a < b { FreeTaken(m, begin, a, b - 1); }
  }

  lemma TilesExtend(rs: seq<Range>, m: Sparse, taken: bool, begin: nat, e: nat, e': nat)
    requires Tiles(rs, m, taken, begin, e) && e <= e'
    requires forall i :: e <= i < e' ==> (i in m) != taken
    ensures Tiles(rs, m, taken, begin, e')
  {
    forall k | 0 <= k < |rs| ensures Tile(rs, m, taken, begin, k) {}
  }

  lemma TilesWithin(rs: seq<Range>, m: Sparse, taken: bool, begin: nat, end: nat, k: nat)
    requires Tiles(rs, m, taken, begin, end) && k < |rs|
    ensures rs[k].end <= end
    decreases |rs| - k
  {
    if k + 1 < |rs| {
      TilesWithin(rs, m, taken, begin, end, k + 1);
      assert Tile(rs, m, taken, begin, k + 1);
    }
  }

  /** Filling the gap `r` after everything below `e` is stored. */
  lemma FillGap(data: seq<byte>, index: nat, m: Sparse, e: nat, r: Range)
    requires index <= e <= r.begin < r.end <= index + |data|
    requires forall i :: e <= i < r.begin ==> i in m
    ensures var s := Slice(r.begin, data[r.begin - index..r.end - index]);
            Cut(s.data, s.index, 0) + (Cut(data[..e - index], index, 0) + m) == Cut(data[..r.end - index], index, 0) + m
  {
  }

  /** Stores the needed parts of a push. */
  method InsertNeeded(ss: seq<Slice>, data: seq<byte>, index: nat, needed: seq<Range>, ghost m: Sparse)
    returns (ss': seq<Slice>)
    requires Represents(ss, m)
    requires Tiles(needed, m, false, index, index + |data|)
    ensures Represents(ss', Cut(data, index, 0) + m)
    ensures forall i: nat :: BeginsSlice(ss', i) <==> BeginsSlice(ss, i) || HasBegin(needed, i)
  {
    ss' := ss;
    FillNothing(data, index, m);
    var k := 0;
    while k < |needed|
      invariant 0 <= k <= |needed|
      invariant Filled(ss', data, index, m, PrevEnd(needed, index, k))
      invariant forall i: nat :: BeginsSlice(ss', i) <==> BeginsSlice(ss, i) || HasBeginUpto(needed, k, i)
    {
      var r := needed[k];
      NeededTile(needed, m, index, index + |data|, k);
      ss' := InsertOne(ss', data, index, r, PrevEnd(needed, index, k), m);
      k := k + 1;
    }
    FillRest(ss', data, index, m, PrevEnd(needed, index, |needed|));
  }

  /** Stores one needed part, after everything below `e`. */
  method InsertOne(ss: seq<Slice>, data: seq<byte>, index: nat, r: Range, ghost e: nat, ghost m: Sparse)
    returns (ss': seq<Slice>)
    requires Filled(ss, data, index, m, e)
    requires e <= r.begin < r.end <= index + |data|
    requires forall i :: e <= i < r.begin ==> i in m
    requires forall i :: r.begin <= i < r.end ==> i !in m
    ensures Filled(ss', data, index, m, r.end)
    ensures forall i: nat :: BeginsSlice(ss', i) <==> BeginsSlice(ss, i) || i == r.begin
  {
    FillNext(ss, data, index, m, e, r);
    ss' := Emplace(ss, Slice(r.begin, data[r.begin - index..r.end - index]));
    forall i: nat ensures BeginsSlice(ss', i) <==> BeginsSlice(ss, i) || i == r.begin {
      EmplaceStarts(ss, Slice(r.begin, data[r.begin - index..r.end - index]), i);
    }
  }

  /** Everything below `e` is stored. */
  ghost predicate Filled(ss: seq<Slice>, data: seq<byte>, index: nat, m: Sparse, e: nat) {
    index <= e <= index + |data| && Represents(ss, Cut(data[..e - index], index, 0) + m)
  }

  lemma NeededTile(needed: seq<Range>, m: Sparse, begin: nat, end: nat, k: nat)
    requires k < |needed| && Tiles(needed, m, false, begin, end)
    ensures PrevEnd(needed, begin, k) <= needed[k].begin < needed[k].end <= end
    ensures forall i :: PrevEnd(needed, begin, k) <= i < needed[k].begin ==> i in m
    ensures forall i :: needed[k].begin <= i < needed[k].end ==> i !in m
  {
    assert Tile(needed, m, false, begin, k);
    TilesWithin(needed, m, false, begin, end, k);
  }

  lemma FillNothing(data: seq<byte>, index: nat, m: Sparse)
    ensures Cut(data[..0], index, 0) + m == m
  {
  }

  lemma FillNext(ss: seq<Slice>, data: seq<byte>, index: nat, m: Sparse, e: nat, r: Range)
    requires Filled(ss, data, index, m, e)
    requires e <= r.begin < r.end <= index + |data|
    requires forall i :: e <= i < r.begin ==> i in m
    requires forall i :: r.begin <= i < r.end ==> i !in m
    ensures Filled(Emplace(ss, Slice(r.begin, data[r.begin - index..r.end - index])), data, index, m, r.end)
  {
    FillGap(data, index, m, e, r);
    EmplaceRepresents(ss, Slice(r.begin, data[r.begin - index..r.end - index]), Cut(data[..e - index], index, 0) + m);
  }

  lemma FillRest(ss: seq<Slice>, data: seq<byte>, index: nat, m: Sparse, e: nat)
    requires Filled(ss, data, index, m, e)
    requires forall i :: e <= i < index + |data| ==> i in m
    ensures Represents(ss, Cut(data, index, 0) + m)
  {
    assert Cut(data[..e - index], index, 0) + m == Cut(data, index, 0) + m;
  }

  lemma LastByte(data: seq<byte>, index: nat, m: Sparse)
    requires data != []
    ensures var n := |data| - 1;
            var less, all := Indices(Cut(data[..n], index, 0) + m), Indices(Cut(data, index, 0) + m);
            if index + n in m then all == less else all == less + {index + n} && index + n !in less
  {
  }

  /** How many indices a push adds. */
  lemma {:induction false} InsertSize(data: seq<byte>, index: nat, m: Sparse)
    ensures Count(Cut(data, index, 0) + m) == Count(m) + Free(m, index, |data|)
  {
    if data == [] {
      assert Cut(data, index, 0) + m == m;
    } else {
      InsertSize(data[..|data| - 1], index, m);
      LastByte(data, index, m);
    }
  }

  /** Gives up the `excess` highest indices. */
  method Evict(ss: seq<Slice>, excess: nat, ghost m: Sparse) returns (ss': seq<Slice>, ghost m': Sparse)
    requires Represents(ss, m) && 0 < excess <= Count(m)
    ensures Represents(ss', m') && IsLowPart(m', m) && Count(m') == Count(m) - excess
    ensures TotalSize(ss') == TotalSize(ss) - excess
    ensures forall i: nat :: BeginsSlice(ss', i) <==> BeginsSlice(ss, i) && i in m'
  {
    ss', m' := ss, m;
    forall i: nat | BeginsSlice(ss, i) ensures i in m { StartsStored(ss, m, i); }
    var exceeded := excess;
    while ss' != []
      invariant Represents(ss', m') && IsLowPart(m', m)
      invariant 0 < exceeded <= Count(m') == Count(m) - excess + exceeded
      invariant forall i: nat :: BeginsSlice(ss', i) <==> BeginsSlice(ss, i) && i in m'
      decreases |ss'|
    {
      var size := |ss'[|ss'| - 1].data|;
      LastSlice(ss', m');
      ghost var n := if size > exceeded then size - exceeded else 0;
      EvictStep(ss', m', n, m);
      m' := Upto(m', ss'[|ss'| - 1].index + n);
      if size > exceeded {
        ss' := Trimmed(ss', size - exceeded);
        exceeded := 0;
        break;
      }
      exceeded := exceeded - size;
      ss' := Trimmed(ss', 0);
      if exceeded == 0 {
        break;
      }
    }
    assert exceeded == 0;
    SlicesAddUp(ss, m);
    SlicesAddUp(ss', m');
  }

  lemma EvictStep(ss: seq<Slice>, m: Sparse, n: nat, all: Sparse)
    requires ss != [] && Represents(ss, m) && n < |ss[|ss| - 1].data| && IsLowPart(m, all)
    ensures var m' := Upto(m, ss[|ss| - 1].index + n);
            && Represents(Trimmed(ss, n), m') && IsLowPart(m', all)
            && Count(m') == Count(m) - (|ss[|ss| - 1].data| - n)
            && (forall i: nat :: BeginsSlice(Trimmed(ss, n), i) <==> BeginsSlice(ss, i) && i in m')
  {
    forall i: nat ensures BeginsSlice(Trimmed(ss, n), i) <==> BeginsSlice(ss, i) && i in Upto(m, ss[|ss| - 1].index + n) {
      TrimmedStarts(ss, m, n, ss[|ss| - 1].index + n, i);
    }
    TrimmedRepresents(ss, m, n, ss[|ss| - 1].index + n);
    TrimmedIsLow(ss, m, n);
    LowPartTrans(Upto(m, ss[|ss| - 1].index + n), m, all);
  }

  lemma LowPartTrans(a: Sparse, b: Sparse, c: Sparse)
    requires IsLowPart(a, b) && IsLowPart(b, c)
    ensures IsLowPart(a, c)
  {
  }

  /** Stores what is new of a push. */
  method Store(ss: seq<Slice>, data: seq<byte>, index: nat, ghost m: Sparse) returns (ss': seq<Slice>, insertSize: nat)
    requires Represents(ss, m) && data != []
    ensures Represents(ss', Cut(data, index, 0) + m)
    ensures Count(Cut(data, index, 0) + m) == Count(m) + insertSize
    ensures forall i: nat :: BeginsSlice(ss', i) <==> BeginsSlice(ss, i) || (index <= i < index + |data| && BeginsAt(m, index, i))
  {
    var unneeded := OverlapArea(ss, index, index + |data|, m);
    var needed;
    needed, insertSize := NeededArea(unneeded, index, index + |data|, m);
    InsertSize(data, index, m);
    ss' := InsertNeeded(ss, data, index, needed, m);
    assert forall i: nat :: HasBegin(needed, i) <==> index <= i < index + |data| && BeginsAt(m, index, i);
  }

  /** Stores what is new of a push and gives up what exceeds the remaining memory. */
  method StoreWithin(ss: seq<Slice>, data: seq<byte>, index: nat, remaining: nat, ghost m: Sparse)
    returns (ss': seq<Slice>, insertSize: nat, ghost m': Sparse)
    requires Represents(ss, m) && data != []
    ensures Represents(ss', m') && IsLowPart(m', Cut(data, index, 0) + m)
    ensures Count(m') == Count(m) + insertSize && insertSize <= remaining
    ensures insertSize == remaining || m' == Cut(data, index, 0) + m
    ensures forall i: nat :: BeginsSlice(ss', i) <==>
              (BeginsSlice(ss, i) || (index <= i < index + |data| && BeginsAt(m, index, i))) && i in m'
  {
    ss', insertSize := Store(ss, data, index, m);
    m' := Cut(data, index, 0) + m;
    ghost var all := ss';
    forall i: nat | BeginsSlice(all, i) ensures i in m' { StartsStored(all, m', i); }
    if insertSize > remaining {
      ss', m' := Evict(ss', insertSize - remaining, m');
      insertSize := remaining;
    }
  }

  /** What is stored afterwards are the lowest indices of old and new, in slices that begin where slices began
      or a gap did. */
  method Merge(ss: seq<Slice>, data: seq<byte>, index: nat, remaining: nat, ghost m: Sparse)
    returns (ss': seq<Slice>, insertSize: nat, ghost m': Sparse)
    requires Represents(ss, m) && data != []
    ensures Represents(ss', m')
    ensures m' == Lowest(Cut(data, index, 0) + m, Count(m) + remaining)
    ensures Count(m') == Count(m) + insertSize && insertSize <= remaining
    ensures Starts(ss', m') == Restarted(Starts(ss, m), m, index, index + |data|, m')
  {
    ss', insertSize, m' := StoreWithin(ss, data, index, remaining, m);
    LowPartIsLowest(m', Cut(data, index, 0) + m, Count(m) + remaining);
    MergedStarts(ss, m, index, index + |data|, ss', m');
  }

  lemma MergedStarts(ss: seq<Slice>, m: Sparse, begin: nat, end: nat, ss': seq<Slice>, m': Sparse)
    requires Represents(ss, m)
    requires forall i: nat :: BeginsSlice(ss', i) <==>
               (BeginsSlice(ss, i) || (begin <= i < end && BeginsAt(m, begin, i))) && i in m'
    ensures Starts(ss', m') == Restarted(Starts(ss, m), m, begin, end, m')
  {
    forall i: nat | BeginsSlice(ss, i) ensures i in m { StartsStored(ss, m, i); }
  }

  lemma CutSuffix(data: seq<byte>, index: nat, next: nat)
    requires index + |data| > next
    ensures var begin := if index < next then next else index;
            Cut(data[begin - index..], begin, 0) == Cut(data, index, next)
  {
  }

  /** A state on the way of draining `start`: part of the run is moved, the rest still runs on. */
  ghost predicate PartlyDrained(start: State, now: State) {
    && start.CanDrain()
    && start.out.written <= now.out.written
    && now.pending == From(start.pending, now.Next()) && now.starts == Kept(start.starts, now.pending)
    && now.out.written + Run(now.pending, now.Next()) == start.out.written + Run(start.pending, start.Next())
    && now == start.(out := start.out.(written := now.out.written), pending := now.pending, starts := now.starts).CheckEof()
  }

  lemma AgreesAt(s: Slice, m: Sparse)
    requires s.Agrees(m)
    ensures forall i :: s.index <= i < s.index + |s.data| ==> i in m && m[i] == s.data[i - s.index]
  {
  }

  lemma RunFrom(m: Sparse, n: nat)
    ensures Run(From(m, n), n) == Run(m, n)
  {
    RunAgree(From(m, n), m, n);
  }

  lemma RunTakes(m: Sparse, ss: seq<Slice>)
    requires ss != [] && Represents(ss, m)
    ensures Run(m, ss[0].index) == ss[0].data + Run(From(m, ss[0].End()), ss[0].End())
  {
    var s := ss[0];
    AgreesAt(s, m);
    RunContinues(m, s.index, s.data);
    RunFrom(m, s.End());
  }

  lemma DrainStart(start: State)
    requires start.CanDrain() && forall i :: i in start.pending ==> i >= start.Next()
    requires forall i :: i in start.starts ==> i in start.pending
    ensures PartlyDrained(start, start.CheckEof())
  {
    assert From(start.pending, start.Next()) == start.pending;
  }

  lemma DrainStep(start: State, now: State, ss: seq<Slice>)
    requires PartlyDrained(start, now) && now.out.Valid()
    requires ss != [] && Represents(ss, now.pending) && Starts(ss, now.pending) == now.starts && ss[0].index == now.Next()
    ensures !now.out.ended
    ensures |ss[0].data| <= now.out.Room() ==> PartlyDrained(start, now.TakeOut(ss[0].data))
  {
    RunTakes(now.pending, ss);
    DrainOpen(start, now);
    if |ss[0].data| <= now.out.Room() {
      DrainOn(start, now, ss[0].data);
    }
  }

  lemma DrainOpen(start: State, now: State)
    requires PartlyDrained(start, now) && Run(now.pending, now.Next()) != [] && now.Next() in now.starts
    ensures !now.out.ended
  {
    assert |now.out.written + Run(now.pending, now.Next())| == |start.out.written + Run(start.pending, start.Next())|;
  }

  ghost function TakenOut(now: State, d: seq<byte>): State {
    var rest := From(now.pending, now.Next() + |d|);
    now.(out := now.out.(written := now.out.written + d), pending := rest, starts := Kept(now.starts, rest))
  }

  /** Taking out bytes for which there is room. */
  lemma TakeOutIs(now: State, d: seq<byte>)
    requires now.out.Valid() && !now.out.ended && |d| <= now.out.Room()
    ensures now.TakeOut(d) == TakenOut(now, d).CheckEof()
  {
  }

  /** What is left to drain after `d`, and where it begins. */
  lemma DrainRest(start: State, now: State, e: nat)
    requires now.pending == From(start.pending, now.Next()) && now.starts == Kept(start.starts, now.pending)
    requires e >= now.Next()
    ensures var rest := From(now.pending, e);
            rest == From(start.pending, e) && Kept(now.starts, rest) == Kept(start.starts, rest)
  {
  }

  lemma DrainOn(start: State, now: State, d: seq<byte>)
    requires PartlyDrained(start, now) && now.out.Valid() && d != [] && !now.out.ended
    requires |d| <= now.out.Room()
    requires var e := now.Next() + |d|;
             Run(now.pending, now.Next()) == d + Run(From(now.pending, e), e)
    ensures PartlyDrained(start, now.TakeOut(d))
  {
    var e := now.Next() + |d|;
    TakeOutIs(now, d);
    DrainRest(start, now, e);
    Assoc(now.out.written, d, Run(From(now.pending, e), e));
    assert now.TakeOut(d).out.written == now.out.written + d;
  }

  lemma DrainDone(start: State, now: State, ss: seq<Slice>)
    requires PartlyDrained(start, now) && now.out.Valid()
    requires Represents(ss, now.pending) && (ss == [] || ss[0].index != now.Next())
    requires forall i :: i in start.pending ==> i >= start.Next()
    requires forall i :: i in start.starts ==> i in start.pending
    ensures now == start.Drain()
  {
    if ss != [] { assert ss[0].index in now.pending; }
    assert now.Next() !in now.pending;
    assert Run(now.pending, now.Next()) == [];
    assert now.out.written == start.out.written + Run(start.pending, start.Next());
    if now.out.written == start.out.written {
      assert Run(start.pending, start.Next()) == [];
      assert From(start.pending, start.Next()) == start.pending;
      assert Kept(start.starts, start.pending) == start.starts;
    }
  }

  class StreamReassembler {
    const output: ByteStream
    const capacity: nat
    var unasmBytes: nat
    var nextIndex: nat
    var datas: seq<Slice>
    var eof: bool
    var eofIndex: nat
    ghost var pending: Sparse

    ghost function Repr(): set<object> {
      {this} + output.Repr()
    }

    /** The representation, also between the steps of one push. */
    ghost predicate Consistent()
      reads Repr()
    {
      && output.Valid()
      && capacity == output.State().capacity
      && nextIndex == output.bytesWritten
      && Represents(datas, pending)
      && unasmBytes == Count(pending) <= output.State().Room()
    }

    ghost function State(): Reassembly.State
      reads this, output.Repr()
      requires output.Valid()
    {
      Reassembly.State(output.State(), pending, Starts(datas, pending), eof, eofIndex)
    }

    ghost predicate Valid()
      reads Repr()
    {
      Consistent() && State().Valid()
    }

    constructor (capacity: nat)
      requires 0 < capacity
      ensures Valid() && fresh(Repr())
      ensures State() == Reassembly.State(Stream(capacity, [], 0, false, false), map[], {}, false, 0)
    {
      output := new ByteStream(capacity);
      this.capacity := capacity;
      unasmBytes, nextIndex, datas, eof, eofIndex := 0, 0, [], false, 0;
      pending := map[];
    }

    method PushSubstring(data: seq<byte>, index: nat, last: bool)
      requires Valid() && State().Admits(data, index, last)
      modifies Repr()
      ensures Valid()
      ensures State() == old(State()).Push(data, index, last)
    {
      ghost var before := State();
      var end := index + |data|;
      if last {
        NoteEof(end);
      }
      ghost var noted := State();
      assert noted == if last then before.NoteEof(end) else before;
      if |data| == 0 || end <= nextIndex {
        return;
      }
      PushDrains(before, data, index, last, noted);
      InsertAndReassemble(data, index);
    }

    method NoteEof(end: nat)
      requires Valid() && (eof ==> eofIndex == end)
      modifies Repr()
      ensures Valid() && State() == old(State()).NoteEof(end)
      ensures nextIndex == old(nextIndex)
    {
      if !eof {
        eof, eofIndex := true, end;
      }
      assert eofIndex == end;
      CheckEof();
    }

    method InsertAndReassemble(data: seq<byte>, index: nat)
      requires Consistent() && data != [] && index + |data| > nextIndex
      requires forall i :: i in pending ==> i > nextIndex
      requires State().Insert(data, index).CanDrain()
      requires output.inputEnded ==> eof && nextIndex == eofIndex
      modifies Repr()
      ensures Valid()
      ensures State() == old(State()).Insert(data, index).Drain()
    {
      ghost var inserted := State().Insert(data, index);
      InsertFits(State(), data, index);
      DrainKeepsValid(inserted);
      InsertNew(data, index);
      Reassemble();
    }

    /** Stores the part of a push that is not assembled yet. */
    method InsertNew(data: seq<byte>, index: nat)
      requires Consistent() && data != [] && index + |data| > nextIndex
      modifies this`datas, this`unasmBytes, this`pending
      ensures Consistent()
      ensures State() == old(State()).Insert(data, index)
    {
      var begin := if index < nextIndex then nextIndex else index;
      CutSuffix(data, index, nextIndex);
      assert Cut(data[begin - index..], begin, 0) == Cut(data, index, State().Next());
      InsertWithoutOverlap(data[begin - index..], begin);
    }

    method CheckEof()
      requires output.Valid() && nextIndex == output.bytesWritten
      modifies output.Repr()
      ensures output.Valid() && State() == old(State()).CheckEof()
    {
      if eof && nextIndex == eofIndex {
        output.EndInput();
      }
    }

    method InsertWithoutOverlap(data: seq<byte>, index: nat)
      requires Consistent() && data != [] && index >= nextIndex
      modifies this`datas, this`unasmBytes, this`pending
      ensures Consistent()
      ensures pending == Lowest(Cut(data, index, 0) + old(pending), old(State()).out.Room())
      ensures State() == old(State()).(pending := pending,
                           starts := Restarted(old(State()).starts, old(pending), index, index + |data|, pending))
    {
      var insertSize;
      var remaining := RemainingMemory();
      assert Count(pending) + remaining == State().out.Room();
      datas, insertSize, pending := Merge(datas, data, index, remaining, pending);
      unasmBytes := unasmBytes + insertSize;
      OutputSame();
    }

    twostate lemma OutputSame()
      requires old(output.Valid()) && unchanged(output.Repr())
      ensures output.Valid() && output.State() == old(output.State())
    {
    }

    function RemainingMemory(): (n: nat)
      reads this, output.Repr()
      requires output.Valid() && capacity == output.State().capacity
      requires unasmBytes <= output.State().Room()
      ensures n == output.State().Room() - unasmBytes
    {
      capacity - (unasmBytes + output.BufferSize())
    }

    /** Every stored slice fits when its turn comes, so the branch for a slice larger than the room
        left in the output is never taken. */
    method Reassemble()
      requires Consistent() && State().CanDrain()
      requires forall i :: i in pending ==> i >= nextIndex
      modifies Repr()
      ensures Consistent()
      ensures State() == old(State()).Drain()
    {
      ghost var start := State();
      CheckEof();
      DrainStart(start);
      while datas != [] && datas[0].index == nextIndex
        invariant Consistent()
        invariant PartlyDrained(start, State())
        decreases |datas|
      {
        DrainStep(start, State(), datas);
        WriteFirst();
      }
      DrainDone(start, State(), datas);
    }

    /** Moves the first slice to the output. */
    method WriteFirst()
      requires Consistent() && datas != [] && datas[0].index == nextIndex && !output.inputEnded
      modifies Repr()
      ensures Consistent()
      ensures datas == old(datas)[1..]
      ensures |old(datas)[0].data| <= old(output.State()).Room()
      ensures State() == old(State()).TakeOut(old(datas)[0].data)
    {
      var slice := datas[0];
      FirstSize(datas, pending);
      if |slice.data| <= output.RemainingCapacity() {
        TakeOutIs(State(), slice.data);
        MoveFirst(slice.data);
        CheckEof();
      } else {
        assert false;
      }
    }

    /** Writes the first slice and takes it off the list. */
    method MoveFirst(data: seq<byte>)
      requires Consistent() && datas != [] && datas[0].index == nextIndex && datas[0].data == data
      requires !output.inputEnded && |data| <= output.State().Room()
      modifies Repr()
      ensures Consistent() && datas == old(datas)[1..]
      ensures State() == TakenOut(old(State()), data)
    {
      var _ := output.Write(data);
      DropFirst();
    }

    /** Takes the first slice off the list and moves the next index behind it. */
    method DropFirst()
      requires datas != [] && Represents(datas, pending) && unasmBytes == Count(pending)
      modifies this`unasmBytes, this`nextIndex, this`datas, this`pending
      ensures Represents(datas, pending) && unasmBytes == Count(pending) == old(unasmBytes) - |old(datas)[0].data|
      ensures datas == old(datas)[1..] && nextIndex == old(nextIndex) + |old(datas)[0].data|
      ensures pending == From(old(pending), old(datas)[0].End()) && Starts(datas, pending) == Kept(old(Starts(datas, pending)), pending)
    {
      FirstSize(datas, pending);
      FirstStart(datas, pending);
      unasmBytes := unasmBytes - |datas[0].data|;
      nextIndex := nextIndex + |datas[0].data|;
      pending := From(pending, datas[0].End());
      datas := datas[1..];
    }
  }
}
