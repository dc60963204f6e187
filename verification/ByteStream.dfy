/** The bounded in-order byte stream and the circular array it is kept in. */
module ByteStreams {

  type byte = x: int | 0 <= x < 256

  /** The `len` bytes of `s` from index `start` on, byte by byte. */
  function Part(s: seq<byte>, start: nat, len: nat): (r: seq<byte>)
    requires start + len <= |s|
    ensures |r| == len
  {
    if len == 0 then [] else Part(s, start, len - 1) + [s[start + len - 1]]
  }

  lemma {:induction false} PartIs(s: seq<byte>, start: nat, len: nat)
    requires start + len <= |s|
    ensures Part(s, start, len) == s[start..start + len]
  {
    if len > 0 {
      PartIs(s, start, len - 1);
      assert s[start..start + len] == s[start..start + len - 1] + [s[start + len - 1]];
    }
  }

  lemma TakePart(s: seq<byte>, start: nat, len: nat)
    requires start + len <= |s|
    ensures s[..start] + Part(s, start, len) == s[..start + len]
  {
    PartIs(s, start, len);
    assert s[..start] + s[start..start + len] == s[..start + len];
  }

  lemma Assoc(a: seq<byte>, b: seq<byte>, c: seq<byte>)
    ensures (a + b) + c == a + (b + c)
  {
  }

  lemma DropAppend(s: seq<byte>, start: nat, t: seq<byte>)
    requires start <= |s|
    ensures (s + t)[start..] == s[start..] + t
  {
  }

  /** What a byte stream means: every byte ever accepted, how many of them were popped, and the
      two flags. The buffered bytes are the accepted ones not popped yet. */
  datatype Stream = Stream(capacity: nat, written: seq<byte>, read: nat, ended: bool, error: bool) {

    predicate Valid() {
      0 < capacity && read <= |written| <= read + capacity
    }

    function Buffered(): nat
      requires Valid()
    {
      |written| - read
    }

    function Room(): nat
      requires Valid()
    {
      capacity - Buffered()
    }

    predicate Eof() {
      ended && read == |written|
    }

    /** Accepts the longest prefix of `data` that fits. */
    function Write(data: seq<byte>): (s: Stream)
      requires Valid() && !ended
      ensures s.Valid() && written <= s.written && s.written <= written + data
      ensures |s.written| == |written| + |data| || s.Room() == 0
    {
      this.(written := written + if |data| <= Room() then data else data[..Room()])
    }

    function Pop(len: nat): (s: Stream)
      requires Valid() && len <= Buffered()
      ensures s.Valid() && s.Room() == Room() + len
    {
      this.(read := read + len)
    }

    function EndInput(): Stream {
      this.(ended := true)
    }

    function SetError(): Stream {
      this.(error := true)
    }
  }

  /** The remainder `x % m`, by subtraction. */
  function Mod(x: nat, m: nat): (r: nat)
    requires 0 < m
    ensures r < m
    ensures x < 2 * m ==> r == if x < m then x else x - m
  {
    if x < m then x else Mod(x - m, m)
  }

  /** The i-th byte round the circle from `head`. */
  function Slot(d: seq<byte>, head: nat, i: nat): byte
    requires head < |d| && i < |d|
  {
    if head + i < |d| then d[head + i] else d[head + i - |d|]
  }

  /** The `n` bytes of the circular array `d` from `head` on. */
  function Unroll(d: seq<byte>, head: nat, n: nat): (s: seq<byte>)
    requires head < |d| && n <= |d|
    ensures |s| == n
    ensures forall i :: 0 <= i < n ==> s[i] == Slot(d, head, i)
  {
    seq(n, i requires 0 <= i < n => Slot(d, head, i))
  }

  /** Writing `x` behind the `n` bytes of a circular array appends it. */
  lemma UnrollAppend(d: seq<byte>, d': seq<byte>, head: nat, n: nat, x: seq<byte>)
    requires |d'| == |d| && head < |d| && n + |x| <= |d|
    requires forall i :: 0 <= i < n ==> Slot(d', head, i) == Slot(d, head, i)
    requires forall i :: 0 <= i < |x| ==> Slot(d', head, n + i) == x[i]
    ensures Unroll(d', head, n + |x|) == Unroll(d, head, n) + x
  {
    forall i | 0 <= i < n + |x|
      ensures Unroll(d', head, n + |x|)[i] == (Unroll(d, head, n) + x)[i]
    {
      if i >= n { assert Slot(d', head, n + (i - n)) == x[i - n]; }
    }
  }

  lemma UnrollDrop(d: seq<byte>, head: nat, head': nat, n: nat, len: nat)
    requires head < |d| && head' < |d| && len <= n <= |d|
    requires head' == if head + len < |d| then head + len else head + len - |d|
    ensures Unroll(d, head', n - len) == Unroll(d, head, n)[len..]
  {
    forall i | 0 <= i < n - len
      ensures Unroll(d, head', n - len)[i] == Unroll(d, head, n)[len..][i]
    {
      assert Slot(d, head', i) == Slot(d, head, len + i);
    }
  }

  /** A circular array; `full` separates the two readings of `head == tail`. */
  class RingBuffer {
    const data: array<byte>
    var head: nat
    var tail: nat
    var full: bool

    ghost predicate Valid()
      reads this
    {
      head < data.Length && tail < data.Length && (full ==> head == tail)
    }

    function Capacity(): nat {
      data.Length
    }

    function Size(): (n: nat)
      requires Valid()
      reads this
      ensures n == if full then data.Length else if tail >= head then tail - head else tail - head + data.Length
    {
      if full then data.Length else Mod(tail - head + data.Length, data.Length)
    }

    function RemainingSize(): nat
      requires Valid()
      reads this
    {
      data.Length - Size()
    }

    /** The queue the array represents, oldest byte first. */
    ghost function Contents(): seq<byte>
      requires Valid()
      reads this, data
    {
      Unroll(data[..], head, Size())
    }

    constructor (capacity: nat)
      requires 0 < capacity
      ensures Valid() && Contents() == [] && Capacity() == capacity
      ensures fresh(data)
    {
      data := new byte[capacity];
      head, tail, full := 0, 0, false;
    }

    method PushBack(d: seq<byte>, len: nat)
      requires Valid()
      requires len <= RemainingSize() && len <= |d|
      modifies this, data
      ensures Valid()
      ensures Contents() == old(Contents()) + d[..len]
    {
      ghost var size, was := Size(), data[..];
      WriteBack(d, len);
      UnrollAppend(was, data[..], head, size, d[..len]);
      tail := Mod(tail + len, data.Length);
      if tail == head && len > 0 {
        full := true;
      }
    }

    /** The one or two copies behind the queue. */
    method WriteBack(d: seq<byte>, len: nat)
      requires Valid()
      requires len <= RemainingSize() && len <= |d|
      modifies data
      ensures forall i :: 0 <= i < Size() ==> Slot(data[..], head, i) == old(Slot(data[..], head, i))
      ensures forall i :: 0 <= i < len ==> Slot(data[..], head, Size() + i) == d[..len][i]
    {
      if tail >= head {
        var tailRemaining := data.Length - tail;
        if tailRemaining >= len {
          Copy(tail, d, 0, len);
        } else {
          Copy(tail, d, 0, tailRemaining);
          Copy(0, d, tailRemaining, len - tailRemaining);
        }
      } else {
        Copy(tail, d, 0, len);
      }
    }

    /** memcpy into the array. */
    method Copy(at: nat, d: seq<byte>, start: nat, n: nat)
      requires at + n <= data.Length && start + n <= |d|
      modifies data
      ensures forall k :: 0 <= k < data.Length ==>
                data[k] == if at <= k < at + n then d[start + (k - at)] else old(data[k])
    {
      forall k | at <= k < at + n {
        data[k] := d[start + (k - at)];
      }
    }

    method PopFront(len: nat)
      requires Valid()
      requires len <= Size()
      modifies this
      ensures Valid()
      ensures Contents() == old(Contents())[len..]
    {
      UnrollDrop(data[..], head, Mod(head + len, data.Length), Size(), len);
      head := Mod(head + len, data.Length);
      if len > 0 {
        full := false;
      }
    }

    method PeekFront(len: nat) returns (result: seq<byte>)
      requires Valid()
      requires len <= Size()
      ensures result == Contents()[..len]
    {
      if tail >= head && !full {
        result := data[head..head + len];
      } else {
        var headRemaining := data.Length - head;
        if headRemaining >= len {
          result := data[head..head + len];
        } else {
          result := data[head..] + data[..len - headRemaining];
        }
      }
    }
  }

  /** The stream object. The two byte counters and the sticky `eof` flag are real fields; `history`
      remembers the accepted bytes for the specification. */
  class ByteStream {
    const buf: RingBuffer
    var error: bool
    var bytesWritten: nat
    var bytesRead: nat
    var inputEnded: bool
    var eof: bool
    ghost var history: seq<byte>

    ghost function Repr(): set<object> {
      {this, buf, buf.data}
    }

    ghost predicate Valid()
      reads Repr()
    {
      && buf.Valid()
      && bytesWritten == |history|
      && bytesRead <= bytesWritten
      && buf.Contents() == history[bytesRead..]
      && (eof <==> inputEnded && bytesRead == bytesWritten)
    }

    ghost function State(): (s: Stream)
      requires Valid()
      reads Repr()
      ensures s.Valid()
    {
      Stream(buf.Capacity(), history, bytesRead, inputEnded, error)
    }

    constructor (capacity: nat)
      requires 0 < capacity
      ensures Valid() && fresh(Repr())
      ensures State() == Stream(capacity, [], 0, false, false)
    {
      buf := new RingBuffer(capacity);
      error, bytesWritten, bytesRead, inputEnded, eof := false, 0, 0, false, false;
      history := [];
    }

    method Write(data: seq<byte>) returns (count: nat)
      requires Valid() && !inputEnded
      modifies Repr()
      ensures Valid()
      ensures State() == old(State()).Write(data)
      ensures count == |State().written| - |old(State()).written|
    {
      if |data| <= buf.RemainingSize() {
        count := |data|;
      } else {
        count := buf.RemainingSize();
      }
      assert data[..|data|] == data;
      Append(data, count);
    }

    method Append(data: seq<byte>, count: nat)
      requires Valid() && !inputEnded && count <= |data| && count <= buf.RemainingSize()
      modifies Repr()
      ensures Valid()
      ensures State() == old(State()).(written := old(history) + data[..count])
    {
      DropAppend(history, bytesRead, data[..count]);
      buf.PushBack(data, count);
      bytesWritten := bytesWritten + count;
      history := history + data[..count];
    }

    method PeekOutput(len: nat) returns (result: seq<byte>)
      requires Valid() && len <= State().Buffered()
      ensures result == State().written[State().read..State().read + len]
    {
      result := buf.PeekFront(len);
    }

    method PopOutput(len: nat)
      requires Valid() && len <= State().Buffered()
      modifies Repr()
      ensures Valid()
      ensures State() == old(State()).Pop(len)
    {
      assert history[bytesRead..][len..] == history[bytesRead + len..];
      buf.PopFront(len);
      bytesRead := bytesRead + len;
      assert buf.Contents() == history[bytesRead..];
      if BufferEmpty() && inputEnded {
        assert bytesRead == bytesWritten;
        eof := true;
      }
    }

    /** At the end of the stream a read answers the empty string whatever length is asked. */
    method Read(len: nat) returns (result: seq<byte>)
      requires Valid() && (State().Eof() || len <= State().Buffered())
      modifies Repr()
      ensures Valid()
      ensures old(State()).Eof() ==> result == [] && State() == old(State())
      ensures !old(State()).Eof() ==>
                && State() == old(State()).Pop(len)
                && result == State().written[old(State()).read..State().read]
    {
      if eof {
        return [];
      }
      result := PeekOutput(len);
      PopOutput(len);
    }

    method EndInput()
      requires Valid()
      modifies Repr()
      ensures Valid()
      ensures State() == old(State()).EndInput()
    {
      if BufferEmpty() {
        eof := true;
      }
      inputEnded := true;
    }

    method SetError()
      requires Valid()
      modifies Repr()
      ensures Valid()
      ensures State() == old(State()).SetError()
    {
      error := true;
    }

    function BufferSize(): (n: nat)
      requires Valid()
      reads Repr()
      ensures n == State().Buffered() == bytesWritten - bytesRead
    {
      buf.Size()
    }

    predicate BufferEmpty()
      requires buf.Valid()
      reads this, buf
    {
      buf.Size() == 0
    }

    function RemainingCapacity(): (n: nat)
      requires Valid()
      reads Repr()
      ensures n == State().Room()
    {
      buf.RemainingSize()
    }
  }
}
