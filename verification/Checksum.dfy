/** The Internet checksum (RFC 1071): a 32-bit running sum of 16-bit words, folded and complemented. */
module Checksums {
  import opened ByteStreams
  import opened WrappingIntegers

  /** A byte as half of a 16-bit word in network order. */
  function Half(b: byte, low: bool): u16 {
    if low then b else (b as int) * 256
  }

  /** The running sum, and whether the next byte is the low half of a word. */
  datatype Sum = Sum(total: u32, parity: bool) {

    function AddByte(b: byte): Sum {
      Sum((total + Half(b, parity)) % TWO32, !parity)
    }

    function Add(data: seq<byte>): Sum
      decreases |data|
    {
      if data == [] then this else AddByte(data[0]).Add(data[1..])
    }

    function Value(): u16 {
      0xffff - Fold(total)
    }
  }

  /** Adds the upper half to the lower half until 16 bits are enough. */
  function Fold(x: nat): u16 {
    if x <= 0xffff then x else Fold(x / 0x10000 + x % 0x10000)
  }

  class InternetChecksum {
    var sum: u32
    var parity: bool

    ghost function State(): Sum
      reads this
    {
      Sum(sum, parity)
    }

    constructor (initialSum: u32)
      ensures State() == Sum(initialSum, false)
    {
      sum, parity := initialSum, false;
    }

    method Add(data: seq<byte>)
      modifies this
      ensures State() == old(State()).Add(data)
    {
      for i := 0 to |data|
        invariant State().Add(data[i..]) == old(State()).Add(data)
      {
        var val: u16 := data[i];
        if !parity {
          val := val * 256;
        }
        sum := (sum + val) % TWO32;
        parity := !parity;
        assert data[i..][1..] == data[i + 1..];
      }
    }

    method Value() returns (v: u16)
      ensures v == State().Value()
    {
      var ret: nat := sum;
      while ret > 0xffff
        invariant Fold(ret) == Fold(sum)
      {
        ret := ret / 0x10000 + ret % 0x10000;
      }
      v := 0xffff - ret;
    }
  }

  // ---- chunks ----

  /** Adding in chunks, cut anywhere, is adding the whole. */
  lemma {:induction false} AddChunks(c: Sum, a: seq<byte>, b: seq<byte>)
    ensures c.Add(a + b) == c.Add(a).Add(b)
    decreases |a|
  {
    if a == [] {
      assert a + b == b;
    } else {
      AddChunks(c.AddByte(a[0]), a[1..], b);
      assert (a + b)[1..] == a[1..] + b;
    }
  }

  // ---- the sum without a bound ----

  /** The bytes as 16-bit words in network order, added up without a bound. */
  function WordSum(data: seq<byte>, parity: bool): nat
    decreases |data|
  {
    if data == [] then 0 else Half(data[0], parity) + WordSum(data[1..], !parity)
  }

  predicate Parity(data: seq<byte>, parity: bool) {
    if |data| % 2 == 0 then parity else !parity
  }

  lemma {:induction false} WordSumAppend(a: seq<byte>, b: seq<byte>, parity: bool)
    ensures WordSum(a + b, parity) == WordSum(a, parity) + WordSum(b, Parity(a, parity))
    decreases |a|
  {
    if a == [] {
      assert a + b == b;
    } else {
      WordSumAppend(a[1..], b, !parity);
      assert (a + b)[1..] == a[1..] + b;
    }
  }

  lemma AddMod(x: nat, y: nat)
    ensures (x % TWO32 + y) % TWO32 == (x + y) % TWO32
  {
  }

  /** The running sum is that sum, modulo 2^32. */
  lemma {:induction false} AddIsSum(c: Sum, data: seq<byte>)
    ensures c.Add(data) == Sum((c.total + WordSum(data, c.parity)) % TWO32, Parity(data, c.parity))
    decreases |data|
  {
    if data != [] {
      var v, rest := Half(data[0], c.parity), WordSum(data[1..], !c.parity);
      AddIsSum(c.AddByte(data[0]), data[1..]);
      AddMod(c.total + v, rest);
      assert WordSum(data, c.parity) == v + rest;
      assert c.total + v + rest == c.total + WordSum(data, c.parity);
    }
  }

  // ---- folding ----

  lemma ModShift(a: nat, h: nat)
    ensures (a + 0xffff * h) % 0xffff == a % 0xffff
  {
    var q, r := a / 0xffff, a % 0xffff;
    assert a + 0xffff * h == 0xffff * (q + h) + r;
  }

  /** Folding is one's-complement reduction: the remainder modulo 65535, with 65535 for the non-zero multiples. */
  lemma {:induction false} FoldIs(x: nat)
    ensures Fold(x) == if x == 0 then 0 else (x - 1) % 0xffff + 1
    decreases x
  {
    if x > 0xffff {
      var h, l := x / 0x10000, x % 0x10000;
      FoldIs(h + l);
      ModShift(h + l - 1, h);
      assert x - 1 == (h + l - 1) + 0xffff * h;
    }
  }

  /** The check passes exactly for the non-zero sums divisible by 65535. */
  lemma ValueZero(c: Sum)
    ensures c.Value() == 0 <==> c.total > 0 && c.total % 0xffff == 0
  {
    FoldIs(c.total);
    if c.total > 0 {
      var q, r := (c.total - 1) / 0xffff, (c.total - 1) % 0xffff;
      assert c.total == 0xffff * q + (r + 1);
      if r + 1 == 0xffff { assert c.total == 0xffff * (q + 1); }
    }
  }

  // ---- inserting the complement ----

  /** Adding the checksum to its own sum gives a sum that passes; it never leaves 32 bits, because
      2^32 - 1 is a multiple of 65535. */
  lemma Complement(s: u32)
    ensures s + Sum(s, false).Value() < TWO32
    ensures Sum(s + Sum(s, false).Value(), false).Value() == 0
  {
    var v := Sum(s, false).Value();
    FoldIs(s);
    if s > 0 {
      var q := (s - 1) / 0xffff;
      assert s + v == 0xffff * (q + 1);
      assert q < 0x10001;
    }
    ValueZero(Sum(s + v, false));
  }

  lemma {:induction false} WordSumBound(data: seq<byte>, parity: bool)
    ensures WordSum(data, parity) <= 0xff00 * |data|
    decreases |data|
  {
    if data != [] { WordSumBound(data[1..], !parity); }
  }

  /** A message with a 16-bit field after an even number of bytes. */
  function WithField(pre: seq<byte>, field: u16, post: seq<byte>): seq<byte> {
    pre + [field / 256, field % 256] + post
  }

  lemma FieldSum(pre: seq<byte>, field: u16, post: seq<byte>)
    requires |pre| % 2 == 0
    ensures WordSum(WithField(pre, field, post), false) == WordSum(WithField(pre, 0, post), false) + field
  {
    FieldApart(pre, field, post);
    FieldApart(pre, 0, post);
  }

  lemma FieldApart(pre: seq<byte>, field: u16, post: seq<byte>)
    requires |pre| % 2 == 0
    ensures WordSum(WithField(pre, field, post), false) == WordSum(pre, false) + field + WordSum(post, false)
  {
    var bytes := [field / 256, field % 256];
    assert bytes[1..] == [field % 256];
    assert WordSum([field % 256], true) == field % 256;
    assert WordSum(bytes, false) == field;
    WordSumAppend(pre, bytes, false);
    WordSumAppend(pre + bytes, post, false);
  }

  /** The checksum computed over a message with a zero field and then put into the field makes the
      receiver's check pass: for every message, of even or odd length, and every initial sum. */
  lemma InsertComplement(initial: u32, pre: seq<byte>, post: seq<byte>)
    requires |pre| % 2 == 0
    ensures var s := Sum(initial, false).Add(WithField(pre, 0, post));
            Sum(initial, false).Add(WithField(pre, s.Value(), post)).Value() == 0
  {
    var s := Sum(initial, false).Add(WithField(pre, 0, post));
    var v := s.Value();
    var total := initial + WordSum(WithField(pre, 0, post), false);
    Complement(s.total);
    TotalIs(initial, WithField(pre, 0, post), total);
    Wrapped(total, v);
    FieldSum(pre, v, post);
    TotalIs(initial, WithField(pre, v, post), total + v);
  }

  lemma TotalIs(initial: u32, data: seq<byte>, total: nat)
    requires total == initial + WordSum(data, false)
    ensures Sum(initial, false).Add(data).total == total % TWO32
  {
    AddIsSum(Sum(initial, false), data);
  }

  lemma SmallMod(x: u32)
    ensures x % TWO32 == x
  {
  }

  lemma Wrapped(t: nat, v: u16)
    requires t % TWO32 + v < TWO32
    ensures (t + v) % TWO32 == t % TWO32 + v
  {
    AddMod(t, v);
  }

  lemma SumFits(initial: u32, data: seq<byte>)
    requires |data| <= 0xffff && initial < 0x10_0000
    ensures initial + WordSum(data, false) < TWO32
  {
    WordSumBound(data, false);
  }

  /** The checksum is the complement of the one's-complement sum of the message's words, for every
      message of up to 65535 bytes and every initial sum of 20 bits: nothing is lost to the 32 bits. */
  lemma ValueIsComplement(initial: u32, data: seq<byte>)
    requires |data| <= 0xffff && initial < 0x10_0000
    ensures var total := initial + WordSum(data, false);
            Sum(initial, false).Add(data).Value() == if total == 0 then 0xffff else 0xfffe - (total - 1) % 0xffff
  {
    var total := initial + WordSum(data, false);
    SumFits(initial, data);
    TotalIs(initial, data, total);
    SmallMod(total);
    FoldIs(total);
  }
}
