/** Reading and writing integers in network byte order. */
module Parsing {
  import opened ByteStreams
  import opened WrappingIntegers

  datatype ParseResult = NoError | BadChecksum | PacketTooShort | WrongIpVersion | HeaderTooShort
                       | TruncatedPacket | Unsupported

  datatype Option<T> = None | Some(value: T)

  function Zeros(n: nat): (s: seq<byte>)
    ensures |s| == n
  {
    seq(n, _ => 0)
  }

  // ---- integers as bytes ----

  /** The number the bytes write, most significant byte first. */
  function FromBytes(s: seq<byte>): nat {
    if s == [] then 0 else FromBytes(s[..|s| - 1]) * 256 + s[|s| - 1]
  }

  /** The low `len` bytes of `val`, most significant first. */
  function ToBytes(val: nat, len: nat): (s: seq<byte>)
    ensures |s| == len
  {
    if len == 0 then [] else ToBytes(val / 256, len - 1) + [val % 256]
  }

  lemma TwoBytes(v: u16)
    ensures ToBytes(v, 2) == [v / 256, v % 256]
  {
    assert ToBytes(v / 256, 1) == ToBytes(v / 256 / 256, 0) + [v / 256];
  }

  function Pow256(k: nat): nat {
    if k == 0 then 1 else 256 * Pow256(k - 1)
  }

  lemma {:induction false} FromBytesFits(s: seq<byte>)
    ensures FromBytes(s) < Pow256(|s|)
  {
    if s != [] { FromBytesFits(s[..|s| - 1]); }
  }

  /** Writing a number that fits and reading it back gives the number. */
  lemma {:induction false} BytesBack(val: nat, len: nat)
    requires val < Pow256(len)
    ensures FromBytes(ToBytes(val, len)) == val
  {
    if len > 0 {
      BytesBack(val / 256, len - 1);
      assert ToBytes(val, len)[..len - 1] == ToBytes(val / 256, len - 1);
    }
  }

  /** A shift to the right by whole bytes. */
  function Shifted(val: nat, bytes: nat): nat {
    if bytes == 0 then val else Shifted(val, bytes - 1) / 256
  }

  // ---- the parser ----

  /** What is left to parse, and the error so far. */
  datatype Parser = Parser(buffer: seq<byte>, error: ParseResult) {

    function CheckSize(len: nat): Parser {
      if len > |buffer| then this.(error := PacketTooShort) else this
    }

    function Failed(): bool {
      error != NoError
    }

    /** The next `len`-byte integer, 0 after an error. */
    function Int(len: nat): nat {
      if CheckSize(len).Failed() then 0 else FromBytes(buffer[..len])
    }

    function U8(): byte {
      IntFits(this, 1);
      Int(1)
    }

    function U16(): u16 {
      IntFits(this, 2);
      Int(2)
    }

    function U32(): u32 {
      IntFits(this, 4);
      Int(4)
    }

    function Skip(len: nat): Parser {
      if CheckSize(len).Failed() then CheckSize(len) else this.(buffer := buffer[len..])
    }
  }

  /** An integer read never exceeds its width, so the accumulator never wraps. */
  lemma IntFits(p: Parser, len: nat)
    ensures p.Int(len) < Pow256(len)
    ensures Pow256(1) == 0x100 && Pow256(2) == 0x1_0000 && Pow256(4) == 0x1_0000_0000
  {
    Widths();
    PowPositive(len);
    if !p.CheckSize(len).Failed() { FromBytesFits(p.buffer[..len]); }
  }

  lemma Widths()
    ensures Pow256(1) == 0x100 && Pow256(2) == 0x1_0000 && Pow256(4) == 0x1_0000_0000
  {
    assert Pow256(2) == 256 * Pow256(1) && Pow256(3) == 256 * Pow256(2) && Pow256(4) == 256 * Pow256(3);
  }

  lemma {:induction false} PowPositive(k: nat)
    ensures Pow256(k) > 0
  {
    if k > 0 { PowPositive(k - 1); }
  }

  class NetParser {
    var buffer: seq<byte>
    var error: ParseResult

    ghost function State(): Parser
      reads this
    {
      Parser(buffer, error)
    }

    constructor (buffer: seq<byte>)
      ensures State() == Parser(buffer, NoError)
    {
      this.buffer, error := buffer, NoError;
    }

    method CheckSize(size: nat)
      modifies this`error
      ensures State() == old(State()).CheckSize(size)
    {
      if size > |buffer| {
        error := PacketTooShort;
      }
    }

    method ParseInt(len: nat) returns (ret: nat)
      modifies this
      ensures ret == old(State()).Int(len) && State() == old(State()).Skip(len)
    {
      CheckSize(len);
      if error != NoError {
        return 0;
      }
      ret := 0;
      for i := 0 to len
        invariant ret == FromBytes(buffer[..i])
        invariant State() == old(State())
      {
        ret := ret * 256 + buffer[i];
        assert buffer[..i + 1][..i] == buffer[..i];
      }
      buffer := buffer[len..];
    }

    method U8() returns (ret: byte)
      modifies this
      ensures ret == old(State()).U8() && State() == old(State()).Skip(1)
    {
      IntFits(State(), 1);
      ret := ParseInt(1);
    }

    method U16() returns (ret: u16)
      modifies this
      ensures ret == old(State()).U16() && State() == old(State()).Skip(2)
    {
      IntFits(State(), 2);
      ret := ParseInt(2);
    }

    method U32() returns (ret: u32)
      modifies this
      ensures ret == old(State()).U32() && State() == old(State()).Skip(4)
    {
      IntFits(State(), 4);
      ret := ParseInt(4);
    }

    method RemovePrefix(n: nat)
      modifies this
      ensures State() == old(State()).Skip(n)
    {
      CheckSize(n);
      if error != NoError {
        return;
      }
      buffer := buffer[n..];
    }
  }

  /** Appends the bytes of `val`, most significant first. */
  method UnparseInt(s: seq<byte>, val: nat, len: nat) returns (r: seq<byte>)
    ensures r == s + ToBytes(val, len)
  {
    r := s;
    for i := 0 to len
      invariant r == s + ToBytes(Shifted(val, len - i), i)
    {
      r := r + [Shifted(val, len - i - 1) % 256];
    }
  }

  /** What was written last-to-first is read first-to-last. */
  lemma IntBack(val: nat, len: nat, rest: seq<byte>)
    requires val < Pow256(len)
    ensures var p := Parser(ToBytes(val, len) + rest, NoError);
            p.Int(len) == val && p.Skip(len) == Parser(rest, NoError)
  {
    BytesBack(val, len);
    assert (ToBytes(val, len) + rest)[..len] == ToBytes(val, len);
    assert (ToBytes(val, len) + rest)[len..] == rest;
  }
}
