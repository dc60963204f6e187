/** 32-bit sequence numbers and their translation to and from 64-bit absolute numbers. */
module WrappingIntegers {

  const TWO32 := 0x1_0000_0000
  const TWO64 := 0x1_0000_0000_0000_0000

  type u16 = x: int | 0 <= x < 0x1_0000
  type u32 = x: int | 0 <= x < 0x1_0000_0000
  type u64 = x: int | 0 <= x < 0x1_0000_0000_0000_0000

  /** The relative number of absolute position `n`: `isn` plus the low 32 bits of `n`, wrapping. */
  function Wrap(n: nat, isn: u32): u32 {
    (isn + n % TWO32) % TWO32
  }

  function Dist(x: int, y: int): nat {
    if x > y then x - y else y - x
  }

  /** Decodes `n` around `checkpoint`; the two neighbour candidates wrap at 64 bits. */
  function Unwrap(n: u32, isn: u32, checkpoint: u64): u64 {
    var offset := (n - isn) % TWO32;
    var base := checkpoint / TWO32 * TWO32;
    var guess := base + offset;
    var below := (guess - TWO32) % TWO64;
    var above := (guess + TWO32) % TWO64;
    if guess > checkpoint && Dist(below, checkpoint) < Dist(guess, checkpoint) then below
    else if guess < checkpoint && Dist(above, checkpoint) < Dist(guess, checkpoint) then above
    else guess
  }

  /** Two absolute numbers have the same relative number exactly when they agree modulo 2^32. */
  lemma WrapCongruence(v: nat, w: nat, isn: u32)
    ensures Wrap(v, isn) == Wrap(w, isn) <==> v % TWO32 == w % TWO32
  {
  }

  lemma OffsetWraps(n: u32, isn: u32, base: nat)
    requires base % TWO32 == 0
    ensures Wrap(base + (n - isn) % TWO32, isn) == n
  {
  }

  /** Absolute numbers with the same relative number are equal or at least 2^32 apart. */
  lemma CongruentApart(v: nat, w: nat)
    requires v % TWO32 == w % TWO32
    ensures v == w || v >= w + TWO32 || w >= v + TWO32
  {
  }

  lemma Neighbours(guess: u64)
    ensures (guess - TWO32) % TWO64 == if guess >= TWO32 then guess - TWO32 else guess - TWO32 + TWO64
    ensures (guess + TWO32) % TWO64 == if guess + TWO32 < TWO64 then guess + TWO32 else guess + TWO32 - TWO64
  {
  }

  lemma BlockOf(checkpoint: u64, offset: u32)
    ensures var base := checkpoint / TWO32 * TWO32;
            && base % TWO32 == 0 && base <= checkpoint < base + TWO32
            && base + offset < TWO64 && (base + offset) / TWO32 == checkpoint / TWO32
  {
  }

  /** The decision of `unwrap` in plain integers: the candidate `g` of the checkpoint's block, or a
      neighbour that is in range and nearer by more than half a period. */
  lemma UnwrapCases(n: u32, isn: u32, checkpoint: u64) returns (g: u64)
    ensures Wrap(g, isn) == n && g / TWO32 == checkpoint / TWO32 && Dist(g, checkpoint) < TWO32
    ensures Unwrap(n, isn, checkpoint) ==
            if g >= TWO32 && 2 * (g - checkpoint) > TWO32 then g - TWO32
            else if g + TWO32 < TWO64 && 2 * (checkpoint - g) > TWO32 then g + TWO32
            else g
  {
    var offset := (n - isn) % TWO32;
    var base := checkpoint / TWO32 * TWO32;
    BlockOf(checkpoint, offset);
    g := base + offset;
    OffsetWraps(n, isn, base);
    Neighbours(g);
  }

  /** The result wraps back to `n`. */
  lemma UnwrapWraps(n: u32, isn: u32, checkpoint: u64)
    ensures Wrap(Unwrap(n, isn, checkpoint), isn) == n
  {
    var g := UnwrapCases(n, isn, checkpoint);
    WrapCongruence(g, Unwrap(n, isn, checkpoint), isn);
  }

  /** `unwrap` answers with a nearest candidate: for every 64-bit checkpoint, no other 64-bit
      number with the same relative number is closer. */
  lemma UnwrapNearest(n: u32, isn: u32, checkpoint: u64, v: u64)
    requires Wrap(v, isn) == n
    ensures Dist(Unwrap(n, isn, checkpoint), checkpoint) <= Dist(v, checkpoint)
  {
    var g := UnwrapCases(n, isn, checkpoint);
    WrapCongruence(g, v, isn);
    CongruentApart(g, v);
  }

  /** The round trip: a number less than 2^31 from the checkpoint is recovered exactly. */
  lemma UnwrapWrap(v: u64, isn: u32, checkpoint: u64)
    requires Dist(v, checkpoint) < 0x8000_0000
    ensures Unwrap(Wrap(v, isn), isn, checkpoint) == v
  {
    var n := Wrap(v, isn);
    UnwrapNearest(n, isn, checkpoint, v);
    UnwrapWraps(n, isn, checkpoint);
    WrapCongruence(Unwrap(n, isn, checkpoint), v, isn);
    CongruentApart(Unwrap(n, isn, checkpoint), v);
  }

  /** `v` is preferred over `w`: strictly nearer, or as near and in the checkpoint's own block. */
  predicate Preferred(v: int, w: int, checkpoint: u64) {
    Dist(v, checkpoint) < Dist(w, checkpoint) ||
    (Dist(v, checkpoint) == Dist(w, checkpoint) && v / TWO32 == checkpoint / TWO32)
  }

  /** Exactly when decoding recovers `v`: it is preferred over each 64-bit number 2^32 away. */
  lemma UnwrapWrapExactly(v: u64, isn: u32, checkpoint: u64)
    ensures Unwrap(Wrap(v, isn), isn, checkpoint) == v <==>
            (v + TWO32 < TWO64 ==> Preferred(v, v + TWO32, checkpoint)) &&
            (v >= TWO32 ==> Preferred(v, v - TWO32, checkpoint))
  {
    var g := UnwrapCases(Wrap(v, isn), isn, checkpoint);
    WrapCongruence(g, v, isn);
    CongruentApart(g, v);
    assert v != g ==> v / TWO32 != g / TWO32;
  }

  /** Decoding the same number again around the answer changes nothing. */
  lemma UnwrapStable(n: u32, isn: u32, checkpoint: u64)
    ensures Unwrap(n, isn, Unwrap(n, isn, checkpoint)) == Unwrap(n, isn, checkpoint)
  {
    UnwrapWraps(n, isn, checkpoint);
    UnwrapWrap(Unwrap(n, isn, checkpoint), isn, Unwrap(n, isn, checkpoint));
  }
}
