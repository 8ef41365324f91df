/** The mark byte: the bit tests of lgc.h and lgc.c read and write the colours of GcHeap.Mark. */
module GcBits {
  import opened GcHeap

  const WHITE0: bv8 := 0x01
  const WHITE1: bv8 := 0x02
  const BLACK: bv8 := 0x04
  const FIXED: bv8 := 0x20
  const WHITEBITS: bv8 := 0x03

  /** Bits the colours do not use: finalized or weak, super-fixed, and the top bit. */
  predicate Free(rest: bv8) { rest & 0x27 == 0 }

  function WhiteBit(w: bool): bv8 { if w then WHITE1 else WHITE0 }

  function Colour(m: Mark): bv8 {
    match m
    case White(w) => WhiteBit(w)
    case Gray => 0
    case Black => BLACK
  }

  function Encode(m: Mark, fixed: bool, rest: bv8): bv8 {
    Colour(m) | (if fixed then FIXED else 0) | rest
  }

  /** currentwhite, which also carries the fixed bit. */
  function CurrentWhiteByte(w: bool): bv8 { WhiteBit(w) | FIXED }

  /** iswhite, isblack and isgray. */
  lemma ColourTests(m: Mark, fixed: bool, rest: bv8)
    requires Free(rest)
    ensures var b := Encode(m, fixed, rest);
      && (b & WHITEBITS != 0 <==> m.White?)
      && (b & BLACK != 0 <==> m.Black?)
      && (b & BLACK == 0 && b & WHITEBITS == 0 <==> m.Gray?)
  {
    match m { case White(w) => case Gray => case Black => }
  }

  /** isdead tests for the other white. */
  lemma DeadTest(m: Mark, fixed: bool, rest: bv8, w: bool)
    requires Free(rest)
    ensures Encode(m, fixed, rest) & (CurrentWhiteByte(w) ^ WHITEBITS) & WHITEBITS != 0 <==> m == White(!w)
  {
    match m { case White(v) => case Gray => case Black => }
  }

  /** The test of sweeplist: otherwhite carries the fixed bit, so fixed objects survive. */
  lemma SweepTest(m: Mark, fixed: bool, rest: bv8, w: bool)
    requires Free(rest)
    ensures (Encode(m, fixed, rest) ^ WHITEBITS) & (CurrentWhiteByte(w) ^ WHITEBITS) == 0
       <==> m == White(!w) && !fixed
  {
    match m { case White(v) => case Gray => case Black => }
  }

  /** makewhite, white2gray, gray2black, black2gray and changewhite. */
  lemma Recolour(m: Mark, fixed: bool, rest: bv8, w: bool)
    requires Free(rest)
    ensures var b := Encode(m, fixed, rest);
      && (b & !(BLACK | WHITEBITS)) | (CurrentWhiteByte(w) & WHITEBITS) == Encode(White(w), fixed, rest)
      && (m.White? ==> b & !WHITEBITS == Encode(Gray, fixed, rest))
      && (m.Gray? ==> b | BLACK == Encode(Black, fixed, rest))
      && (m.Black? ==> b & !BLACK == Encode(Gray, fixed, rest))
      && (m == White(!w) ==> b ^ WHITEBITS == Encode(White(w), fixed, rest))
  {
    match m { case White(v) => case Gray => case Black => }
  }

  /** The flip at the end of atomic. */
  lemma FlipByte(w: bool)
    ensures CurrentWhiteByte(w) ^ WHITEBITS == CurrentWhiteByte(!w)
  {
  }
}
