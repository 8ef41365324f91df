/** The bytes of a precompiled chunk. */
module ChunkBytes {
  import opened Wrappers
  import opened Prototypes
  import opened ChunkFormat

  lemma Base256(w: nat)
    ensures w / 0x1_0000 == w / 0x100 / 0x100 && w / 0x100_0000 == w / 0x100 / 0x100 / 0x100
  {
  }

  /** A word is written with its least significant byte first. */
  lemma WordBytes(w: Word)
    ensures var b := PutWord(w); w == b[0] as int + 256 * b[1] as int + 65536 * b[2] as int + 16777216 * b[3] as int
    ensures WordAt(PutWord(w)) == w
  {
    var x := w / 0x100;
    var y := x / 0x100;
    var z := y / 0x100;
    Base256(w);
    assert w == 256 * x + w % 256 && x == 256 * y + x % 256 && y == 256 * z + y % 256;
    assert z < 256;
    hide WordAt;
    assert PutWord(w) == [w % 256, x % 256, y % 256, z];
    WordAtIs(w % 256, x % 256, y % 256, z);
  }

  lemma WordAtIs(a: Byte, b: Byte, c: Byte, d: Byte)
    ensures WordAt([a, b, c, d]) == a as int + 0x100 * b as int + 0x1_0000 * c as int + 0x100_0000 * d as int
  {
  }

  /** A negative int is written in two's complement. */
  lemma IntBytes(i: Int32)
    ensures WordAt(PutInt(i)) == if i < 0 then i + 0x1_0000_0000 else i
  {
    WordBytes(if i < 0 then i + 0x1_0000_0000 else i);
  }

  /** A constant is a byte for its type, as lua.h numbers the types, and its value. */
  lemma ConstBytes(b: bool, bits: Num, t: seq<Byte>)
    ensures PutConst(KNil) == [0] && PutConst(KBool(b)) == [1, if b then 1 else 0]
    ensures PutConst(KNum(bits)) == [3] + bits
    ensures PutConst(KStr(None)) == [4, 0, 0, 0, 0]
    ensures |t| < 255 ==> PutConst(KStr(Some(t))) == [4, |t| + 1, 0, 0, 0] + t + [0]
  {
    assert PutString(None) == [0, 0, 0, 0];
    if |t| < 255 {
      assert PutCount(|t| + 1) == [|t| + 1, 0, 0, 0];
      assert PutConst(KStr(Some(t))) == [4] + ([|t| + 1, 0, 0, 0] + (t + [0]));
    }
  }

  /** ... and read back from any bytes: a boolean is true unless its byte is zero, and other types are an error. */
  lemma ConstRead(t: Byte, v: Byte, bits: Num, rest: seq<Byte>)
    ensures GetConst([0] + rest) == Success((KNil, rest))
    ensures GetConst([1, v] + rest) == Success((KBool(v != 0), rest))
    ensures GetConst([3] + (bits + rest)) == Success((KNum(bits), rest))
    ensures t !in {0, 1, 3, 4} ==> GetConst([t] + rest) == Failure(BadConstant)
    ensures GetConst([]) == Failure(UnexpectedEnd)
  {
    assert ([0] + rest)[1..] == rest;
    assert ([1, v] + rest)[1..] == [v] + rest && ([v] + rest)[1..] == rest;
    assert ([3] + (bits + rest))[1..] == bits + rest && (bits + rest)[..8] == bits && (bits + rest)[8..] == rest;
  }

  /** A function that returns at once, with a constant of each type. */
  function Sample(): Proto {
    Proto(Some([64, 97]), 1, 2, 0, 0, 2, 3, [30 + 0x80_0000],
          [KNil, KBool(true), KNum([1, 2, 3, 4, 5, 6, 7, 8]), KStr(Some([120]))],
          [], [-1], [LocVar(Some([121]), 0, 1)], [Some([122])])
  }

  function SampleHead(): seq<Byte> {
    [27, 76, 117, 97, 81, 0, 1, 4, 4, 4, 8, 0]
    + [3, 0, 0, 0, 64, 97, 0] + [1, 0, 0, 0] + [2, 0, 0, 0] + [0, 0, 2, 3]
  }

  function SampleBody(): seq<Byte> {
    [1, 0, 0, 0, 30, 0, 128, 0]
    + [4, 0, 0, 0] + [0] + [1, 1] + [3, 1, 2, 3, 4, 5, 6, 7, 8] + [4, 2, 0, 0, 0, 120, 0]
    + [0, 0, 0, 0]
  }

  function SampleDebug(): seq<Byte> {
    [1, 0, 0, 0, 255, 255, 255, 255]
    + [1, 0, 0, 0] + [2, 0, 0, 0, 121, 0] + [0, 0, 0, 0] + [1, 0, 0, 0]
    + [1, 0, 0, 0] + [2, 0, 0, 0, 122, 0]
  }

  lemma {:induction false} OneElement<T(!new)>(x: T, put: T -> seq<Byte>)
    ensures PutVector([x], put) == [1, 0, 0, 0] + put(x)
  {
    assert [x][..0] == [];
    assert PutAll([x], put) == PutAll([x][..0], put) + put(x) == put(x);
    assert PutCount(1) == [1, 0, 0, 0];
  }

  lemma SampleConstants()
    ensures PutVector(Sample().k, PutConst) ==
            [4, 0, 0, 0] + [0] + [1, 1] + [3, 1, 2, 3, 4, 5, 6, 7, 8] + [4, 2, 0, 0, 0, 120, 0]
  {
    var k := Sample().k;
    ConstBytes(true, [1, 2, 3, 4, 5, 6, 7, 8], [120]);
    hide PutConst;
    assert k[..3][..2] == k[..2] && k[..2][..1] == k[..1] && k[..1][..0] == [];
    assert PutAll(k[..1], PutConst) == PutAll([], PutConst) + PutConst(KNil) == [0];
    assert PutAll(k[..2], PutConst) == [0] + [1, 1];
    assert PutAll(k[..3], PutConst) == [0] + [1, 1] + ([3] + [1, 2, 3, 4, 5, 6, 7, 8]);
    assert PutAll(k, PutConst) == PutAll(k[..3], PutConst) + ([4, 2, 0, 0, 0] + [120] + [0]);
  }

  lemma SampleStrings()
    ensures PutString(Some([64, 97])) == [3, 0, 0, 0, 64, 97, 0]
    ensures PutString(Some([121])) == [2, 0, 0, 0, 121, 0] && PutString(Some([122])) == [2, 0, 0, 0, 122, 0]
    ensures PutInt(-1) == [255, 255, 255, 255] && PutInt(0) == PutCount(0) == [0, 0, 0, 0]
    ensures PutInt(1) == [1, 0, 0, 0] && PutInt(2) == [2, 0, 0, 0]
    ensures PutInstruction(30 + 0x80_0000) == [30, 0, 128, 0]
  {
    assert PutCount(3) == [3, 0, 0, 0] && PutCount(2) == [2, 0, 0, 0];
  }

  lemma SampleHeads()
    ensures HEADER + PutHead(Sample(), None, false) == SampleHead()
  {
    SampleStrings();
    hide PutString, PutInt;
  }

  lemma SampleDebugs()
    ensures PutDebug(Sample()) == SampleDebug()
  {
    SampleStrings();
    OneElement<Int32>(-1, PutInt);
    OneElement(LocVar(Some([121]), 0, 1), PutLocVar);
    OneElement(Some([122]), PutString);
    hide PutString, PutInt, PutVector;
    assert PutLocVar(LocVar(Some([121]), 0, 1)) == [2, 0, 0, 0, 121, 0] + [0, 0, 0, 0] + [1, 0, 0, 0];
  }

  lemma SampleBodies()
    ensures PutVector(Sample().code, PutInstruction) + PutVector(Sample().k, PutConst) + PutCount(0) == SampleBody()
  {
    SampleStrings();
    SampleConstants();
    OneElement<Word>(30 + 0x80_0000, PutInstruction);
    hide PutVector, PutInstruction, PutCount;
  }

  lemma Regroup(h: seq<Byte>, head: seq<Byte>, code: seq<Byte>, k: seq<Byte>, n: seq<Byte>, d: seq<Byte>)
    ensures h + (head + code + k + n + [] + d) == h + head + (code + k + n) + d
  {
    var body := code + k + n;
    assert head + code + k + n + [] == head + body;
    assert h + (head + body + d) == h + head + body + d;
  }

  lemma SampleParts(f: Proto)
    requires f.p == []
    ensures PutFunction(f, None, false) ==
      PutHead(f, None, false) + PutVector(f.code, PutInstruction) + PutVector(f.k, PutConst) + PutCount(0) + [] +
        PutDebug(f)
  {
    hide PutHead, PutVector, PutDebug, PutCount;
    assert PutChildren(f, 0, false) == [];
  }

  /** The chunk of that function, byte by byte: header, source and line numbers, counts of upvalues and parameters,
      vararg flag and frame size, code, constants, inner functions, debug information. */
  lemma SampleChunk()
    ensures PutChunk(Sample(), false) == SampleHead() + SampleBody() + SampleDebug()
  {
    var f := Sample();
    SampleHeads();
    SampleDebugs();
    SampleBodies();
    SampleParts(f);
    Regroup(HEADER, PutHead(f, None, false), PutVector(f.code, PutInstruction), PutVector(f.k, PutConst), PutCount(0),
            PutDebug(f));
    hide PutHead, PutVector, PutDebug, PutCount, SampleHead, SampleBody, SampleDebug, PutFunction;
  }
}
