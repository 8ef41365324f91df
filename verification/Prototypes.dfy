/** Function prototypes and the instruction words they hold. */
module Prototypes {
  import opened Wrappers

  type Byte = b: nat | b < 256
  type Word = w: nat | w < 0x1_0000_0000
  type Int32 = i: int | -0x8000_0000 <= i < 0x8000_0000

  /** A lua_Number, as the bytes that hold it. */
  type Num = s: seq<Byte> | |s| == 8 witness [0, 0, 0, 0, 0, 0, 0, 0]

  datatype Const = KNil | KBool(b: bool) | KNum(bits: Num) | KStr(s: Option<seq<Byte>>)

  datatype LocVar = LocVar(varname: Option<seq<Byte>>, startpc: Int32, endpc: Int32)

  datatype Proto = Proto(
    source: Option<seq<Byte>>,
    linedefined: Int32,
    lastlinedefined: Int32,
    nups: Byte,
    numparams: Byte,
    isVararg: Byte,
    maxstacksize: Byte,
    code: seq<Word>,
    k: seq<Const>,
    p: seq<Proto>,
    lineinfo: seq<Int32>,
    locvars: seq<LocVar>,
    upvalues: seq<Option<seq<Byte>>>)

  // ----- instruction fields

  function Op(w: Word): nat { w % 64 }
  function A(w: Word): nat { w / 64 % 256 }
  function C(w: Word): nat { w / 0x4000 % 512 }
  function B(w: Word): nat { w / 0x80_0000 % 512 }
  function Bx(w: Word): nat { w / 0x4000 % 0x4_0000 }
  function SBx(w: Word): int { Bx(w) - 131071 }

  const OP_MOVE: nat := 0
  const OP_LOADK: nat := 1
  const OP_LOADBOOL: nat := 2
  const OP_LOADNIL: nat := 3
  const OP_GETUPVAL: nat := 4
  const OP_GETGLOBAL: nat := 5
  const OP_GETTABLE: nat := 6
  const OP_SETGLOBAL: nat := 7
  const OP_SETUPVAL: nat := 8
  const OP_SETTABLE: nat := 9
  const OP_NEWTABLE: nat := 10
  const OP_SELF: nat := 11
  const OP_ADD: nat := 12
  const OP_POW: nat := 17
  const OP_UNM: nat := 18
  const OP_NOT: nat := 19
  const OP_LEN: nat := 20
  const OP_CONCAT: nat := 21
  const OP_JMP: nat := 22
  const OP_EQ: nat := 23
  const OP_LT: nat := 24
  const OP_LE: nat := 25
  const OP_TEST: nat := 26
  const OP_TESTSET: nat := 27
  const OP_CALL: nat := 28
  const OP_TAILCALL: nat := 29
  const OP_RETURN: nat := 30
  const OP_FORLOOP: nat := 31
  const OP_FORPREP: nat := 32
  const OP_TFORLOOP: nat := 33
  const OP_SETLIST: nat := 34
  const OP_CLOSE: nat := 35
  const OP_CLOSURE: nat := 36
  const OP_VARARG: nat := 37
  const NUM_OPCODES: nat := 38
}
