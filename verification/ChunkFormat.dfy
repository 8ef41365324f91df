/** The format of precompiled chunks: what ldump.c writes for a function, and how lundump.c reads bytes back. */
module ChunkFormat {
  import opened Wrappers
  import opened Prototypes
  import Checker

  const MAXCCALLS: nat := 200
  const MAX_SIZET: nat := 0xffff_fffd

  // ----- words

  /** A 32-bit word, least significant byte first; wider values lose their high bits. */
  function PutWord(n: nat): (b: seq<Byte>)
    ensures |b| == 4
  {
    [n % 256, n / 0x100 % 256, n / 0x1_0000 % 256, n / 0x100_0000 % 256]
  }

  function WordAt(b: seq<Byte>): (w: Word)
    requires |b| == 4
  {
    b[0] as int + 0x100 * b[1] as int + 0x1_0000 * b[2] as int + 0x100_0000 * b[3] as int
  }

  function PutInt(i: Int32): (b: seq<Byte>)
    ensures |b| == 4
  {
    PutWord(if i < 0 then i + 0x1_0000_0000 else i)
  }

  function IntAt(b: seq<Byte>): (i: Int32)
    requires |b| == 4
  {
    var w := WordAt(b);
    if w >= 0x8000_0000 then w - 0x1_0000_0000 else w
  }

  function PutInstruction(w: Word): seq<Byte> { PutWord(w) }

  /** A size or a count, as size_t or int hold it. */
  function PutCount(n: nat): (b: seq<Byte>)
    ensures |b| == 4
  {
    PutWord(n)
  }

  // ----- writing

  function PutString(s: Option<seq<Byte>>): seq<Byte> {
    match s
    case None => PutCount(0)
    case Some(t) => PutCount(|t| + 1) + (t + [0])
  }

  /** The elements of a sequence written one after the other. */
  function PutAll<T>(xs: seq<T>, put: T -> seq<Byte>): seq<Byte>
  {
    if xs == [] then [] else PutAll(xs[..|xs| - 1], put) + put(xs[|xs| - 1])
  }

  const TNIL: Byte := 0
  const TBOOLEAN: Byte := 1
  const TNUMBER: Byte := 3
  const TSTRING: Byte := 4

  function PutConst(c: Const): seq<Byte> {
    match c
    case KNil => [TNIL]
    case KBool(b) => [TBOOLEAN, if b then 1 else 0]
    case KNum(bits) => [TNUMBER] + bits
    case KStr(s) => [TSTRING] + PutString(s)
  }

  function PutLocVar(v: LocVar): seq<Byte> {
    PutString(v.varname) + PutInt(v.startpc) + PutInt(v.endpc)
  }

  function PutVector<T>(xs: seq<T>, put: T -> seq<Byte>): seq<Byte> {
    PutCount(|xs|) + PutAll(xs, put)
  }

  /** What is left of a function when its debug information is stripped. */
  function Bare(f: Proto): Proto {
    f.(lineinfo := [], locvars := [], upvalues := [])
  }

  function Shown(f: Proto, strip: bool): Proto { if strip then Bare(f) else f }

  function PutDebug(f: Proto): seq<Byte> {
    PutVector(f.lineinfo, PutInt) + PutVector(f.locvars, PutLocVar) + PutVector(f.upvalues, PutString)
  }

  /** The source is left out when it is the parent's, and when debug information is stripped. */
  function SourceToPut(f: Proto, parent: Option<seq<Byte>>, strip: bool): Option<seq<Byte>> {
    if f.source == parent || strip then None else f.source
  }

  function PutHead(f: Proto, parent: Option<seq<Byte>>, strip: bool): seq<Byte> {
    PutString(SourceToPut(f, parent, strip)) + PutInt(f.linedefined) + PutInt(f.lastlinedefined)
    + [f.nups, f.numparams, f.isVararg, f.maxstacksize]
  }

  /** A function as DumpFunction writes it, inside a function with the given source. */
  function PutFunction(f: Proto, parent: Option<seq<Byte>>, strip: bool): seq<Byte>
    decreases f, |f.p| + 1
  {
    PutHead(f, parent, strip) + PutVector(f.code, PutInstruction) + PutVector(f.k, PutConst)
    + PutCount(|f.p|) + PutChildren(f, |f.p|, strip) + PutDebug(Shown(f, strip))
  }

  /** The first n inner functions. */
  function PutChildren(f: Proto, n: nat, strip: bool): seq<Byte>
    requires n <= |f.p|
    decreases f, n
  {
    if n == 0 then [] else PutChildren(f, n - 1, strip) + PutFunction(f.p[n - 1], f.source, strip)
  }

  /** Signature, version 5.1, format 0, little endian, the sizes of int, size_t, instructions and numbers, and
      numbers that are not integers. */
  const HEADER: seq<Byte> := [27, 76, 117, 97, 0x51, 0, 1, 4, 4, 4, 8, 0]

  function PutChunk(f: Proto, strip: bool): seq<Byte> { HEADER + PutFunction(f, None, strip) }

  // ----- reading

  datatype LoadError = UnexpectedEnd | BadInteger | BadConstant | BadHeader | BadCode | TooDeep | TooBig

  /** A value read and the bytes left, or an error. */
  type Got<T> = Result<(T, seq<Byte>), LoadError>

  function GetBlock(b: seq<Byte>, n: nat): Got<seq<Byte>> {
    if n <= |b| then Success((b[..n], b[n..])) else Failure(UnexpectedEnd)
  }

  function GetByte(b: seq<Byte>): Got<Byte> {
    if |b| > 0 then Success((b[0], b[1..])) else Failure(UnexpectedEnd)
  }

  function GetWord(b: seq<Byte>): Got<Word> {
    if 4 <= |b| then Success((WordAt(b[..4]), b[4..])) else Failure(UnexpectedEnd)
  }

  /** An int of a vector, which may be negative. */
  function GetRawInt(b: seq<Byte>): Got<Int32> {
    if 4 <= |b| then Success((IntAt(b[..4]), b[4..])) else Failure(UnexpectedEnd)
  }

  function GetInt(b: seq<Byte>): (r: Got<Int32>)
    ensures r.Success? ==> r.value.0 >= 0
  {
    if 4 > |b| then Failure(UnexpectedEnd)
    else if IntAt(b[..4]) < 0 then Failure(BadInteger)
    else Success((IntAt(b[..4]), b[4..]))
  }

  function GetString(b: seq<Byte>): Got<Option<seq<Byte>>> {
    match GetWord(b)
    case Failure(e) => Failure(e)
    case Success((size, b1)) =>
      if size == 0 then Success((None, b1))
      else match GetBlock(b1, size)
           case Failure(e) => Failure(e)
           case Success((s, b2)) => Success((Some(s[..size - 1]), b2))
  }

  function GetConst(b: seq<Byte>): Got<Const> {
    match GetByte(b)
    case Failure(e) => Failure(e)
    case Success((t, b1)) =>
      if t == TNIL then Success((KNil, b1))
      else if t == TBOOLEAN then
        (match GetByte(b1)
         case Failure(e) => Failure(e)
         case Success((v, b2)) => Success((KBool(v != 0), b2)))
      else if t == TNUMBER then
        if 8 <= |b1| then Success((KNum(b1[..8]), b1[8..])) else Failure(UnexpectedEnd)
      else if t == TSTRING then
        (match GetString(b1)
         case Failure(e) => Failure(e)
         case Success((s, b2)) => Success((KStr(s), b2)))
      else Failure(BadConstant)
  }

  function GetLocVar(b: seq<Byte>): Got<LocVar> {
    match GetString(b)
    case Failure(e) => Failure(e)
    case Success((name, b1)) =>
      match GetInt(b1)
      case Failure(e) => Failure(e)
      case Success((startpc, b2)) =>
        match GetInt(b2)
        case Failure(e) => Failure(e)
        case Success((endpc, b3)) => Success((LocVar(name, startpc, endpc), b3))
  }

  /** n values in a row. */
  function GetMany<T>(b: seq<Byte>, n: nat, get: seq<Byte> -> Got<T>): (r: Got<seq<T>>)
    ensures r.Success? ==> |r.value.0| == n
  {
    if n == 0 then Success(([], b))
    else
      match GetMany(b, n - 1, get)
      case Failure(e) => Failure(e)
      case Success((xs, b1)) =>
        match get(b1)
        case Failure(e) => Failure(e)
        case Success((x, b2)) => Success((xs + [x], b2))
  }

  /** A count, the check of luaM_newvector for elements of the given size, and the elements. */
  function GetVector<T>(b: seq<Byte>, size: nat, get: seq<Byte> -> Got<T>): Got<seq<T>>
    requires size > 0
  {
    match GetInt(b)
    case Failure(e) => Failure(e)
    case Success((n, b1)) => if n + 1 > MAX_SIZET / size then Failure(TooBig) else GetMany(b1, n, get)
  }

  /** The bytes of the head: what comes before the code. */
  datatype Head = Head(source: Option<seq<Byte>>, linedefined: Int32, lastlinedefined: Int32, bytes: seq<Byte>)

  function GetHead(b: seq<Byte>): (r: Got<Head>)
    ensures r.Success? ==> |r.value.0.bytes| == 4
  {
    match GetString(b)
    case Failure(e) => Failure(e)
    case Success((source, b1)) =>
      match GetInt(b1)
      case Failure(e) => Failure(e)
      case Success((first, b2)) =>
        match GetInt(b2)
        case Failure(e) => Failure(e)
        case Success((last, b3)) =>
          match GetBlock(b3, 4)
          case Failure(e) => Failure(e)
          case Success((bytes, b4)) => Success((Head(source, first, last, bytes), b4))
  }

  datatype Debug = Debug(lineinfo: seq<Int32>, locvars: seq<LocVar>, upvalues: seq<Option<seq<Byte>>>)

  function GetDebug(b: seq<Byte>): Got<Debug> {
    match GetVector(b, 4, GetRawInt)
    case Failure(e) => Failure(e)
    case Success((lineinfo, b1)) =>
      match GetVector(b1, 12, GetLocVar)
      case Failure(e) => Failure(e)
      case Success((locvars, b2)) =>
        match GetVector(b2, 4, GetString)
        case Failure(e) => Failure(e)
        case Success((upvalues, b3)) => Success((Debug(lineinfo, locvars, upvalues), b3))
  }

  function Build(h: Head, parent: Option<seq<Byte>>, code: seq<Word>, k: seq<Const>, p: seq<Proto>, d: Debug): Proto
    requires |h.bytes| == 4
  {
    Proto(if h.source.None? then parent else h.source, h.linedefined, h.lastlinedefined,
          h.bytes[0], h.bytes[1], h.bytes[2], h.bytes[3], code, k, p, d.lineinfo, d.locvars, d.upvalues)
  }

  /** LoadFunction inside a function with the given source, with so many C calls already active. */
  function GetFunction(b: seq<Byte>, parent: Option<seq<Byte>>, calls: nat): Got<Proto>
    decreases if calls <= MAXCCALLS then MAXCCALLS - calls else 0, 0
  {
    if calls + 1 > MAXCCALLS then Failure(TooDeep)
    else
      match GetHead(b)
      case Failure(e) => Failure(e)
      case Success((head, b1)) =>
        match GetVector(b1, 4, GetWord)
        case Failure(e) => Failure(e)
        case Success((code, b2)) =>
          match GetVector(b2, 16, GetConst)
          case Failure(e) => Failure(e)
          case Success((k, b3)) =>
            var source := if head.source.None? then parent else head.source;
            match GetInner(b3, source, calls + 1)
            case Failure(e) => Failure(e)
            case Success((p, b4)) =>
              match GetDebug(b4)
              case Failure(e) => Failure(e)
              case Success((d, b5)) =>
                var f := Build(head, parent, code, k, p, d);
                if Checker.Accepts(f) then Success((f, b5)) else Failure(BadCode)
  }

  /** The inner functions of a function with the given source: a count, and so many functions. */
  function GetInner(b: seq<Byte>, source: Option<seq<Byte>>, calls: nat): Got<seq<Proto>>
    requires calls <= MAXCCALLS
    decreases MAXCCALLS - calls, if |b| >= 4 && IntAt(b[..4]) >= 0 then IntAt(b[..4]) + 2 else 0
  {
    match GetInt(b)
    case Failure(e) => Failure(e)
    case Success((n, b1)) => if n + 1 > MAX_SIZET / 4 then Failure(TooBig) else GetChildren(b1, n, source, calls)
  }

  function GetChildren(b: seq<Byte>, n: nat, source: Option<seq<Byte>>, calls: nat): (r: Got<seq<Proto>>)
    requires calls <= MAXCCALLS
    ensures r.Success? ==> |r.value.0| == n
    decreases MAXCCALLS - calls, n + 1
  {
    if n == 0 then Success(([], b))
    else
      match GetChildren(b, n - 1, source, calls)
      case Failure(e) => Failure(e)
      case Success((ps, b1)) =>
        match GetFunction(b1, source, calls)
        case Failure(e) => Failure(e)
        case Success((f, b2)) => Success((ps + [f], b2))
  }

  /** The source of a main function that does not name one. */
  const UNKNOWN: seq<Byte> := [61, 63]

  /** luaU_undump. */
  function GetChunk(b: seq<Byte>, calls: nat): Got<Proto> {
    match GetBlock(b, |HEADER|)
    case Failure(e) => Failure(e)
    case Success((h, b1)) => if h != HEADER then Failure(BadHeader) else GetFunction(b1, Some(UNKNOWN), calls)
  }
}
