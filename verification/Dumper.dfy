/** The writer of precompiled chunks: bytes go out in blocks through a writer function, until it reports an error. */
module Dumper {
  import opened Wrappers
  import opened Prototypes
  import opened ChunkFormat

  class DumpState {
    /** What the writer answers at each of its calls, and how often it has been called. */
    const answers: nat -> int
    var calls: nat

    /** The bytes handed to the writer so far. */
    var out: seq<Byte>
    const strip: bool
    var status: int

    /** All the bytes the writer would have been given if it had reported no error. */
    ghost var wanted: seq<Byte>

    ghost predicate Valid()
      reads this
    {
      out <= wanted && (status == 0 ==> out == wanted)
    }

    constructor (answers: nat -> int, strip: bool)
      ensures this.answers == answers && this.strip == strip && calls == 0 && out == wanted == [] && status == 0 &&
        Valid()
    {
      this.answers := answers;
      this.strip := strip;
      calls, out, status, wanted := 0, [], 0, [];
    }

    /** These bytes were to be written; after the writer's first error nothing happens any more. */
    twostate predicate Wrote(bytes: seq<Byte>)
      reads this
    {
      && Valid() && wanted == old(wanted) + bytes
      && (old(status) != 0 ==> out == old(out) && status == old(status))
    }

    method DumpBlock(b: seq<Byte>)
      requires Valid()
      modifies this
      ensures Wrote(b)
    {
      if status == 0 {
        status := answers(calls);
        calls := calls + 1;
        out := out + b;
      }
      wanted := wanted + b;
    }

    method DumpChar(y: Byte)
      requires Valid()
      modifies this
      ensures Wrote([y])
    {
      DumpBlock([y]);
    }

    method DumpInt(x: Int32)
      requires Valid()
      modifies this
      ensures Wrote(PutInt(x))
    {
      DumpBlock(PutInt(x));
    }

    method DumpCount(n: nat)
      requires Valid()
      modifies this
      ensures Wrote(PutCount(n))
    {
      DumpBlock(PutCount(n));
    }

    method DumpString(s: Option<seq<Byte>>)
      requires Valid()
      modifies this
      ensures Wrote(PutString(s))
    {
      if s == None {
        DumpCount(0);
      } else {
        DumpCount(|s.value| + 1);
        DumpBlock(s.value + [0]);
      }
    }

    /** DumpVector for instructions. */
    method DumpCode(code: seq<Word>)
      requires Valid()
      modifies this
      ensures Wrote(PutVector(code, PutInstruction))
    {
      DumpCount(|code|);
      var memory := WordMemory(code);
      DumpBlock(memory);
    }

    /** DumpVector for line numbers. */
    method DumpLines(lines: seq<Int32>)
      requires Valid()
      modifies this
      ensures Wrote(PutVector(lines, PutInt))
    {
      DumpCount(|lines|);
      var memory := IntMemory(lines);
      DumpBlock(memory);
    }

    method DumpConstant(c: Const)
      requires Valid()
      modifies this
      ensures Wrote(PutConst(c))
    {
      match c
      case KNil => DumpChar(TNIL);
      case KBool(b) =>
        DumpChar(TBOOLEAN);
        DumpChar(if b then 1 else 0);
      case KNum(bits) =>
        DumpChar(TNUMBER);
        DumpBlock(bits);
      case KStr(s) =>
        DumpChar(TSTRING);
        DumpString(s);
    }

    /** The first half of DumpConstants. */
    method DumpConstants(k: seq<Const>)
      requires Valid()
      modifies this
      ensures Wrote(PutVector(k, PutConst))
    {
      DumpCount(|k|);
      for i := 0 to |k|
        invariant Wrote(PutCount(|k|) + PutAll(k[..i], PutConst))
      {
        assert k[..i + 1][..i] == k[..i];
        DumpConstant(k[i]);
      }
      assert k[..|k|] == k;
    }

    method DumpLocVar(v: LocVar)
      requires Valid()
      modifies this
      ensures Wrote(PutLocVar(v))
    {
      DumpString(v.varname);
      DumpInt(v.startpc);
      DumpInt(v.endpc);
    }

    method DumpLocVars(vars: seq<LocVar>)
      requires Valid()
      modifies this
      ensures Wrote(PutVector(vars, PutLocVar))
    {
      DumpCount(|vars|);
      for i := 0 to |vars|
        invariant Wrote(PutCount(|vars|) + PutAll(vars[..i], PutLocVar))
      {
        assert vars[..i + 1][..i] == vars[..i];
        DumpLocVar(vars[i]);
      }
      assert vars[..|vars|] == vars;
    }

    method DumpNames(names: seq<Option<seq<Byte>>>)
      requires Valid()
      modifies this
      ensures Wrote(PutVector(names, PutString))
    {
      DumpCount(|names|);
      for i := 0 to |names|
        invariant Wrote(PutCount(|names|) + PutAll(names[..i], PutString))
      {
        assert names[..i + 1][..i] == names[..i];
        DumpString(names[i]);
      }
      assert names[..|names|] == names;
    }

    method DumpDebug(f: Proto)
      requires Valid()
      modifies this
      ensures Wrote(PutDebug(Shown(f, strip)))
    {
      hide PutVector;
      DumpLines(if strip then [] else f.lineinfo);
      DumpLocVars(if strip then [] else f.locvars);
      DumpNames(if strip then [] else f.upvalues);
    }

    method DumpHead(f: Proto, parent: Option<seq<Byte>>)
      requires Valid()
      modifies this
      ensures Wrote(PutHead(f, parent, strip))
    {
      hide PutString, PutInt;
      DumpString(if f.source == parent || strip then None else f.source);
      DumpInt(f.linedefined);
      DumpInt(f.lastlinedefined);
      DumpSizes(f);
    }

    method DumpSizes(f: Proto)
      requires Valid()
      modifies this
      ensures Wrote([f.nups, f.numparams, f.isVararg, f.maxstacksize])
    {
      DumpChar(f.nups);
      DumpChar(f.numparams);
      DumpChar(f.isVararg);
      DumpChar(f.maxstacksize);
    }

    /** The second half of DumpConstants: the inner functions. */
    method DumpInner(f: Proto)
      requires Valid()
      modifies this
      ensures Wrote(PutCount(|f.p|) + PutChildren(f, |f.p|, strip))
      decreases f, 0
    {
      hide PutFunction, PutCount;
      DumpCount(|f.p|);
      for i := 0 to |f.p|
        invariant Wrote(PutCount(|f.p|) + PutChildren(f, i, strip))
      {
        DumpFunction(f.p[i], f.source);
      }
    }

    method DumpFunction(f: Proto, parent: Option<seq<Byte>>)
      requires Valid()
      modifies this
      ensures Wrote(PutFunction(f, parent, strip))
      decreases f, 1
    {
      hide PutHead, PutVector, PutCount, PutChildren, PutDebug;
      DumpHead(f, parent);
      DumpCode(f.code);
      DumpConstants(f.k);
      DumpInner(f);
      DumpDebug(f);
    }

    /** luaU_dump: with status zero the writer has been given exactly the chunk; otherwise a beginning of it. */
    method Dump(f: Proto) returns (r: int)
      requires status == 0
      requires Valid()
      modifies this
      ensures Wrote(PutChunk(f, strip)) && r == status
    {
      hide PutFunction;
      DumpBlock(HEADER);
      DumpFunction(f, None);
      return status;
    }
  }

  /** Instructions as they lie in memory. */
  method WordMemory(code: seq<Word>) returns (b: seq<Byte>)
    ensures b == PutAll(code, PutInstruction)
  {
    b := [];
    for i := 0 to |code|
      invariant b == PutAll(code[..i], PutInstruction)
    {
      assert code[..i + 1][..i] == code[..i];
      b := b + PutInstruction(code[i]);
    }
    assert code[..|code|] == code;
  }

  /** Ints as they lie in memory. */
  method IntMemory(ints: seq<Int32>) returns (b: seq<Byte>)
    ensures b == PutAll(ints, PutInt)
  {
    b := [];
    for i := 0 to |ints|
      invariant b == PutAll(ints[..i], PutInt)
    {
      assert ints[..i + 1][..i] == ints[..i];
      b := b + PutInt(ints[i]);
    }
    assert ints[..|ints|] == ints;
  }
}
