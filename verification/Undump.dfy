/** The loader of precompiled chunks, over buffered input. */
module Undump {
  import opened Wrappers
  import opened Prototypes
  import opened ChunkFormat
  import opened Zio
  import Checker

  /** The result is the one the format gives for the bytes there were, and the bytes left are the ones it leaves. */
  predicate Gives<T(==)>(spec: Got<T>, r: Result<T, LoadError>, left: seq<Byte>) {
    match spec
    case Failure(e) => r == Failure(e)
    case Success((x, rest)) => r == Success(x) && left == rest
  }

  lemma {:induction false} ManyFails<T>(b: seq<Byte>, i: nat, n: nat, get: seq<Byte> -> Got<T>)
    requires i <= n && GetMany(b, i, get).Failure?
    ensures GetMany(b, n, get) == Failure(GetMany(b, i, get).error)
    decreases n
  {
    if i < n { ManyFails(b, i, n - 1, get); }
  }

  lemma {:induction false} ChildrenFail(b: seq<Byte>, i: nat, n: nat, source: Option<seq<Byte>>, calls: nat)
    requires i <= n && calls <= MAXCCALLS && GetChildren(b, i, source, calls).Failure?
    ensures GetChildren(b, n, source, calls) == Failure(GetChildren(b, i, source, calls).error)
    decreases n
  {
    if i < n { ChildrenFail(b, i, n - 1, source, calls); }
  }

  /** The words of a block, and its ints. */
  function WordsOf(b: seq<Byte>, n: nat): (ws: seq<Word>)
    requires 4 * n <= |b|
    ensures |ws| == n
  {
    if n == 0 then [] else WordsOf(b, n - 1) + [WordAt(b[4 * (n - 1)..4 * n])]
  }

  function IntsOf(b: seq<Byte>, n: nat): (xs: seq<Int32>)
    requires 4 * n <= |b|
    ensures |xs| == n
  {
    if n == 0 then [] else IntsOf(b, n - 1) + [IntAt(b[4 * (n - 1)..4 * n])]
  }

  /** A block of four-byte elements, read at once, gives what reading them one by one gives. */
  lemma {:induction false} BlockOfWords(b: seq<Byte>, n: nat)
    ensures GetMany(b, n, GetWord) ==
            if 4 * n <= |b| then Success((WordsOf(b, n), b[4 * n..])) else Failure(UnexpectedEnd)
  {
    if n > 0 {
      BlockOfWords(b, n - 1);
      if 4 * n <= |b| {
        var rest := b[4 * (n - 1)..];
        assert rest[..4] == b[4 * (n - 1)..4 * n] && rest[4..] == b[4 * n..];
      }
    }
  }

  lemma {:induction false} BlockOfInts(b: seq<Byte>, n: nat)
    ensures GetMany(b, n, GetRawInt) ==
            if 4 * n <= |b| then Success((IntsOf(b, n), b[4 * n..])) else Failure(UnexpectedEnd)
  {
    if n > 0 {
      BlockOfInts(b, n - 1);
      if 4 * n <= |b| {
        var rest := b[4 * (n - 1)..];
        assert rest[..4] == b[4 * (n - 1)..4 * n] && rest[4..] == b[4 * n..];
      }
    }
  }

  /** The memory of a block, seen as instructions. */
  method WordsIn(b: seq<Byte>, ghost from: seq<Byte>, n: nat) returns (words: seq<Word>)
    requires 4 * n <= |from| && b == from[..4 * n]
    ensures words == WordsOf(from, n)
  {
    var code := new Word[n];
    for i := 0 to n
      invariant code[..i] == WordsOf(from, i)
    {
      assert b[4 * i..4 * (i + 1)] == from[4 * i..4 * (i + 1)];
      code[i] := WordAt(b[4 * i..4 * (i + 1)]);
      assert code[..i + 1] == code[..i] + [code[i]];
    }
    assert code[..n] == code[..];
    return code[..];
  }

  /** The memory of a block, seen as ints. */
  method IntsIn(b: seq<Byte>, ghost from: seq<Byte>, n: nat) returns (ints: seq<Int32>)
    requires 4 * n <= |from| && b == from[..4 * n]
    ensures ints == IntsOf(from, n)
  {
    var lines := new Int32[n];
    for i := 0 to n
      invariant lines[..i] == IntsOf(from, i)
    {
      assert b[4 * i..4 * (i + 1)] == from[4 * i..4 * (i + 1)];
      lines[i] := IntAt(b[4 * i..4 * (i + 1)]);
      assert lines[..i + 1] == lines[..i] + [lines[i]];
    }
    assert lines[..n] == lines[..];
    return lines[..];
  }

  class LoadState {
    const z: ZIO
    var nCcalls: nat

    constructor (z: ZIO, nCcalls: nat)
      ensures this.z == z && this.nCcalls == nCcalls
    {
      this.z := z;
      this.nCcalls := nCcalls;
    }

    method LoadBlock(size: nat) returns (r: Result<seq<Byte>, LoadError>)
      requires z.Valid()
      modifies z
      ensures z.Valid() && Gives(GetBlock(old(z.Remaining()), size), r, z.Remaining())
    {
      var b := new Byte[size];
      var missing := z.Read(b, size);
      if missing != 0 { return Failure(UnexpectedEnd); }
      assert b[..size] == b[..];
      return Success(b[..]);
    }

    method LoadChar() returns (r: Result<Byte, LoadError>)
      requires z.Valid()
      modifies z
      ensures z.Valid() && Gives(GetByte(old(z.Remaining())), r, z.Remaining())
    {
      var b := LoadBlock(1);
      if b.Failure? { return Failure(b.error); }
      return Success(b.value[0]);
    }

    method LoadSize() returns (r: Result<Word, LoadError>)
      requires z.Valid()
      modifies z
      ensures z.Valid() && Gives(GetWord(old(z.Remaining())), r, z.Remaining())
    {
      var b := LoadBlock(4);
      if b.Failure? { return Failure(b.error); }
      return Success(WordAt(b.value));
    }

    method LoadInt() returns (r: Result<Int32, LoadError>)
      requires z.Valid()
      modifies z
      ensures z.Valid() && Gives(GetInt(old(z.Remaining())), r, z.Remaining())
    {
      var b := LoadBlock(4);
      if b.Failure? { return Failure(b.error); }
      var x := IntAt(b.value);
      if x < 0 { return Failure(BadInteger); }
      return Success(x);
    }

    method LoadNumber() returns (r: Result<Num, LoadError>)
      requires z.Valid()
      modifies z
      ensures z.Valid()
      ensures var b := old(z.Remaining());
              Gives(if 8 <= |b| then Success((b[..8], b[8..])) else Failure(UnexpectedEnd), r, z.Remaining())
    {
      var b := LoadBlock(8);
      if b.Failure? { return Failure(b.error); }
      return Success(b.value);
    }

    method LoadString() returns (r: Result<Option<seq<Byte>>, LoadError>)
      requires z.Valid()
      modifies z
      ensures z.Valid() && Gives(GetString(old(z.Remaining())), r, z.Remaining())
    {
      var size := LoadSize();
      if size.Failure? { return Failure(size.error); }
      if size.value == 0 { return Success(None); }
      var s := LoadBlock(size.value);
      if s.Failure? { return Failure(s.error); }
      return Success(Some(s.value[..size.value - 1]));
    }

    /** The checked allocation of luaM_newvector. */
    method NewVector(size: nat) returns (r: Result<nat, LoadError>)
      requires z.Valid() && size > 0
      modifies z
      ensures z.Valid()
      ensures var spec := GetInt(old(z.Remaining()));
              Gives(if spec.Failure? then Failure(spec.error)
                    else if spec.value.0 + 1 > MAX_SIZET / size then Failure(TooBig)
                    else Success((spec.value.0 as nat, spec.value.1)), r, z.Remaining())
    {
      var n := LoadInt();
      if n.Failure? { return Failure(n.error); }
      if n.value + 1 > MAX_SIZET / size { return Failure(TooBig); }
      return Success(n.value);
    }

    method LoadCode() returns (r: Result<seq<Word>, LoadError>)
      requires z.Valid()
      modifies z
      ensures z.Valid() && Gives(GetVector(old(z.Remaining()), 4, GetWord), r, z.Remaining())
    {
      var n := NewVector(4);
      if n.Failure? { return Failure(n.error); }
      BlockOfWords(z.Remaining(), n.value);
      ghost var from := z.Remaining();
      var b := LoadBlock(n.value * 4);
      if b.Failure? { return Failure(b.error); }
      var code := WordsIn(b.value, from, n.value);
      return Success(code);
    }

    method LoadLineInfo() returns (r: Result<seq<Int32>, LoadError>)
      requires z.Valid()
      modifies z
      ensures z.Valid() && Gives(GetVector(old(z.Remaining()), 4, GetRawInt), r, z.Remaining())
    {
      var n := NewVector(4);
      if n.Failure? { return Failure(n.error); }
      BlockOfInts(z.Remaining(), n.value);
      ghost var from := z.Remaining();
      var b := LoadBlock(n.value * 4);
      if b.Failure? { return Failure(b.error); }
      var lines := IntsIn(b.value, from, n.value);
      return Success(lines);
    }

    method LoadConstant() returns (r: Result<Const, LoadError>)
      requires z.Valid()
      modifies z
      ensures z.Valid() && Gives(GetConst(old(z.Remaining())), r, z.Remaining())
    {
      var t := LoadChar();
      if t.Failure? { return Failure(t.error); }
      if t.value == TNIL {
        return Success(KNil);
      } else if t.value == TBOOLEAN {
        var v := LoadChar();
        if v.Failure? { return Failure(v.error); }
        return Success(KBool(v.value != 0));
      } else if t.value == TNUMBER {
        var v := LoadNumber();
        if v.Failure? { return Failure(v.error); }
        return Success(KNum(v.value));
      } else if t.value == TSTRING {
        var v := LoadString();
        if v.Failure? { return Failure(v.error); }
        return Success(KStr(v.value));
      }
      return Failure(BadConstant);
    }

    /** The first half of LoadConstants. */
    method LoadConstants() returns (r: Result<seq<Const>, LoadError>)
      requires z.Valid()
      modifies z
      ensures z.Valid() && Gives(GetVector(old(z.Remaining()), 16, GetConst), r, z.Remaining())
    {
      hide GetConst;
      var n := NewVector(16);
      if n.Failure? { return Failure(n.error); }
      ghost var from := z.Remaining();
      var k := new Const[n.value](_ => KNil);
      for i := 0 to n.value
        invariant z.Valid() && GetMany(from, i, GetConst) == Success((k[..i], z.Remaining()))
      {
        ghost var before := k[..i];
        var c := LoadConstant();
        if c.Failure? {
          ManyFails(from, i + 1, n.value, GetConst);
          return Failure(c.error);
        }
        k[i] := c.value;
        assert k[..i] == before && k[..i + 1] == k[..i] + [c.value];
      }
      assert k[..n.value] == k[..];
      return Success(k[..]);
    }

    method LoadLocVar() returns (r: Result<LocVar, LoadError>)
      requires z.Valid()
      modifies z
      ensures z.Valid() && Gives(GetLocVar(old(z.Remaining())), r, z.Remaining())
    {
      var name := LoadString();
      if name.Failure? { return Failure(name.error); }
      var startpc := LoadInt();
      if startpc.Failure? { return Failure(startpc.error); }
      var endpc := LoadInt();
      if endpc.Failure? { return Failure(endpc.error); }
      return Success(LocVar(name.value, startpc.value, endpc.value));
    }

    method LoadLocVars() returns (r: Result<seq<LocVar>, LoadError>)
      requires z.Valid()
      modifies z
      ensures z.Valid() && Gives(GetVector(old(z.Remaining()), 12, GetLocVar), r, z.Remaining())
    {
      hide GetLocVar;
      var n := NewVector(12);
      if n.Failure? { return Failure(n.error); }
      ghost var from := z.Remaining();
      var vars := new LocVar[n.value](_ => LocVar(None, 0, 0));
      for i := 0 to n.value
        invariant z.Valid() && GetMany(from, i, GetLocVar) == Success((vars[..i], z.Remaining()))
      {
        ghost var before := vars[..i];
        var v := LoadLocVar();
        if v.Failure? {
          ManyFails(from, i + 1, n.value, GetLocVar);
          return Failure(v.error);
        }
        vars[i] := v.value;
        assert vars[..i] == before && vars[..i + 1] == vars[..i] + [v.value];
      }
      assert vars[..n.value] == vars[..];
      return Success(vars[..]);
    }

    method LoadUpvalues() returns (r: Result<seq<Option<seq<Byte>>>, LoadError>)
      requires z.Valid()
      modifies z
      ensures z.Valid() && Gives(GetVector(old(z.Remaining()), 4, GetString), r, z.Remaining())
    {
      hide GetString;
      var n := NewVector(4);
      if n.Failure? { return Failure(n.error); }
      ghost var from := z.Remaining();
      var names := new Option<seq<Byte>>[n.value](_ => None);
      for i := 0 to n.value
        invariant z.Valid() && GetMany(from, i, GetString) == Success((names[..i], z.Remaining()))
      {
        ghost var before := names[..i];
        var s := LoadString();
        if s.Failure? {
          ManyFails(from, i + 1, n.value, GetString);
          return Failure(s.error);
        }
        names[i] := s.value;
        assert names[..i] == before && names[..i + 1] == names[..i] + [s.value];
      }
      assert names[..n.value] == names[..];
      return Success(names[..]);
    }

    method LoadDebug() returns (r: Result<Debug, LoadError>)
      requires z.Valid()
      modifies z
      ensures z.Valid() && Gives(GetDebug(old(z.Remaining())), r, z.Remaining())
    {
      hide GetVector;
      var lines := LoadLineInfo();
      if lines.Failure? { return Failure(lines.error); }
      var vars := LoadLocVars();
      if vars.Failure? { return Failure(vars.error); }
      var names := LoadUpvalues();
      if names.Failure? { return Failure(names.error); }
      return Success(Debug(lines.value, vars.value, names.value));
    }

    method LoadHead() returns (r: Result<Head, LoadError>)
      requires z.Valid()
      modifies z
      ensures z.Valid() && Gives(GetHead(old(z.Remaining())), r, z.Remaining())
    {
      hide GetString, GetInt;
      var source := LoadString();
      if source.Failure? { return Failure(source.error); }
      var first := LoadInt();
      if first.Failure? { return Failure(first.error); }
      var last := LoadInt();
      if last.Failure? { return Failure(last.error); }
      var bytes := LoadBlock(4);
      if bytes.Failure? { return Failure(bytes.error); }
      return Success(Head(source.value, first.value, last.value, bytes.value));
    }

    /** The second half of LoadConstants: the inner functions. */
    method LoadInner(source: Option<seq<Byte>>) returns (r: Result<seq<Proto>, LoadError>)
      requires z.Valid() && nCcalls <= MAXCCALLS
      modifies this, z
      ensures z.Valid() && Gives(GetInner(old(z.Remaining()), source, old(nCcalls)), r, z.Remaining())
      ensures r.Success? ==> nCcalls == old(nCcalls)
      decreases MAXCCALLS - nCcalls, 1
    {
      hide GetFunction;
      var n := NewVector(4);
      if n.Failure? { return Failure(n.error); }
      ghost var from := z.Remaining();
      ghost var calls := nCcalls;
      var p: seq<Proto> := [];
      for i := 0 to n.value
        invariant z.Valid() && nCcalls == calls && GetChildren(from, i, source, calls) == Success((p, z.Remaining()))
      {
        var f := LoadFunction(source);
        if f.Failure? {
          ChildrenFail(from, i + 1, n.value, source, calls);
          return Failure(f.error);
        }
        p := p + [f.value];
      }
      return Success(p);
    }

    /** LoadFunction inside a function with the given source. */
    method LoadFunction(parent: Option<seq<Byte>>) returns (r: Result<Proto, LoadError>)
      requires z.Valid() && nCcalls <= MAXCCALLS
      modifies this, z
      ensures z.Valid() && Gives(GetFunction(old(z.Remaining()), parent, old(nCcalls)), r, z.Remaining())
      ensures r.Success? ==> nCcalls == old(nCcalls)
      decreases MAXCCALLS - nCcalls, 0
    {
      hide GetHead, GetVector, GetInner, GetDebug, Checker.Accepts, Stream;
      nCcalls := nCcalls + 1;
      if nCcalls > MAXCCALLS { return Failure(TooDeep); }
      var head := LoadHead();
      if head.Failure? { return Failure(head.error); }
      var source := if head.value.source == None then parent else head.value.source;
      var code := LoadCode();
      if code.Failure? { return Failure(code.error); }
      var k := LoadConstants();
      if k.Failure? { return Failure(k.error); }
      var p := LoadInner(source);
      if p.Failure? { return Failure(p.error); }
      var debug := LoadDebug();
      if debug.Failure? { return Failure(debug.error); }
      var f := Proto(source, head.value.linedefined, head.value.lastlinedefined, head.value.bytes[0],
                     head.value.bytes[1],
                     head.value.bytes[2], head.value.bytes[3], code.value, k.value, p.value,
                     debug.value.lineinfo, debug.value.locvars, debug.value.upvalues);
      var ok := Checker.CheckCode(f);
      if !ok { return Failure(BadCode); }
      nCcalls := nCcalls - 1;
      return Success(f);
    }

    /** luaU_undump: the result depends on the bytes alone, not on how the reader splits them. */
    method LoadChunk() returns (r: Result<Proto, LoadError>)
      requires z.Valid() && nCcalls <= MAXCCALLS
      modifies this, z
      ensures z.Valid() && Gives(GetChunk(old(z.Remaining()), old(nCcalls)), r, z.Remaining())
    {
      hide GetFunction;
      var h := LoadBlock(|HEADER|);
      if h.Failure? { return Failure(h.error); }
      if h.value != HEADER { return Failure(BadHeader); }
      r := LoadFunction(Some(UNKNOWN));
    }
  }
}
