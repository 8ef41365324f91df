/** What patching, removing values and concatenating do to each instruction. */
module CodeLists {
  import opened LuaCode
  import opened CodeExec

  ghost predicate NoDup(l: seq<nat>) {
    forall i, j :: 0 <= i < j < |l| ==> l[i] != l[j]
  }

  /** A list of pending jumps: distinct jumps of the code whose TESTSETs have no register yet. */
  ghost predicate Pending(code: seq<Instr>, l: seq<nat>) {
    && NoDup(l)
    && forall j :: j in l ==> j < |code| && code[j].Jmp? && (Carries(code, j) ==> code[j-1].a == NO_REG)
  }

  /** The jumps of l are jumps of the code. */
  ghost predicate Jumps(code: seq<Instr>, l: seq<nat>) {
    forall j :: j in l ==> j < |code| && code[j].Jmp?
  }

  /** patchlistaux at one position: a jump of the list lands on vtarget if it carries a value and on dtarget
      otherwise, its TESTSET stores into reg or becomes a TEST, and nothing else moves. */
  ghost predicate PatchedAt(code: seq<Instr>, code2: seq<Instr>, l: seq<nat>, vtarget: nat, reg: nat, dtarget: nat,
                            i: nat)
    requires i < |code| && i < |code2|
  {
    code2[i] ==
    if i in l then Jmp((if Carries(code, i) then vtarget else dtarget) - (i + 1))
    else if i + 1 in l && code[i].TestSet? then PatchTest(code[i], reg)
    else code[i]
  }

  ghost predicate Patched(code: seq<Instr>, code2: seq<Instr>, l: seq<nat>, vtarget: nat, reg: nat, dtarget: nat) {
    && |code2| == |code|
    && forall i: nat :: i < |code| ==> PatchedAt(code, code2, l, vtarget, reg, dtarget, i)
  }

  function PatchOne(code: seq<Instr>, j: nat, vtarget: nat, reg: nat, dtarget: nat): seq<Instr> {
    FixJump(PatchTestReg(code, j, reg), j, if Carries(code, j) then vtarget else dtarget)
  }

  lemma PatchOneAt(code: seq<Instr>, j: nat, vtarget: nat, reg: nat, dtarget: nat)
    requires j < |code| && code[j].Jmp?
    ensures Patched(code, PatchOne(code, j, vtarget, reg, dtarget), [j], vtarget, reg, dtarget)
  {
  }

  lemma PatchedRest(code: seq<Instr>, c: seq<Instr>, j: nat, l: seq<nat>, vtarget: nat, reg: nat, dtarget: nat)
    requires Jumps(code, l) && j !in l && j < |code| && code[j].Jmp?
    requires Patched(code, c, [j], vtarget, reg, dtarget)
    ensures Jumps(c, l) && forall i :: i in l ==> Carries(c, i) == Carries(code, i)
  {
    forall i | i in l ensures c[i].Jmp? && Carries(c, i) == Carries(code, i) {
      assert PatchedAt(code, c, [j], vtarget, reg, dtarget, i);
      if i > 0 { assert PatchedAt(code, c, [j], vtarget, reg, dtarget, i - 1); }
    }
  }

  lemma PatchedCompose(code: seq<Instr>, c: seq<Instr>, r: seq<Instr>, j: nat, l: seq<nat>,
                       vtarget: nat, reg: nat, dtarget: nat)
    requires Jumps(code, l) && j !in l && j < |code| && code[j].Jmp?
    requires Patched(code, c, [j], vtarget, reg, dtarget) && Patched(c, r, l, vtarget, reg, dtarget)
    ensures Patched(code, r, [j] + l, vtarget, reg, dtarget)
  {
    PatchedRest(code, c, j, l, vtarget, reg, dtarget);
    forall i: nat | i < |code| ensures PatchedAt(code, r, [j] + l, vtarget, reg, dtarget, i) {
      assert PatchedAt(code, c, [j], vtarget, reg, dtarget, i);
      assert PatchedAt(c, r, l, vtarget, reg, dtarget, i);
    }
  }

  lemma {:induction false} PatchListAt(code: seq<Instr>, l: seq<nat>, vtarget: nat, reg: nat, dtarget: nat)
    requires NoDup(l) && Jumps(code, l)
    ensures Patched(code, PatchList(code, l, vtarget, reg, dtarget), l, vtarget, reg, dtarget)
    decreases |l|
  {
    if l != [] {
      var j := l[0];
      assert l == [j] + l[1..] && j in l;
      assert forall i :: i in l[1..] ==> i in l && i != j;
      var c := PatchOne(code, j, vtarget, reg, dtarget);
      PatchOneAt(code, j, vtarget, reg, dtarget);
      PatchedRest(code, c, j, l[1..], vtarget, reg, dtarget);
      PatchListAt(c, l[1..], vtarget, reg, dtarget);
      PatchedCompose(code, c, PatchList(c, l[1..], vtarget, reg, dtarget), j, l[1..], vtarget, reg, dtarget);
    }
  }

  /** removevalues, position by position. */
  ghost predicate Devalued(code: seq<Instr>, code2: seq<Instr>, l: seq<nat>) {
    && |code2| == |code|
    && forall i :: 0 <= i < |code| ==>
         code2[i] == if i + 1 in l && code[i].TestSet? then Test(code[i].b, code[i].cond) else code[i]
  }

  lemma {:induction false} RemoveValuesAt(code: seq<Instr>, l: seq<nat>)
    requires NoDup(l)
    ensures Devalued(code, RemoveValues(code, l), l)
    decreases |l|
  {
    if l != [] {
      assert l == [l[0]] + l[1..];
      assert NoDup(l[1..]) && l[0] !in l[1..];
      RemoveValuesAt(PatchTestReg(code, l[0], NO_REG), l[1..]);
    }
  }

  lemma NoDupConcat(a: seq<nat>, b: seq<nat>)
    requires NoDup(a) && NoDup(b) && forall j :: j in a ==> j !in b
    ensures NoDup(a + b)
  {
    forall i, j | 0 <= i < j < |a + b| ensures (a + b)[i] != (a + b)[j] {
      if i < |a| <= j { assert a[i] in a && b[j - |a|] in b; }
    }
  }

}
