/** The generator's list operations as evolutions of the code. */
module CodeEvolve {
  import opened LuaCode
  import opened CodeExec
  import opened CodeLists
  import opened CodeState

  /** The instructions before the jumps of l are the same in both codes. */
  ghost predicate Untouched(code: seq<Instr>, code2: seq<Instr>, l: seq<nat>) {
    forall j :: j in l ==> Carries(code2, j) == Carries(code, j) && (Carries(code, j) ==> code2[j-1] == code[j-1])
  }

  lemma EvolvesSelf(code: seq<Instr>, code2: seq<Instr>, n: nat)
    requires n <= |code| && n <= |code2| && code[..n] == code2[..n]
    ensures Evolves(code, {}, code2, {}, n)
  {
    forall i | 0 <= i < n ensures EvolvesAt(code, {}, code2, {}, n, i) {
      assert code[..n][i] == code2[..n][i];
    }
  }

  /** Pending jumps that a step does not touch stay pending. */
  lemma EvolvesMore(code: seq<Instr>, p: set<nat>, code2: seq<Instr>, p2: set<nat>, n: nat, q: seq<nat>)
    requires Evolves(code, p, code2, p2, n)
    requires forall j :: j in q ==> j < n && j !in p && code[j].Jmp?
    ensures Evolves(code, p + Set(q), code2, p2 + Set(q), n)
  {
    forall i | 0 <= i < n ensures EvolvesAt(code, p + Set(q), code2, p2 + Set(q), n, i) {
      assert EvolvesAt(code, p, code2, p2, n, i);
      if i + 1 < n { assert EvolvesAt(code, p, code2, p2, n, i + 1); }
    }
  }

  lemma EvolvesUntouched(code: seq<Instr>, p: set<nat>, code2: seq<Instr>, p2: set<nat>, n: nat, q: seq<nat>)
    requires Evolves(code, p, code2, p2, n)
    requires forall j :: j in p ==> j < |code| && code[j].Jmp?
    requires forall j :: j in q ==> j < n && j !in p
    ensures Untouched(code, code2, q)
  {
    forall j | j in q && j > 0
      ensures Carries(code2, j) == Carries(code, j) && (Carries(code, j) ==> code2[j-1] == code[j-1])
    {
      assert EvolvesAt(code, p, code2, p2, n, j - 1);
    }
  }

  /** Patching a whole list. */
  lemma EvolvesPatch(code: seq<Instr>, l: seq<nat>, vtarget: nat, reg: nat, dtarget: nat, code2: seq<Instr>, n: nat)
    requires Pending(code, l) && Below(l, n) && n <= |code| && n <= |code2|
    requires Ends(code, n)
    requires PatchList(code, l, vtarget, reg, dtarget)[..n] == code2[..n]
    requires forall j :: j in l ==> if Carries(code, j) then vtarget >= n else dtarget >= n
    ensures Evolves(code, Set(l), code2, {}, n)
  {
    var c := PatchList(code, l, vtarget, reg, dtarget);
    PatchListAt(code, l, vtarget, reg, dtarget);
    forall i | 0 <= i < n ensures EvolvesAt(code, Set(l), code2, {}, n, i) {
      assert PatchedAt(code, c, l, vtarget, reg, dtarget, i);
      assert code2[..n][i] == c[..n][i];
    }
  }

  /** Where a patched jump lands, and whether it still carries its value. */
  lemma PatchedJump(code: seq<Instr>, l: seq<nat>, vtarget: nat, reg: nat, dtarget: nat, j: nat)
    requires Pending(code, l) && j in l
    ensures var c := PatchList(code, l, vtarget, reg, dtarget);
            && Target(c, j) == (if Carries(code, j) then vtarget else dtarget)
            && (Carries(code, j) ==> c[j-1] == PatchTest(code[j-1], reg))
            && (!Carries(code, j) ==> !Carries(c, j))
  {
    var c := PatchList(code, l, vtarget, reg, dtarget);
    PatchListAt(code, l, vtarget, reg, dtarget);
    assert PatchedAt(code, c, l, vtarget, reg, dtarget, j);
    if j > 0 {
      assert PatchedAt(code, c, l, vtarget, reg, dtarget, j - 1);
      if j - 1 in l { assert code[j-1].Jmp?; }
    }
  }

  lemma PatchedCarry(code: seq<Instr>, l: seq<nat>, vtarget: nat, reg: nat, dtarget: nat, j: nat, r: Regs)
    requires Pending(code, l) && j in l
    ensures var c := PatchList(code, l, vtarget, reg, dtarget);
            Carry(c, j, r) == if Carries(code, j) && reg != NO_REG then Write(r, reg, Reg(r, code[j-1].b)) else r
  {
    PatchedJump(code, l, vtarget, reg, dtarget, j);
  }

  lemma EvolvesConcat(code: seq<Instr>, a: seq<nat>, b: seq<nat>, q: seq<nat>, n: nat)
    requires n <= |code|
    requires forall j :: j in q ==> j < n && code[j].Jmp?
    requires a != [] ==> a[|a|-1] in q || n <= a[|a|-1]
    ensures Evolves(code, Set(q), Concat(code, a, b), Set(q), n)
  {
    var c := Concat(code, a, b);
    forall i | 0 <= i < n ensures EvolvesAt(code, Set(q), c, Set(q), n, i) {
    }
  }

  lemma ConcatUntouched(code: seq<Instr>, a: seq<nat>, b: seq<nat>, q: seq<nat>)
    requires a != [] ==> a[|a|-1] < |code| && code[a[|a|-1]].Jmp?
    ensures Untouched(code, Concat(code, a, b), q)
    ensures Jumps(code, q) ==> Jumps(Concat(code, a, b), q)
  {
  }

  /** What is pending after a step: old jumps that still are, and new ones. */
  lemma PendingMove(code: seq<Instr>, l: seq<nat>, code2: seq<Instr>, l2: seq<nat>)
    requires Pending(code, l) && NoDup(l2) && |code| <= |code2| + 1
    requires forall j :: j in l2 ==>
               || (j in l && j < |code2| && code2[j].Jmp? && Untouched(code, code2, [j]))
               || (j < |code2| && code2[j].Jmp? && !Carries(code2, j))
    ensures Pending(code2, l2)
  {
    forall j | j in l2
      ensures j < |code2| && code2[j].Jmp? && (Carries(code2, j) ==> code2[j-1].a == NO_REG)
    {
      if j in l { assert j in [j]; }
    }
  }
}
