/**
The state of the code generator for one function, and the operations on it that
know nothing of expressions: emission, jump lists and registers.
*/
module CodeState {
  import opened Bytecode
  import opened CodeRuns
  import opened JumpLists
  import opened CodeMeaning
  import opened CodeJoins

  const MAXARG_SBX: int := 131071
  const MAXSTACK: nat := 250

  /** A step of the compiler goes through or raises a syntax error. */
  datatype Status = Fine | SyntaxError(message: string) {
    predicate IsFailure() {
      SyntaxError?
    }
    function PropagateFailure(): Status {
      this
    }
  }

  /** The state as a value; `jl` lists the jumps that `jpc` starts. */
  datatype Gen = Gen(code: seq<Instr>, jpc: int, jl: seq<nat>, freereg: nat, max: nat, nactvar: nat)

  ghost predicate ValidGen(g: Gen) {
    && IsList(g.code, g.jpc, g.jl)
    && TestsPaired(g.code)
    && g.nactvar <= g.freereg <= g.max < MAXSTACK
  }

  class FuncState {
    var code: seq<Instr>
    var jpc: int
    var lasttarget: int
    var freereg: nat
    var maxstacksize: nat
    const nactvar: nat
    ghost var jl: seq<nat>

    ghost function View(): Gen
      reads this
    {
      Gen(code, jpc, jl, freereg, maxstacksize, nactvar)
    }

    /** A jump may not reach its target any more, or there is no register left. */
    predicate OverLimit()
      reads this`code, this`freereg
    {
      |code| >= MAXARG_SBX || freereg + 1 >= MAXSTACK
    }

    // ---------------------------------------------------------- jump lists

    /** `fixjump`. */
    method FixJump(pc: nat, dest: int) returns (s: Status)
      requires pc < |code| && code[pc].Jmp?
      modifies this`code
      ensures s.Fine? ==> code == old(code)[pc := Jmp(dest - (pc + 1))]
      ensures s.SyntaxError? ==> code == old(code) && (-1 <= dest <= |code| ==> OverLimit())
    {
      var offset := dest - (pc + 1);
      if (if offset < 0 then -offset else offset) > MAXARG_SBX {
        return SyntaxError("control structure too long");
      }
      code := code[pc := Jmp(offset)];
      return Fine;
    }

    /** `patchtestreg`: whether the jump at `node` carries a value, whose test is changed to copy it to `reg`. */
    method PatchTestReg(node: nat, reg: nat) returns (carries: bool)
      requires node < |code|
      modifies this`code
      ensures carries == old(CarriesValue(code, node))
      ensures code == if carries then old(code[node - 1 := Retest(code[node - 1], reg)]) else old(code)
      ensures |code| == |old(code)| && code[node] == old(code[node])
    {
      if node < 1 || !code[node - 1].TestSet? {
        return false;
      }
      var b := code[node - 1].b;
      if reg != NO_REG && reg != b {
        code := code[node - 1 := TestSet(reg, b, code[node - 1].cond)];
      } else {
        code := code[node - 1 := TestOnly(b, code[node - 1].cond)];
      }
      return true;
    }

    /** The body of the loop of `patchlistaux`: one jump gets its target. */
    method PatchJump(list: nat, vtarget: int, reg: nat, dtarget: int) returns (s: Status)
      requires list < |code| && code[list].Jmp?
      modifies this`code
      ensures s.Fine? ==> code == PatchOne(old(code), list, vtarget, reg, dtarget)
      ensures s.SyntaxError? ==> |code| == |old(code)| && (-1 <= vtarget <= |code| && -1 <= dtarget <= |code| ==> OverLimit())
    {
      var carries := PatchTestReg(list, reg);
      if carries {
        :- FixJump(list, vtarget);
      } else {
        :- FixJump(list, dtarget);
      }
      return Fine;
    }

    /** `patchlistaux`: every jump of the list `q` gets a target, and nothing but these jumps and their tests changes. */
    method PatchListAux(list0: int, vtarget: int, reg: nat, dtarget: int, ghost q: seq<nat>) returns (s: Status)
      requires IsList(code, list0, q)
      modifies this`code
      ensures s.Fine? ==> code == Patch(old(code), q, vtarget, reg, dtarget)
      ensures s.SyntaxError? ==> |code| == |old(code)| && (-1 <= vtarget <= |code| && -1 <= dtarget <= |code| ==> OverLimit())
    {
      ghost var was, k := code, 0;
      var list := list0;
      PatchNone(code, vtarget, reg, dtarget);
      assert q[0..] == q;
      hide Patch, PatchedAt, Linked, NextJump, CarriesValue, Retest, IsList, PatchOne;
      while list != NO_JUMP
        invariant k <= |q| && IsList(was, list, q[k..]) && |code| == |was|
        invariant code == Patch(was, q[..k], vtarget, reg, dtarget)
        decreases |q| - k
      {
        ListRest(was, list, q, k);
        PatchedEntry(was, list0, q, k, vtarget, reg, dtarget);
        var next := NextJump(code, list);
        :- PatchJump(list, vtarget, reg, dtarget);
        list := next;
        k := k + 1;
      }
      ListEnd(was, q[k..]);
      assert q[..k] == q;
      return Fine;
    }

    /** `dischargejpc`. */
    method DischargeJpc() returns (s: Status)
      requires IsList(code, jpc, jl)
      modifies this`code, this`jpc, this`jl
      ensures s.Fine? ==> code == Patch(old(code), old(jl), |old(code)|, NO_REG, |old(code)|) && jpc == NO_JUMP && jl == []
      ensures s.SyntaxError? ==> OverLimit()
      ensures |code| == |old(code)|
    {
      ghost var q := jl;
      :- PatchListAux(jpc, |code|, NO_REG, |code|, q);
      jpc := NO_JUMP;
      jl := [];
      return Fine;
    }

    /** `luaK_code`: the pending jumps are sent to the new instruction. */
    method Code(i: Instr) returns (s: Status)
      requires IsList(code, jpc, jl)
      modifies this`code, this`jpc, this`jl
      ensures s.Fine? ==> code == Emitted(old(code), old(jl), i) && jpc == NO_JUMP && jl == []
      ensures s.SyntaxError? ==> OverLimit()
      ensures |code| <= |old(code)| + 1
    {
      ghost var was := |code|;
      :- DischargeJpc();
      assert |code| == was;
      code := code + [i];
      return Fine;
    }

    /** `luaK_concat`: the list `q` is appended to the list `p`. */
    method Concat(l1: int, l2: int, ghost p: seq<nat>, ghost q: seq<nat>) returns (s: Status, l: int)
      requires IsList(code, l1, p) && IsList(code, l2, q) && Disjoint(p, q)
      modifies this`code
      ensures s.Fine? ==> code == Threaded(old(code), p, q) && IsList(code, l, p + q)
      ensures s.SyntaxError? ==> OverLimit()
      ensures |code| == |old(code)|
    {
      ThreadedList(code, l1, p, l2, q);
      if l2 == NO_JUMP {
        return Fine, l1;
      }
      if l1 == NO_JUMP {
        return Fine, l2;
      }
      l := l1;
      var list := l1;
      ghost var k := 0;
      assert Linked(code, p, 0);
      while NextJump(code, list) != NO_JUMP
        invariant 0 <= k < |p| && list == p[k] && code == old(code) && Linked(code, p, k)
        decreases |p| - k
      {
        list := NextJump(code, list);
        k := k + 1;
        assert Linked(code, p, k);
      }
      :- FixJump(list, l2);
      return Fine, l1;
    }

    /** `luaK_jump`: jumps pending to the place of the new one are kept on hold, to go where it goes. */
    method Jump() returns (s: Status, j: int)
      requires IsList(code, jpc, jl)
      modifies this`code, this`jpc, this`jl
      ensures s.Fine? ==>
                && |code| == |old(code)| + 1 && code[..|old(code)|] == old(code) && code[|old(code)|].Jmp?
                && j == |old(code)| && IsList(code, j, [|old(code)|] + old(jl))
                && (old(jl) == [] ==> code[|old(code)|] == Jmp(NO_JUMP))
                && jpc == NO_JUMP && jl == []
      ensures s.SyntaxError? ==> OverLimit()
      ensures |code| <= |old(code)| + 1
    {
      j := NO_JUMP;
      var saved := jpc;
      ghost var held, was := jl, code;
      jpc := NO_JUMP;
      jl := [];
      PatchNone(code, |code|, NO_REG, |code|);
      :- Code(Jmp(NO_JUMP));
      j := |code| - 1;
      assert code == was + [Jmp(NO_JUMP)];
      ListKept(was, code, saved, held);
      assert IsList(code, j, [j]) by {
        assert Linked(code, [j], 0);
      }
      s, j := Concat(j, saved, [j], held);
      assert s.Fine? ==> code[..|was|] == was;
    }

    /** `condjump`. */
    method CondJump(test: Instr) returns (s: Status, j: int)
      requires IsList(code, jpc, jl)
      modifies this`code, this`jpc, this`jl
      ensures s.Fine? ==>
                && code == Emitted(old(code), old(jl), test) + [Jmp(NO_JUMP)]
                && j == |old(code)| + 1 && IsList(code, j, [|old(code)| + 1])
                && jpc == NO_JUMP && jl == []
      ensures s.SyntaxError? ==> OverLimit()
      ensures |code| <= |old(code)| + 2
    {
      j := NO_JUMP;
      :- Code(test);
      ghost var was := code;
      s, j := Jump();
      assert s.Fine? ==> code == was + [Jmp(NO_JUMP)];
    }

    /** `luaK_getlabel`. */
    method GetLabel() returns (pc: nat)
      modifies this`lasttarget
      ensures pc == |code| == lasttarget
    {
      lasttarget := |code|;
      return |code|;
    }

    /** `luaK_patchtohere`: the jumps of the list `q` join those pending to the next instruction. */
    method PatchToHere(list: int, ghost q: seq<nat>) returns (s: Status)
      requires IsList(code, jpc, jl) && IsList(code, list, q) && Disjoint(jl, q)
      modifies this`code, this`jpc, this`jl, this`lasttarget
      ensures s.Fine? ==> code == Threaded(old(code), old(jl), q) && jl == old(jl) + q && IsList(code, jpc, jl)
      ensures s.SyntaxError? ==> OverLimit()
      ensures |code| == |old(code)|
    {
      var pc := GetLabel();
      ghost var was := jl;
      var l;
      s, l := Concat(jpc, list, jl, q);
      if s.Fine? {
        jpc := l;
        jl := was + q;
      }
    }

    /** `need_value`: some jump of the list does not carry its value. */
    method NeedValue(list0: int, ghost q: seq<nat>) returns (needed: bool)
      requires IsList(code, list0, q)
      ensures needed <==> NeedsValue(code, q)
    {
      var list := list0;
      ghost var k := 0;
      while list != NO_JUMP
        invariant k <= |q| && list == (if k < |q| then q[k] else NO_JUMP)
        invariant forall i :: 0 <= i < k ==> CarriesValue(code, q[i])
        decreases |q| - k
      {
        if list < 1 || !code[list - 1].TestSet? {
          assert !CarriesValue(code, q[k]);
          return true;
        }
        assert Linked(code, q, k);
        list := NextJump(code, list);
        k := k + 1;
      }
      return false;
    }

    /** `removevalues`. */
    method RemoveValues(list0: int, ghost q: seq<nat>) returns (s: Status)
      requires IsList(code, list0, q)
      modifies this`code
      ensures s.Fine? && code == ValuesRemoved(old(code), q)
    {
      ghost var was, k := code, 0;
      var list := list0;
      assert ValuesRemoved(was, q[..0]) == was;
      while list != NO_JUMP
        invariant k <= |q| && list == (if k < |q| then q[k] else NO_JUMP)
        invariant code == ValuesRemoved(was, q[..k])
        decreases |q| - k
      {
        assert Linked(was, q, k) && was[q[k]].Jmp?;
        assert q[..k + 1] == q[..k] + [q[k]];
        ValuesRemovedStep(was, q[..k], list);
        var next := NextJump(code, list);
        var carries := PatchTestReg(list, NO_REG);
        list := next;
        k := k + 1;
      }
      assert q[..k] == q;
      return Fine;
    }

    // ----------------------------------------------------------- registers

    /** `luaK_checkstack`. */
    method CheckStack(n: nat) returns (s: Status)
      modifies this`maxstacksize
      ensures s.Fine? ==> maxstacksize == if freereg + n > old(maxstacksize) then freereg + n else old(maxstacksize)
      ensures s.Fine? && old(maxstacksize) < MAXSTACK ==> maxstacksize < MAXSTACK
      ensures s.SyntaxError? ==> freereg == old(freereg) && freereg + n >= MAXSTACK
    {
      var newstack := freereg + n;
      if newstack > maxstacksize {
        if newstack >= MAXSTACK {
          return SyntaxError("function or expression too complex");
        }
        maxstacksize := newstack;
      }
      return Fine;
    }

    /** `luaK_reserveregs`. */
    method ReserveRegs(n: nat) returns (s: Status)
      modifies this`maxstacksize, this`freereg
      ensures s.Fine? ==> freereg == old(freereg) + n && maxstacksize == if freereg > old(maxstacksize) then freereg else old(maxstacksize)
      ensures s.Fine? && old(maxstacksize) < MAXSTACK ==> maxstacksize < MAXSTACK
      ensures s.SyntaxError? ==> freereg == old(freereg) && freereg + n >= MAXSTACK
    {
      ghost var was := freereg;
      :- CheckStack(n);
      freereg := freereg + n;
      return Fine;
    }

    /** `freereg`: a temporary is freed, and it is the last one. */
    method FreeReg(reg: nat)
      requires reg >= nactvar ==> freereg == reg + 1
      modifies this`freereg
      ensures freereg == if reg >= nactvar then old(freereg) - 1 else old(freereg)
    {
      if reg >= nactvar {
        freereg := freereg - 1;
      }
    }
  }

  /** One jump with its target, and the test that controls it with `reg`. */
  function PatchOne(code: seq<Instr>, j: nat, vtarget: int, reg: nat, dtarget: int): (r: seq<Instr>)
    requires j < |code|
    ensures |r| == |code|
  {
    if CarriesValue(code, j) then code[j - 1 := Retest(code[j - 1], reg)][j := Jmp(vtarget - (j + 1))]
    else code[j := Jmp(dtarget - (j + 1))]
  }

  /** A list from its entry `k` on. */
  lemma ListRest(code: seq<Instr>, list: int, q: seq<nat>, k: nat)
    requires k <= |q| && IsList(code, list, q[k..]) && list != NO_JUMP
    ensures k < |q| && list == q[k] && list < |code| && code[list].Jmp?
    ensures IsList(code, NextJump(code, list), q[k + 1..])
  {
    ListTail(code, list, q[k..]);
    assert q[k..][1..] == q[k + 1..];
  }

  lemma ListEnd(code: seq<Instr>, q: seq<nat>)
    requires IsList(code, NO_JUMP, q)
    ensures q == []
  {
  }

  /** One more entry of a list, seen in the code with the entries before it patched. */
  lemma PatchedEntry(code: seq<Instr>, head: int, q: seq<nat>, k: nat, vtarget: int, reg: nat, dtarget: int)
    requires k < |q| && IsList(code, head, q)
    ensures var c := Patch(code, q[..k], vtarget, reg, dtarget); var j := q[k];
            && j < |code| == |c| && code[j].Jmp? && c[j] == code[j] && NextJump(c, j) == NextJump(code, j)
            && Patch(code, q[..k + 1], vtarget, reg, dtarget) == PatchOne(c, j, vtarget, reg, dtarget)
  {
    assert q[..k + 1] == q[..k] + [q[k]];
    assert q[k] !in q[..k];
    PatchStep(code, q[..k], q[k], vtarget, reg, dtarget);
  }
}
