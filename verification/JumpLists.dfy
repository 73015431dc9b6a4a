/**
Patch lists: lists of jumps threaded through the jump fields of the code, and
what giving every jump of a list its target does to the code.
*/
module JumpLists {
  import opened Bytecode
  import opened CodeRuns

  /** `getjump`: the entry after `pc`; an offset of -1, a jump to itself, ends the list. */
  function NextJump(code: seq<Instr>, pc: nat): int
    requires pc < |code| && code[pc].Jmp?
  {
    if code[pc].sbx == NO_JUMP then NO_JUMP else pc + 1 + code[pc].sbx
  }

  predicate Distinct(q: seq<nat>) {
    forall i, j :: 0 <= i < j < |q| ==> q[i] != q[j]
  }

  predicate AllJumps(code: seq<Instr>, q: seq<nat>) {
    forall i :: 0 <= i < |q| ==> q[i] < |code| && code[q[i]].Jmp?
  }

  /** `head` starts a list that visits the jumps `q`, each once, in this order. */
  predicate IsList(code: seq<Instr>, head: int, q: seq<nat>) {
    && AllJumps(code, q)
    && Distinct(q)
    && head == (if q == [] then NO_JUMP else q[0])
    && forall i :: 0 <= i < |q| ==> Linked(code, q, i)
  }

  /** Entry `i` of `q` leads on to the entry after it, and the last one to the end of the list. */
  predicate Linked(code: seq<Instr>, q: seq<nat>, i: nat)
    requires i < |q| && AllJumps(code, q)
  {
    NextJump(code, q[i]) == if i + 1 < |q| then q[i + 1] else NO_JUMP
  }

  predicate Disjoint(p: seq<nat>, q: seq<nat>) {
    forall x :: x in p ==> x !in q
  }

  lemma ListKept(code: seq<Instr>, code2: seq<Instr>, head: int, q: seq<nat>)
    requires IsList(code, head, q) && |code2| >= |code|
    requires forall x :: x in q ==> code2[x] == code[x]
    ensures IsList(code2, head, q)
  {
    forall i | 0 <= i < |q| ensures code2[q[i]] == code[q[i]] {
      assert q[i] in q;
    }
    assert AllJumps(code2, q);
    forall i | 0 <= i < |q| ensures Linked(code2, q, i) {
      assert Linked(code, q, i);
    }
  }

  lemma ListTail(code: seq<Instr>, head: int, q: seq<nat>)
    requires IsList(code, head, q) && q != []
    ensures IsList(code, NextJump(code, q[0]), q[1..]) && q[0] !in q[1..]
  {
    assert AllJumps(code, q[1..]);
    forall i | 0 <= i < |q| - 1 ensures Linked(code, q[1..], i) {
      assert Linked(code, q, i + 1);
    }
    assert Linked(code, q, 0);
  }

  // --------------------------------------------------------------- concat

  /** `code` with the last jump of `p` leading on to the first of `q`. */
  function Threaded(code: seq<Instr>, p: seq<nat>, q: seq<nat>): (r: seq<Instr>)
    requires AllJumps(code, p)
    ensures |r| == |code|
  {
    if p == [] || q == [] then code
    else
      var last := p[|p| - 1];
      code[last := Jmp(q[0] as int - (last + 1))]
  }

  lemma ThreadedList(code: seq<Instr>, l1: int, p: seq<nat>, l2: int, q: seq<nat>)
    requires IsList(code, l1, p) && IsList(code, l2, q) && Disjoint(p, q)
    ensures IsList(Threaded(code, p, q), if p == [] then l2 else l1, p + q)
  {
    var c, r := Threaded(code, p, q), p + q;
    forall i | 0 <= i < |p| ensures p[i] in p && p[i] !in q {}
    forall i | 0 <= i < |q| ensures q[i] in q && q[i] !in p {}
    forall i, j | 0 <= i < j < |r| ensures r[i] != r[j] {}
    if p != [] && q != [] {
      var last := p[|p| - 1];
      assert AllJumps(c, r);
      forall i | 0 <= i < |r| ensures Linked(c, r, i) {
        if i < |p| - 1 {
          assert p[i] != last && Linked(code, p, i);
        } else if i >= |p| {
          assert q[i - |p|] != last && Linked(code, q, i - |p|);
        }
      }
    } else {
      assert r == if p == [] then q else p;
    }
  }

  // ----------------------------------------------------------------- patching

  /** `patchtestreg` on a TESTSET: it copies to `reg`, or not at all if there is no need. */
  function Retest(i: Instr, reg: nat): Instr
    requires i.TestSet?
  {
    if reg != NO_REG && reg != i.b then TestSet(reg, i.b, i.cond) else TestOnly(i.b, i.cond)
  }

  /** The instruction at `i` once the jumps of `q` that carry a value lead to `vtarget` and the others to `dtarget`. */
  function PatchedAt(code: seq<Instr>, q: seq<nat>, vtarget: int, reg: nat, dtarget: int, i: nat): Instr
    requires i < |code|
  {
    if i in q then Jmp((if CarriesValue(code, i) then vtarget else dtarget) - (i + 1))
    else if i + 1 in q && code[i].TestSet? then Retest(code[i], reg)
    else code[i]
  }

  /** `patchlistaux`. */
  function Patch(code: seq<Instr>, q: seq<nat>, vtarget: int, reg: nat, dtarget: int): (r: seq<Instr>)
    ensures |r| == |code|
    ensures forall i :: 0 <= i < |code| ==> r[i] == PatchedAt(code, q, vtarget, reg, dtarget, i)
  {
    seq(|code|, i requires 0 <= i < |code| => PatchedAt(code, q, vtarget, reg, dtarget, i))
  }

  /** `removevalues`: the jumps of `q` stay as they are, their tests copy nothing. */
  function ValuesRemoved(code: seq<Instr>, q: seq<nat>): (r: seq<Instr>)
    ensures |r| == |code|
    ensures forall i :: 0 <= i < |code| ==>
              r[i] == if i + 1 in q && code[i].TestSet? then TestOnly(code[i].b, code[i].cond) else code[i]
  {
    seq(|code|, i requires 0 <= i < |code| =>
      if i + 1 in q && code[i].TestSet? then TestOnly(code[i].b, code[i].cond) else code[i])
  }

  lemma ValuesRemovedStep(code: seq<Instr>, p: seq<nat>, j: nat)
    requires j < |code| && j !in p
    ensures var c := ValuesRemoved(code, p);
            ValuesRemoved(code, p + [j]) ==
              if CarriesValue(c, j) then c[j - 1 := TestOnly(c[j - 1].b, c[j - 1].cond)] else c
    ensures CarriesValue(ValuesRemoved(code, p), j) <==> CarriesValue(code, j)
  {
    var c, d := ValuesRemoved(code, p), ValuesRemoved(code, p + [j]);
    var e := if CarriesValue(c, j) then c[j - 1 := TestOnly(c[j - 1].b, c[j - 1].cond)] else c;
    forall i | 0 <= i < |code| ensures d[i] == e[i] {
      assert i + 1 in p + [j] <==> i + 1 in p || i + 1 == j;
    }
  }

  /** Patching one more jump. */
  lemma PatchStep(code: seq<Instr>, p: seq<nat>, j: nat, vtarget: int, reg: nat, dtarget: int)
    requires AllJumps(code, p + [j]) && j !in p
    ensures var c := Patch(code, p, vtarget, reg, dtarget);
            && (CarriesValue(c, j) <==> CarriesValue(code, j))
            && j < |code| && c[j] == code[j]
            && Patch(code, p + [j], vtarget, reg, dtarget) ==
                 if CarriesValue(c, j) then c[j - 1 := Retest(c[j - 1], reg)][j := Jmp(vtarget - (j + 1))]
                 else c[j := Jmp(dtarget - (j + 1))]
  {
    var c, d := Patch(code, p, vtarget, reg, dtarget), Patch(code, p + [j], vtarget, reg, dtarget);
    assert (p + [j])[|p|] == j;
    forall x | x in p ensures x < |code| && code[x].Jmp? {
      var k :| 0 <= k < |p| && p[k] == x;
      assert (p + [j])[k] == x;
    }
    var e := if CarriesValue(c, j) then c[j - 1 := Retest(c[j - 1], reg)][j := Jmp(vtarget - (j + 1))]
             else c[j := Jmp(dtarget - (j + 1))];
    forall i | 0 <= i < |code| ensures d[i] == e[i] {
      assert forall x :: x in p + [j] <==> x in p || x == j;
    }
  }

  lemma PatchNone(code: seq<Instr>, vtarget: int, reg: nat, dtarget: int)
    ensures Patch(code, [], vtarget, reg, dtarget) == code
  {
  }
}
