/**
Runs of code whose pending jumps have no target yet, and what becomes of such a
run when the jumps are given one.

The code of an expression only jumps forward. `here` holds the jumps that will
be sent to the next instruction emitted (the list `jpc`), `out` the jumps on the
two lists of the expression descriptor.
*/
module CodeRuns {
  import opened Bytecode

  const NO_JUMP: int := -1
  const NO_REG: nat := 255

  /** A jump that follows a test is reached through that test alone. */
  predicate Controlled(code: seq<Instr>, j: nat) {
    1 <= j <= |code| && IsTest(code[j - 1])
  }

  /** The jump at `j` carries a value: its test copies one when the jump is taken. */
  predicate CarriesValue(code: seq<Instr>, j: nat) {
    1 <= j <= |code| && code[j - 1].TestSet?
  }

  // -------------------------------------------------------------------- runs

  datatype Outcome =
    | Fell(m: Machine)
    | Left(j: nat, m: Machine)
    | Stuck

  datatype Next = Goto(pc: nat, m: Machine) | Take(j: nat, m: Machine) | Bad

  /** One instruction, or one test with the jump it controls; a copy made by the test waits for the jump. */
  function Unit(env: Env, code: seq<Instr>, pc: nat, m: Machine): Next
    requires pc < |code|
  {
    match code[pc]
    case Move(a, b) => Goto(pc + 1, Put(m, a, Get(m, b)))
    case LoadBool(a, value, skip) => Goto(if skip then pc + 2 else pc + 1, Put(m, a, Bool(value)))
    case Jmp(_) => if Controlled(code, pc) then Bad else Take(pc, m)
    case Compare(test, cond, b, c) =>
      var m1 := m.(trace := m.trace + [Compared(test, Get(m, b), Get(m, c))]);
      if env.compare(m.trace, test, Get(m, b), Get(m, c)) == cond then Take(pc + 1, m1) else Goto(pc + 2, m1)
    case TestOnly(a, cond) => if IsFalse(Get(m, a)) != cond then Take(pc + 1, m) else Goto(pc + 2, m)
    case TestSet(_, b, cond) => if IsFalse(Get(m, b)) != cond then Take(pc + 1, m) else Goto(pc + 2, m)
    case Other(_) => Bad
    case i =>
      var (v, trace) := Yields(env, i, m);
      Goto(pc + 1, Put(m.(trace := trace), i.a, v))
  }

  /** The machine once the jump at `j` is taken: its test may copy a value. */
  function Landed(code: seq<Instr>, j: nat, m: Machine): Machine {
    if CarriesValue(code, j) then Put(m, code[j - 1].a, Get(m, code[j - 1].b)) else m
  }

  /** From `pc` to the end `lim` of the code, or to a pending jump. */
  function Exec(env: Env, code: seq<Instr>, here: set<nat>, out: set<nat>, pc: nat, lim: nat, m: Machine): (o: Outcome)
    requires pc <= lim <= |code|
    ensures o.Left? ==> o.j in out && pc <= o.j < lim
    decreases lim - pc, 1
  {
    if pc == lim then Fell(m)
    else match Unit(env, code, pc, m)
      case Goto(next, m1) => if next <= lim then Exec(env, code, here, out, next, lim, m1) else Stuck
      case Take(j, m1) => Jumped(env, code, here, out, j, lim, m1)
      case Bad => Stuck
  }

  /** The jump at `j` is taken. */
  function Jumped(env: Env, code: seq<Instr>, here: set<nat>, out: set<nat>, j: nat, lim: nat, m: Machine): (o: Outcome)
    requires lim <= |code|
    ensures o.Left? ==> o.j in out && j <= o.j < lim
    decreases lim - j, 0
  {
    if j >= lim || !code[j].Jmp? then Stuck
    else if j in out then Left(j, m)
    else if j in here then Fell(m)
    else
      var dest := j + 1 + code[j].sbx;
      if j < dest <= lim then Exec(env, code, here, out, dest, lim, Landed(code, j, m)) else Stuck
  }

  // ------------------------------------------------------------- resuming runs

  /** The same test, though it may no longer copy a value, or copy it elsewhere. */
  predicate SameTest(i: Instr, i2: Instr) {
    || i2 == i
    || (i.TestSet? && i2.TestOnly? && i2.a == i.b && i2.cond == i.cond)
    || (i.TestSet? && i2.TestSet? && i2.b == i.b && i2.cond == i.cond)
  }

  /** From `lo` to `mid`, `code2` differs from `code` only in pending jumps and in the tests that control them. */
  ghost predicate Alike(code: seq<Instr>, pending: set<nat>, code2: seq<Instr>, lo: nat, mid: nat) {
    && lo <= mid <= |code| && mid <= |code2|
    && (lo > 0 ==> (IsTest(code2[lo - 1]) <==> IsTest(code[lo - 1])))
    && forall i :: lo <= i < mid ==> AlikeAt(code, pending, code2, i)
  }

  ghost predicate AlikeAt(code: seq<Instr>, pending: set<nat>, code2: seq<Instr>, i: nat)
    requires i < |code| && i < |code2|
  {
    if i in pending then code[i].Jmp? && code2[i].Jmp?
    else if i + 1 in pending then SameTest(code[i], code2[i])
    else code2[i] == code[i]
  }

  /** The jump at `j` of `code2` leads to `mid`, or to where execution from `mid` leads at once. */
  ghost predicate LeadsTo(code2: seq<Instr>, here2: set<nat>, out2: set<nat>, j: nat, mid: nat, lim: nat)
    requires mid <= lim <= |code2|
  {
    && j < mid && code2[j].Jmp? && j !in out2
    && (if j in here2 then mid == lim || (code2[mid].Jmp? && !Controlled(code2, mid) && mid in here2 && mid !in out2)
        else j + 1 + code2[j].sbx == mid && !CarriesValue(code2, j))
  }

  /** `code2` up to `mid` is `code` with some pending jumps given a target from `mid` on, or none yet. */
  ghost predicate Resolves(code: seq<Instr>, here: set<nat>, out: set<nat>,
                           code2: seq<Instr>, here2: set<nat>, out2: set<nat>, lo: nat, mid: nat, lim: nat) {
    && Alike(code, here + out, code2, lo, mid)
    && mid <= lim <= |code2|
    && (forall i :: lo <= i < mid && i !in here && i !in out ==> i !in here2 && i !in out2)
    && (forall j :: lo <= j < mid && j in here && j !in out ==> LeadsTo(code2, here2, out2, j, mid, lim))
  }

  lemma UnitAlike(env: Env, code: seq<Instr>, pending: set<nat>, code2: seq<Instr>, lo: nat, mid: nat, pc: nat, m: Machine)
    requires Alike(code, pending, code2, lo, mid) && lo <= pc < mid
    requires pc !in pending
    ensures Unit(env, code2, pc, m) == Unit(env, code, pc, m)
  {
    assert AlikeAt(code, pending, code2, pc);
    if pc > lo {
      assert AlikeAt(code, pending, code2, pc - 1);
    }
  }

  lemma ControlAlike(code: seq<Instr>, pending: set<nat>, code2: seq<Instr>, lo: nat, mid: nat, pc: nat)
    requires Alike(code, pending, code2, lo, mid) && lo <= pc < mid
    ensures Controlled(code2, pc) <==> Controlled(code, pc)
  {
    if pc > lo {
      assert AlikeAt(code, pending, code2, pc - 1);
    }
  }

  lemma LandedAlike(code: seq<Instr>, pending: set<nat>, code2: seq<Instr>, lo: nat, mid: nat, j: nat, m: Machine)
    requires Alike(code, pending, code2, lo, mid) && lo <= j < mid && j !in pending
    requires j == lo ==> !Controlled(code, lo)
    ensures Landed(code2, j, m) == Landed(code, j, m)
  {
    if j > lo {
      assert AlikeAt(code, pending, code2, j - 1);
    }
  }

  /** A jump that leads to `mid` resumes there with nothing changed. */
  lemma LeadsRun(env: Env, code2: seq<Instr>, here2: set<nat>, out2: set<nat>, j: nat, mid: nat, lim: nat, m: Machine)
    requires mid <= lim <= |code2| && LeadsTo(code2, here2, out2, j, mid, lim)
    ensures Jumped(env, code2, here2, out2, j, lim, m) == Exec(env, code2, here2, out2, mid, lim, m)
  {
  }

  /**
  A run to `mid` in the old code, resumed in the new: where the old run fell off
  the end the new one goes on from `mid`, and where it left through a pending
  jump the new one takes that jump.
  */
  ghost predicate ResumesAs(env: Env, o: Outcome, r: Outcome, code2: seq<Instr>, here2: set<nat>, out2: set<nat>,
                            mid: nat, lim: nat)
    requires mid <= lim <= |code2|
  {
    match o
    case Fell(m1) => r == Exec(env, code2, here2, out2, mid, lim, m1)
    case Left(j, m1) => r == Jumped(env, code2, here2, out2, j, lim, m1)
    case Stuck => true
  }

  lemma {:induction false} ResumeRun(env: Env, code: seq<Instr>, here: set<nat>, out: set<nat>,
      code2: seq<Instr>, here2: set<nat>, out2: set<nat>, lo: nat, mid: nat, lim: nat, pc: nat, m: Machine)
    requires Resolves(code, here, out, code2, here2, out2, lo, mid, lim) && lo <= pc <= mid
    ensures ResumesAs(env, Exec(env, code, here, out, pc, mid, m), Exec(env, code2, here2, out2, pc, lim, m),
                      code2, here2, out2, mid, lim)
    decreases mid - pc, 1
  {
    if pc < mid {
      if pc in here + out {
        assert AlikeAt(code, here + out, code2, pc);
        ControlAlike(code, here + out, code2, lo, mid, pc);
      } else {
        UnitAlike(env, code, here + out, code2, lo, mid, pc, m);
      }
      hide Unit;
      match Unit(env, code, pc, m) {
        case Goto(next, m1) =>
          if next <= mid {
            ResumeRun(env, code, here, out, code2, here2, out2, lo, mid, lim, next, m1);
          }
        case Take(j, m1) => ResumeJump(env, code, here, out, code2, here2, out2, lo, mid, lim, j, m1);
        case Bad =>
      }
    }
  }

  lemma {:induction false} ResumeJump(env: Env, code: seq<Instr>, here: set<nat>, out: set<nat>,
      code2: seq<Instr>, here2: set<nat>, out2: set<nat>, lo: nat, mid: nat, lim: nat, j: nat, m: Machine)
    requires Resolves(code, here, out, code2, here2, out2, lo, mid, lim) && lo <= j
    requires j == lo ==> !Controlled(code, lo)
    ensures ResumesAs(env, Jumped(env, code, here, out, j, mid, m), Jumped(env, code2, here2, out2, j, lim, m),
                      code2, here2, out2, mid, lim)
    decreases mid - j, 0
  {
    if j < mid && code[j].Jmp? && j !in out {
      if j in here {
        LeadsRun(env, code2, here2, out2, j, mid, lim, m);
      } else {
        assert AlikeAt(code, here + out, code2, j);
        LandedAlike(code, here + out, code2, lo, mid, j, m);
        var dest := j + 1 + code[j].sbx;
        if j < dest <= mid {
          ResumeRun(env, code, here, out, code2, here2, out2, lo, mid, lim, dest, Landed(code, j, m));
        }
      }
    }
  }
}
