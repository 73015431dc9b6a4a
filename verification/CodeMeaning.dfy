/**
What the code of an expression means while some of its jumps are still pending,
and how each step of the code generator changes it.
*/
module CodeMeaning {
  import opened Bytecode
  import opened CodeRuns
  import opened JumpLists

  function Positions(q: seq<nat>): (s: set<nat>)
    ensures forall x :: x in s <==> x in q
  {
    set x | x in q
  }

  /** What holds where the code of an expression ends. */
  datatype End =
    | InReg(reg: nat)         // the value is in a register
    | Yield(i: Instr)         // the instruction there computes it
    | Tested(i: Instr)        // the comparison there tells it
    | Exactly(b: bool)        // it is this boolean
    | Truth(b: bool)          // it counts as true, or as false

  /**
  The code of an expression: pending jumps to its end (`jl`), jumps taken when
  its value is known to be true (`tl`) or false (`fl`), and how it ends at `lim`.
  */
  datatype Part = Part(code: seq<Instr>, jl: seq<nat>, tl: seq<nat>, fl: seq<nat>, lim: nat, end: End)

  /** At its end the value is `v` and the trace `trace`. */
  ghost predicate Yielded(env: Env, end: End, m: Machine, v: Value, trace: seq<Event>) {
    match end
    case InReg(r) => Get(m, r) == v && m.trace == trace
    case Yield(i) => Relocatable(i) && Yields(env, i, m) == (v, trace)
    case Tested(i) =>
      && i.Compare?
      && v == Bool(env.compare(m.trace, i.test, Get(m, i.b), Get(m, i.c)) == i.cond)
      && trace == m.trace + [Compared(i.test, Get(m, i.b), Get(m, i.c))]
    case Exactly(b) => v == Bool(b) && m.trace == trace
    case Truth(b) => IsFalse(v) != b && m.trace == trace
  }

  /** The registers below `n` hold what they held, but for `but`. */
  ghost predicate SameBelow(m: Machine, m2: Machine, n: nat, but: int) {
    && |m2.regs| == |m.regs|
    && forall r :: 0 <= r < n && r < |m.regs| && r != but ==> m2.regs[r] == m.regs[r]
  }

  /** A jump taken with `v` known: its test copies `v`, or `v` is a boolean. */
  ghost predicate Carried(code: seq<Instr>, j: nat, m: Machine, v: Value) {
    if CarriesValue(code, j) then Get(m, code[j - 1].b) == v else v.Bool?
  }

  ghost predicate Fits(p: Part, start: nat) {
    start <= p.lim <= |p.code|
  }

  ghost function RunOf(env: Env, p: Part, start: nat, m: Machine): Outcome
    requires Fits(p, start)
  {
    Exec(env, p.code, Positions(p.jl), Positions(p.tl) + Positions(p.fl), start, p.lim, m)
  }

  /** The run `o` of `p` evaluates to `v`, keeping the registers below `base` but `but`. */
  ghost predicate Arrives(env: Env, p: Part, o: Outcome, base: nat, but: int, m: Machine, v: Value, trace: seq<Event>) {
    match o
    case Fell(m2) => SameBelow(m, m2, base, but) && Yielded(env, p.end, m2, v, trace)
    case Left(j, m2) =>
      && SameBelow(m, m2, base, but) && m2.trace == trace && Carried(p.code, j, m2, v)
      && (j in p.tl ==> !IsFalse(v)) && (j in p.fl ==> IsFalse(v))
    case Stuck => false
  }

  /** Run from `start` on machine `m`, `p` evaluates `x`. */
  ghost predicate Means(env: Env, p: Part, x: Expr, start: nat, base: nat, but: int, m: Machine)
    requires Fits(p, start)
  {
    var (v, trace) := Eval(env, x, m.regs, m.trace);
    Arrives(env, p, RunOf(env, p, start, m), base, but, m, v, trace)
  }

  /** `p` evaluates `x` on every machine that has `max` registers. */
  ghost predicate Evaluates(p: Part, x: Expr, start: nat, base: nat, but: int, max: nat) {
    Fits(p, start) && forall env: Env, m: Machine :: |m.regs| >= max ==> Means(env, p, x, start, base, but, m)
  }

  // ------------------------------------------------- the structure of a part

  /** Every test has its jump. */
  predicate TestsPaired(code: seq<Instr>) {
    forall i {:trigger IsTest(code[i])} :: 0 <= i < |code| && IsTest(code[i]) ==> i + 1 < |code| && code[i + 1].Jmp?
  }

  /** The jumps of an expression's lists: behind `start`, before `lim`, each controlled by a test. */
  ghost predicate Exits(code: seq<Instr>, start: nat, lim: nat, q: seq<nat>) {
    lim <= |code| && forall j :: j in q ==> start < j < lim && code[j].Jmp? && IsTest(code[j - 1])
  }

  ghost predicate Sound(p: Part, start: nat) {
    && Fits(p, start)
    && AllJumps(p.code, p.jl)
    && Exits(p.code, start, p.lim, p.tl) && Exits(p.code, start, p.lim, p.fl)
    && Disjoint(p.tl, p.fl) && Disjoint(p.jl, p.tl) && Disjoint(p.jl, p.fl)
  }

  lemma JumpIn(code: seq<Instr>, q: seq<nat>, j: nat)
    requires AllJumps(code, q) && j in q
    ensures j < |code| && code[j].Jmp?
  {
  }

  lemma TestNotIn(code: seq<Instr>, q: seq<nat>, i: nat)
    requires AllJumps(code, q) && i < |code| && !code[i].Jmp?
    ensures i !in q
  {
  }

  // ---------------------------------------------------------------- emission

  /** `luaK_code`: the pending jumps are sent here and `i` follows. */
  function Emitted(code: seq<Instr>, jl: seq<nat>, i: Instr): seq<Instr> {
    Patch(code, jl, |code|, NO_REG, |code|) + [i]
  }

  lemma PatchedTests(code: seq<Instr>, q: seq<nat>, vtarget: int, reg: nat, dtarget: int, i: nat)
    requires AllJumps(code, q) && i < |code|
    ensures var c := Patch(code, q, vtarget, reg, dtarget);
            && (IsTest(c[i]) <==> IsTest(code[i])) && (c[i].Jmp? <==> code[i].Jmp?)
            && (i !in q ==> SameTest(code[i], c[i]))
            && (i !in q && i + 1 !in q ==> c[i] == code[i])
  {
    if i in q {
      JumpIn(code, q, i);
    }
  }

  /** After an emission, a run resumes at the new instruction. */
  lemma EmitResolves(code: seq<Instr>, jl: seq<nat>, out: set<nat>, code2: seq<Instr>, start: nat, lim: nat)
    requires AllJumps(code, jl) && (forall j :: j in jl ==> j !in out)
    requires |code| <= lim <= |code2| && code2[..|code|] == Patch(code, jl, |code|, NO_REG, |code|)
    requires forall j :: j in out && start <= j < |code| ==> code[j].Jmp?
    requires start <= |code|
    ensures Resolves(code, Positions(jl), out, code2, {}, out, start, |code|, lim)
  {
    var n := |code|;
    var c := Patch(code, jl, n, NO_REG, n);
    assert forall i :: 0 <= i < n ==> code2[i] == c[i];
    if start > 0 {
      PatchedTests(code, jl, n, NO_REG, n, start - 1);
    }
    forall i | start <= i < n ensures AlikeAt(code, Positions(jl) + out, code2, i) {
      PatchedTests(code, jl, n, NO_REG, n, i);
      if i in jl {
        JumpIn(code, jl, i);
      }
    }
    forall j | start <= j < n && j in jl ensures LeadsTo(code2, {}, out, j, n, lim) {
      JumpIn(code, jl, j);
      if j > 0 && code[j - 1].TestSet? {
        PatchedTests(code, jl, n, NO_REG, n, j - 1);
      }
    }
  }

  /** The two outcomes of a run are the same, down to how values are carried. */
  ghost predicate SameArrival(p: Part, p2: Part, o: Outcome, o2: Outcome) {
    && o2 == o
    && p2.tl == p.tl && p2.fl == p.fl && p2.end == p.end
    && (o.Left? ==> CarriesAlike(p.code, p2.code, o.j))
  }

  /** Both codes carry a value to the jump at `j`, from the same register, or neither does. */
  ghost predicate CarriesAlike(code: seq<Instr>, code2: seq<Instr>, j: nat) {
    && (CarriesValue(code2, j) <==> CarriesValue(code, j))
    && (CarriesValue(code, j) ==> code2[j - 1].b == code[j - 1].b)
  }

  /** A part whose runs arrive as those of `p` do means the same. */
  lemma SameMeaning(env: Env, p: Part, p2: Part, x: Expr, start: nat, base: nat, but: int, m: Machine)
    requires Fits(p, start) && Fits(p2, start) && Means(env, p, x, start, base, but, m)
    requires SameArrival(p, p2, RunOf(env, p, start, m), RunOf(env, p2, start, m))
    ensures Means(env, p2, x, start, base, but, m)
  {
    hide RunOf;
  }

  /** After an emission the part is what it was, with no jump pending to its end. */
  lemma EmitMeans(p: Part, x: Expr, start: nat, base: nat, but: int, max: nat, code2: seq<Instr>)
    requires Sound(p, start) && p.lim == |p.code| && Evaluates(p, x, start, base, but, max)
    requires |code2| >= |p.code| && code2[..|p.code|] == Patch(p.code, p.jl, |p.code|, NO_REG, |p.code|)
    ensures var p2 := p.(code := code2, jl := []); Sound(p2, start) && Evaluates(p2, x, start, base, but, max)
  {
    var p2 := p.(code := code2, jl := []);
    EmitSound(p, start, code2);
    var out := Positions(p.tl) + Positions(p.fl);
    EmitResolves(p.code, p.jl, out, code2, start, p.lim);
    assert Positions(p2.jl) == {};
    forall env: Env, m: Machine | |m.regs| >= max ensures Means(env, p2, x, start, base, but, m) {
      assert Means(env, p, x, start, base, but, m);
      ResumeRun(env, p.code, Positions(p.jl), out, code2, {}, out, start, p.lim, p.lim, start, m);
      SameMeaning(env, p, p2, x, start, base, but, m);
    }
  }

  lemma EmitSound(p: Part, start: nat, code2: seq<Instr>)
    requires Sound(p, start) && p.lim == |p.code|
    requires |code2| >= |p.code| && code2[..|p.code|] == Patch(p.code, p.jl, |p.code|, NO_REG, |p.code|)
    ensures Sound(p.(code := code2, jl := []), start)
    ensures forall j :: j in p.tl || j in p.fl ==> CarriesAlike(p.code, code2, j)
  {
    var n := |p.code|;
    assert forall i :: 0 <= i < n ==> code2[i] == PatchedAt(p.code, p.jl, n, NO_REG, n, i);
    forall j | j in p.tl || j in p.fl
      ensures start < j < n && code2[j].Jmp? && IsTest(code2[j - 1]) && CarriesAlike(p.code, code2, j)
    {
      PatchedTests(p.code, p.jl, n, NO_REG, n, j);
      PatchedTests(p.code, p.jl, n, NO_REG, n, j - 1);
    }
  }

  /** Code that differs before `p.lim` only in the links of pending jumps. */
  ghost predicate Relinked(p: Part, code2: seq<Instr>) {
    && (p.lim == |p.code| || p.jl == [])
    && p.lim <= |p.code| && p.lim <= |code2|
    && forall i :: 0 <= i < p.lim ==> RelinkedAt(p, code2, i)
  }

  ghost predicate RelinkedAt(p: Part, code2: seq<Instr>, i: nat)
    requires i < |p.code| && i < |code2|
  {
    code2[i] == p.code[i] || (code2[i].Jmp? && p.code[i].Jmp? && (i in p.jl || i in p.tl || i in p.fl))
  }

  lemma RelinkedSound(p: Part, start: nat, code2: seq<Instr>)
    requires Sound(p, start) && Relinked(p, code2)
    ensures Sound(p.(code := code2), start)
    ensures forall j :: j in p.tl || j in p.fl ==> CarriesAlike(p.code, code2, j)
  {
    forall i | 0 <= i < |p.jl| ensures p.jl[i] < |code2| && code2[p.jl[i]].Jmp? {
      assert RelinkedAt(p, code2, p.jl[i]);
    }
    forall j | j in p.tl || j in p.fl
      ensures start < j < p.lim && code2[j].Jmp? && IsTest(code2[j - 1]) && CarriesAlike(p.code, code2, j)
    {
      assert RelinkedAt(p, code2, j) && RelinkedAt(p, code2, j - 1);
    }
  }

  lemma RelinkMeans(p: Part, x: Expr, start: nat, base: nat, but: int, max: nat, code2: seq<Instr>)
    requires Sound(p, start) && Evaluates(p, x, start, base, but, max) && Relinked(p, code2)
    ensures Sound(p.(code := code2), start) && Evaluates(p.(code := code2), x, start, base, but, max)
  {
    var p2 := p.(code := code2);
    RelinkedSound(p, start, code2);
    var here, out := Positions(p.jl), Positions(p.tl) + Positions(p.fl);
    RelinkResolves(p, start, code2);
    forall env: Env, m: Machine | |m.regs| >= max ensures Means(env, p2, x, start, base, but, m) {
      assert Means(env, p, x, start, base, but, m);
      ResumeRun(env, p.code, here, out, code2, here, out, start, p.lim, p.lim, start, m);
      SameMeaning(env, p, p2, x, start, base, but, m);
    }
  }

  lemma RelinkResolves(p: Part, start: nat, code2: seq<Instr>)
    requires Sound(p, start) && Relinked(p, code2)
    ensures var here, out := Positions(p.jl), Positions(p.tl) + Positions(p.fl);
            Resolves(p.code, here, out, code2, here, out, start, p.lim, p.lim)
  {
    var here, out := Positions(p.jl), Positions(p.tl) + Positions(p.fl);
    forall i | 0 <= i < p.lim ensures AlikeAt(p.code, here + out, code2, i) {
      assert RelinkedAt(p, code2, i);
      if i in p.jl {
        JumpIn(p.code, p.jl, i);
      }
    }
    if start > 0 {
      assert p.lim >= start;
      assert RelinkedAt(p, code2, start - 1);
    }
    forall j | start <= j < p.lim && j in here ensures LeadsTo(code2, here, out, j, p.lim, p.lim) {
      assert RelinkedAt(p, code2, j);
      JumpIn(p.code, p.jl, j);
    }
  }

  // --------------------------------------------------------------- conditions

  /** One unit further: a run of a part without pending jumps to its end goes on from that end. */
  lemma GoOn(env: Env, p: Part, out2: set<nat>, lim2: nat, start: nat, m: Machine)
    requires Sound(p, start) && p.jl == [] && p.lim <= lim2 <= |p.code|
    requires Positions(p.tl) + Positions(p.fl) <= out2
    requires forall i :: i in out2 && i < p.lim ==> i in p.tl || i in p.fl
    ensures var o, o2 := RunOf(env, p, start, m), Exec(env, p.code, {}, out2, start, lim2, m);
            && (o.Fell? ==> o2 == Exec(env, p.code, {}, out2, p.lim, lim2, o.m))
            && (o.Left? ==> o2 == o)
  {
    var out := Positions(p.tl) + Positions(p.fl);
    assert Positions(p.jl) == {};
    ResumeRun(env, p.code, {}, out, p.code, {}, out2, start, p.lim, lim2, start, m);
  }

  /** The test `i` jumps exactly when the value an `end` speaks of counts as `cond`. */
  predicate TestsFor(i: Instr, end: End, cond: bool) {
    || (end.InReg? && i.TestSet? && i.b == end.reg && i.cond == cond)
    || (end.Yield? && end.i.Invert? && i == TestOnly(end.i.b, !cond))
  }

  /** `p` with the jump at `j` added to the list of the exits taken when the value counts as `cond`. */
  function WithExit(p: Part, cond: bool, j: nat, end: End): Part {
    Part(p.code, [], if cond then p.tl + [j] else p.tl, if cond then p.fl else p.fl + [j], j + 1, end)
  }

  lemma WithExitSound(p: Part, start: nat, cond: bool, end: End)
    requires Sound(p, start) && p.lim + 2 == |p.code| && IsTest(p.code[p.lim]) && p.code[p.lim + 1].Jmp?
    ensures Sound(WithExit(p, cond, p.lim + 1, end), start)
  {
  }

  /** `jumponcond`: a test and its jump at the end of a part. */
  lemma GuardMeans(p: Part, x: Expr, start: nat, base: nat, but: int, max: nat, cond: bool)
    requires Sound(p, start) && p.jl == [] && Evaluates(p, x, start, base, but, max)
    requires p.lim + 2 == |p.code| && TestsFor(p.code[p.lim], p.end, cond) && p.code[p.lim + 1].Jmp?
    ensures var p2 := WithExit(p, cond, p.lim + 1, Truth(!cond));
            Sound(p2, start) && Evaluates(p2, x, start, base, but, max)
  {
    var p2 := WithExit(p, cond, p.lim + 1, Truth(!cond));
    WithExitSound(p, start, cond, Truth(!cond));
    var out2 := Positions(p2.tl) + Positions(p2.fl);
    assert Positions(p2.jl) == {};
    forall env: Env, m: Machine | |m.regs| >= max ensures Means(env, p2, x, start, base, but, m) {
      assert Means(env, p, x, start, base, but, m);
      GoOn(env, p, out2, p2.lim, start, m);
      GuardAt(env, p, x, base, but, cond, m, RunOf(env, p, start, m), RunOf(env, p2, start, m), out2);
    }
  }

  lemma GuardAt(env: Env, p: Part, x: Expr, base: nat, but: int, cond: bool, m: Machine, o: Outcome, o2: Outcome, out2: set<nat>)
    requires p.lim + 2 == |p.code| && TestsFor(p.code[p.lim], p.end, cond) && p.code[p.lim + 1].Jmp? && p.lim + 1 in out2
    requires var (v, trace) := Eval(env, x, m.regs, m.trace); Arrives(env, p, o, base, but, m, v, trace)
    requires o.Left? ==> o2 == o && (o.j in p.tl || o.j in p.fl) && o.j < p.lim
    requires o.Fell? ==> o2 == Exec(env, p.code, {}, out2, p.lim, p.lim + 2, o.m)
    requires forall j :: j in p.tl || j in p.fl ==> j < p.lim
    ensures var (v, trace) := Eval(env, x, m.regs, m.trace);
            Arrives(env, WithExit(p, cond, p.lim + 1, Truth(!cond)), o2, base, but, m, v, trace)
  {
    if o.Fell? {
      GuardUnit(env, p, out2, o.m, cond);
    }
    hide Exec, Jumped, TestsFor, Eval;
  }

  /** The test at the end of `p` jumps when the value counts as `cond`, and falls through otherwise. */
  lemma GuardUnit(env: Env, p: Part, out2: set<nat>, m: Machine, cond: bool)
    requires p.lim + 2 == |p.code| && TestsFor(p.code[p.lim], p.end, cond) && p.code[p.lim + 1].Jmp?
    requires p.lim + 1 in out2
    ensures var o := Exec(env, p.code, {}, out2, p.lim, p.lim + 2, m);
            forall v, trace :: Yielded(env, p.end, m, v, trace) ==>
              && m.trace == trace && o == (if IsFalse(v) != cond then Left(p.lim + 1, m) else Fell(m))
              && Carried(p.code, p.lim + 1, m, v)
  {
    var code, n := p.code, p.lim;
    assert Exec(env, code, {}, out2, n + 2, n + 2, m) == Fell(m);
    assert Jumped(env, code, {}, out2, n + 1, n + 2, m) == Left(n + 1, m);
    forall v, trace | Yielded(env, p.end, m, v, trace)
      ensures Unit(env, code, n, m) == if IsFalse(v) != cond then Take(n + 1, m) else Goto(n + 2, m)
    {
    }
  }

  /** The comparison `i`, or for false its inverse: `invertjump`. */
  function Comparing(i: Instr, b: bool): Instr
    requires i.Compare?
  {
    Compare(i.test, i.cond == b, i.b, i.c)
  }

  /** A comparison takes its jump into the list for `b`: as it stands for true, inverted for false. */
  lemma JumpMeans(p: Part, x: Expr, start: nat, base: nat, but: int, max: nat, b: bool)
    requires Sound(p, start) && p.jl == [] && p.end.Tested? && Evaluates(p, x, start, base, but, max)
    requires p.lim + 2 == |p.code| && p.code[p.lim + 1].Jmp?
    requires p.end.i.Compare? && p.code[p.lim] == Comparing(p.end.i, b)
    ensures var p2 := WithExit(p, b, p.lim + 1, Exactly(!b));
            Sound(p2, start) && Evaluates(p2, x, start, base, but, max)
  {
    var p2 := WithExit(p, b, p.lim + 1, Exactly(!b));
    WithExitSound(p, start, b, Exactly(!b));
    var out2 := Positions(p2.tl) + Positions(p2.fl);
    assert Positions(p2.jl) == {};
    forall env: Env, m: Machine | |m.regs| >= max ensures Means(env, p2, x, start, base, but, m) {
      assert Means(env, p, x, start, base, but, m);
      GoOn(env, p, out2, p2.lim, start, m);
      JumpAt(env, p, x, base, but, b, m, RunOf(env, p, start, m), RunOf(env, p2, start, m), out2);
    }
  }

  lemma JumpAt(env: Env, p: Part, x: Expr, base: nat, but: int, b: bool, m: Machine, o: Outcome, o2: Outcome, out2: set<nat>)
    requires p.lim + 2 == |p.code| && p.code[p.lim + 1].Jmp? && p.lim + 1 in out2
    requires p.end.Tested? && p.end.i.Compare? && p.code[p.lim] == Comparing(p.end.i, b)
    requires var (v, trace) := Eval(env, x, m.regs, m.trace); Arrives(env, p, o, base, but, m, v, trace)
    requires o.Left? ==> o2 == o && (o.j in p.tl || o.j in p.fl) && o.j < p.lim
    requires o.Fell? ==> o2 == Exec(env, p.code, {}, out2, p.lim, p.lim + 2, o.m)
    requires forall j :: j in p.tl || j in p.fl ==> j < p.lim
    ensures var (v, trace) := Eval(env, x, m.regs, m.trace);
            Arrives(env, WithExit(p, b, p.lim + 1, Exactly(!b)), o2, base, but, m, v, trace)
  {
    if o.Fell? {
      JumpUnit(env, p, out2, o.m, b);
    }
    hide Exec, Jumped, Eval;
  }

  lemma JumpUnit(env: Env, p: Part, out2: set<nat>, m: Machine, b: bool)
    requires p.lim + 2 == |p.code| && p.code[p.lim + 1].Jmp? && p.lim + 1 in out2
    requires p.end.Tested? && p.end.i.Compare? && p.code[p.lim] == Comparing(p.end.i, b)
    ensures var o := Exec(env, p.code, {}, out2, p.lim, p.lim + 2, m);
            forall v, trace :: Yielded(env, p.end, m, v, trace) ==>
              var m2 := m.(trace := trace);
              o == if v == Bool(b) then Left(p.lim + 1, m2) else Fell(m2)
  {
    var code, n := p.code, p.lim;
    forall v, trace | Yielded(env, p.end, m, v, trace)
      ensures var m2 := m.(trace := trace);
              && Unit(env, code, n, m) == (if v == Bool(b) then Take(n + 1, m2) else Goto(n + 2, m2))
              && Exec(env, code, {}, out2, n + 2, n + 2, m2) == Fell(m2)
              && Jumped(env, code, {}, out2, n + 1, n + 2, m2) == Left(n + 1, m2)
    {
    }
  }

  /** The same, before the comparison is inverted. */
  lemma ComparingMeans(p: Part, x: Expr, start: nat, base: nat, but: int, max: nat, b: bool)
    requires Sound(p, start) && p.jl == [] && Evaluates(p, x, start, base, but, max)
    requires p.lim + 2 == |p.code| && p.code[p.lim].Compare? && p.end == Tested(p.code[p.lim]) && p.code[p.lim + 1].Jmp?
    ensures var p2 := WithExit(p.(code := p.code[p.lim := Comparing(p.code[p.lim], b)]), b, p.lim + 1, Exactly(!b));
            Sound(p2, start) && Evaluates(p2, x, start, base, but, max)
  {
    var code := p.code[p.lim := Comparing(p.code[p.lim], b)];
    hide Evaluates, Sound;
    RelinkMeans(p, x, start, base, but, max, code);
    JumpMeans(p.(code := code), x, start, base, but, max, b);
  }

  lemma ExactlyIsTruth(p: Part, x: Expr, start: nat, base: nat, but: int, max: nat, b: bool)
    requires Evaluates(p, x, start, base, but, max) && p.end == Exactly(b)
    ensures Evaluates(p.(end := Truth(b)), x, start, base, but, max)
  {
    forall env: Env, m: Machine | |m.regs| >= max ensures Means(env, p.(end := Truth(b)), x, start, base, but, m) {
      assert Means(env, p, x, start, base, but, m);
    }
  }

  /** `luaK_patchtohere` on the exits for `b`, where falling off the end means `b` as well. */
  function PatchedHere(p: Part, b: bool): Part {
    if b then p.(jl := p.jl + p.tl, tl := []) else p.(jl := p.jl + p.fl, fl := [])
  }

  lemma HereMeans(p: Part, x: Expr, start: nat, base: nat, but: int, max: nat, b: bool)
    requires Sound(p, start) && p.lim == |p.code| && p.end == Truth(b) && Evaluates(p, x, start, base, but, max)
    ensures Sound(PatchedHere(p, b), start) && Evaluates(PatchedHere(p, b), x, start, base, but, max)
  {
    var p2 := PatchedHere(p, b);
    var here, out := Positions(p.jl), Positions(p.tl) + Positions(p.fl);
    var here2, out2 := Positions(p2.jl), Positions(p2.tl) + Positions(p2.fl);
    HereSound(p, start, b);
    forall i | start <= i < p.lim && i in here + out ensures p.code[i].Jmp? {
      if i in here {
        JumpIn(p.code, p.jl, i);
      }
    }
    assert Resolves(p.code, here, out, p.code, here2, out2, start, p.lim, p.lim);
    forall env: Env, m: Machine | |m.regs| >= max ensures Means(env, p2, x, start, base, but, m) {
      assert Means(env, p, x, start, base, but, m);
      ResumeRun(env, p.code, here, out, p.code, here2, out2, start, p.lim, p.lim, start, m);
    }
  }

  lemma HereSound(p: Part, start: nat, b: bool)
    requires Sound(p, start) && p.lim == |p.code|
    ensures Sound(PatchedHere(p, b), start)
  {
    var q := if b then p.tl else p.fl;
    forall i | 0 <= i < |q| ensures q[i] < |p.code| && p.code[q[i]].Jmp? {
      assert q[i] in q;
    }
  }
}
