/**
What the code generator does with whole expressions: negation, joining two
operands, and delivering the value into a register.
*/
module CodeJoins {
  import opened Bytecode
  import opened CodeRuns
  import opened JumpLists
  import opened CodeMeaning

  // -------------------------------------------------------------------- not

  /** The end of `not x`, given the end of `x`. */
  predicate NotEnd(end: End, end2: End) {
    || (end.InReg? && end2.Yield? && end2.i.Invert? && end2.i.b == end.reg)
    || (end.Tested? && end.i.Compare? && end2 == Tested(Comparing(end.i, false)))
  }

  /** `codenot`: the lists change places and no jump carries a value any more. */
  function Negated(p: Part, end2: End): Part {
    Part(ValuesRemoved(ValuesRemoved(p.code, p.tl), p.fl), p.jl, p.fl, p.tl, p.lim, end2)
  }

  lemma RemovedAt(p: Part, start: nat, i: nat)
    requires Sound(p, start) && i < |p.code|
    ensures var c := ValuesRemoved(ValuesRemoved(p.code, p.tl), p.fl);
            && |c| == |p.code|
            && SameTest(p.code[i], c[i]) && (IsTest(c[i]) <==> IsTest(p.code[i]))
            && (i + 1 !in p.tl && i + 1 !in p.fl ==> c[i] == p.code[i])
            && (i + 1 in p.tl || i + 1 in p.fl ==> !c[i].TestSet?)
            && (p.code[i].Jmp? ==> c[i] == p.code[i])
  {
  }

  lemma NegatedSound(p: Part, start: nat, end2: End)
    requires Sound(p, start)
    ensures Sound(Negated(p, end2), start)
    ensures forall j :: j in p.tl || j in p.fl ==> !CarriesValue(Negated(p, end2).code, j)
  {
    var c := Negated(p, end2).code;
    forall i | 0 <= i < |p.jl| ensures p.jl[i] < |c| && c[p.jl[i]].Jmp? {
      RemovedAt(p, start, p.jl[i]);
    }
    forall j | j in p.tl || j in p.fl ensures c[j].Jmp? && IsTest(c[j - 1]) && !c[j - 1].TestSet? {
      RemovedAt(p, start, j);
      RemovedAt(p, start, j - 1);
    }
  }

  lemma NegatedResolves(p: Part, start: nat, end2: End)
    requires Sound(p, start) && (p.lim == |p.code| || p.jl == [])
    ensures var here, out := Positions(p.jl), Positions(p.tl) + Positions(p.fl);
            Resolves(p.code, here, out, Negated(p, end2).code, here, out, start, p.lim, p.lim)
  {
    var c := Negated(p, end2).code;
    var here, out := Positions(p.jl), Positions(p.tl) + Positions(p.fl);
    forall i | 0 <= i < p.lim ensures AlikeAt(p.code, here + out, c, i) {
      RemovedAt(p, start, i);
      if i in p.jl {
        JumpIn(p.code, p.jl, i);
      }
    }
    if start > 0 {
      RemovedAt(p, start, start - 1);
    }
    forall j | start <= j < p.lim && j in here ensures LeadsTo(c, here, out, j, p.lim, p.lim) {
      RemovedAt(p, start, j);
      JumpIn(p.code, p.jl, j);
    }
  }

  lemma NotMeans(p: Part, x: Expr, start: nat, base: nat, but: int, max: nat, end2: End)
    requires Sound(p, start) && (p.lim == |p.code| || p.jl == []) && Evaluates(p, x, start, base, but, max)
    requires NotEnd(p.end, end2)
    ensures Sound(Negated(p, end2), start) && Evaluates(Negated(p, end2), Not(x), start, base, but, max)
  {
    var p2 := Negated(p, end2);
    NegatedSound(p, start, end2);
    NegatedResolves(p, start, end2);
    var here, out := Positions(p.jl), Positions(p.tl) + Positions(p.fl);
    assert Positions(p2.tl) + Positions(p2.fl) == out;
    forall env: Env, m: Machine | |m.regs| >= max ensures Means(env, p2, Not(x), start, base, but, m) {
      assert Means(env, p, x, start, base, but, m);
      ResumeRun(env, p.code, here, out, p2.code, here, out, start, p.lim, p.lim, start, m);
      var o := RunOf(env, p, start, m);
      assert RunOf(env, p2, start, m) == o;
      hide RunOf, CarriesValue;
      NotArrives(env, p, p2, o, base, but, m, x);
    }
  }

  lemma NotArrives(env: Env, p: Part, p2: Part, o: Outcome, base: nat, but: int, m: Machine, x: Expr)
    requires p2.tl == p.fl && p2.fl == p.tl && NotEnd(p.end, p2.end)
    requires o.Left? ==> (o.j in p.tl || o.j in p.fl) && !CarriesValue(p2.code, o.j)
    requires var (v, trace) := Eval(env, x, m.regs, m.trace); Arrives(env, p, o, base, but, m, v, trace)
    ensures var (v, trace) := Eval(env, Not(x), m.regs, m.trace); Arrives(env, p2, o, base, but, m, v, trace)
  {
  }

  // ------------------------------------------------------- a part after a part

  /** The code of a part has been followed by more: its pending jumps were sent there, unless there is nothing there yet. */
  ghost predicate Follows(code: seq<Instr>, jl: seq<nat>, code2: seq<Instr>, jl2: seq<nat>) {
    && |code2| >= |code|
    && (|code2| == |code| ==> code2 == code && jl2 == jl)
    && (|code2| > |code| ==>
          && code2[..|code|] == Patch(code, jl, |code|, NO_REG, |code|)
          && forall j :: j in jl2 ==> j >= |code|)
  }

  /** `code2` linked once more: only the jump fields of `q`, pending since before `n`, differ. */
  ghost predicate LinkedIn(code2: seq<Instr>, code3: seq<Instr>, q: seq<nat>, n: nat) {
    && |code3| == |code2|
    && forall i :: 0 <= i < |code2| ==> code3[i] == code2[i] || (i < n && i in q && code2[i].Jmp? && code3[i].Jmp?)
  }

  /**
  A run of the first part, whose exits `q1` stay pending, resumes where the
  second part starts.
  */
  lemma SequelResolves(code: seq<Instr>, jl: seq<nat>, q1: seq<nat>, code2: seq<Instr>, code3: seq<Instr>, jl2: seq<nat>,
                       q2: seq<nat>, start: nat, lim: nat)
    requires start <= |code| && AllJumps(code, jl) && Exits(code, start, |code|, q1) && Disjoint(jl, q1)
    requires Follows(code, jl, code2, jl2) && LinkedIn(code2, code3, q1, |code|)
    requires |code| <= lim <= |code3| && (|code2| == |code| ==> lim == |code|)
    requires forall j :: j in q2 ==> j >= |code|
    ensures Resolves(code, Positions(jl), Positions(q1), code3, Positions(jl2), Positions(q1) + Positions(q2), start, |code|, lim)
  {
    var n := |code|;
    var here, out, here2, out2 := Positions(jl), Positions(q1), Positions(jl2), Positions(q1) + Positions(q2);
    forall i | 0 <= i < n ensures code2[i] == if |code2| == n then code[i] else PatchedAt(code, jl, n, NO_REG, n, i) {
      if |code2| > n {
        assert code2[i] == code2[..n][i];
      }
    }
    forall i | 0 <= i < n ensures AlikeAt(code, here + out, code3, i) && (IsTest(code3[i]) <==> IsTest(code[i])) {
      PatchedTests(code, jl, n, NO_REG, n, i);
      if i in jl {
        JumpIn(code, jl, i);
      }
    }
    forall j | start <= j < n && j in here ensures LeadsTo(code3, here2, out2, j, n, lim) {
      JumpIn(code, jl, j);
      SequelLeads(code, jl, q1, code2, code3, jl2, j);
    }
  }

  lemma SequelLeads(code: seq<Instr>, jl: seq<nat>, q1: seq<nat>, code2: seq<Instr>, code3: seq<Instr>, jl2: seq<nat>, j: nat)
    requires AllJumps(code, jl) && Disjoint(jl, q1) && j in jl && j < |code|
    requires Follows(code, jl, code2, jl2) && LinkedIn(code2, code3, q1, |code|)
    requires forall i :: i in q1 ==> i < |code|
    ensures code3[j].Jmp?
    ensures |code2| == |code| ==> j in jl2
    ensures |code2| > |code| ==> j !in jl2 && j + 1 + code3[j].sbx == |code| && !CarriesValue(code3, j)
  {
    var n := |code|;
    JumpIn(code, jl, j);
    assert code3[j] == code2[j];
    if |code2| > n {
      assert code2[j] == code2[..n][j] == PatchedAt(code, jl, n, NO_REG, n, j);
      if j > 0 {
        assert code2[j - 1] == code2[..n][j - 1] == PatchedAt(code, jl, n, NO_REG, n, j - 1);
        PatchedTests(code, jl, n, NO_REG, n, j - 1);
      }
    }
  }

  lemma SequelCarries(code: seq<Instr>, jl: seq<nat>, q1: seq<nat>, code2: seq<Instr>, code3: seq<Instr>, jl2: seq<nat>,
                      start: nat)
    requires start <= |code| && AllJumps(code, jl) && Exits(code, start, |code|, q1) && Disjoint(jl, q1)
    requires Follows(code, jl, code2, jl2) && LinkedIn(code2, code3, q1, |code|)
    ensures Exits(code3, start, |code|, q1) && forall j :: j in q1 ==> CarriesAlike(code, code3, j)
  {
    var n := |code|;
    forall j | j in q1 ensures start < j < n && code3[j].Jmp? && code3[j - 1] == code[j - 1] && IsTest(code[j - 1]) {
      assert code[j].Jmp? && IsTest(code[j - 1]) && j !in jl;
      assert code3[j - 1] == code2[j - 1];
      PatchedTests(code, jl, n, NO_REG, n, j - 1);
      PatchedTests(code, jl, n, NO_REG, n, j);
      TestNotIn(code, jl, j - 1);
      if |code2| > n {
        assert code2[j - 1] == code2[..n][j - 1] && code2[j] == code2[..n][j];
      }
    }
  }

  /** The second part runs as it did, whatever is pending before it. */
  lemma SecondRun(env: Env, p: Part, code3: seq<Instr>, q1: seq<nat>, start: nat, m: Machine)
    requires Sound(p, start) && LinkedIn(p.code, code3, q1, start) && (forall j :: j in q1 ==> j < start)
    requires p.lim == |p.code| || p.jl == []
    ensures Exec(env, code3, Positions(p.jl), Positions(q1) + (Positions(p.tl) + Positions(p.fl)), start, p.lim, m)
            == RunOf(env, p, start, m) || RunOf(env, p, start, m).Stuck?
  {
    var here, out, out3 := Positions(p.jl), Positions(p.tl) + Positions(p.fl), Positions(q1) + (Positions(p.tl) + Positions(p.fl));
    forall j | start <= j < p.lim && j in here ensures p.code[j].Jmp? {
      JumpIn(p.code, p.jl, j);
    }
    assert forall i :: start <= i < p.lim ==> AlikeAt(p.code, here + out, code3, i);
    assert Resolves(p.code, here, out, code3, here, out3, start, p.lim, p.lim);
    ResumeRun(env, p.code, here, out, code3, here, out3, start, p.lim, p.lim, start, m);
  }

  // ------------------------------------------------------------- and, or

  /** `luaK_posfix` for `and` (`b`) and `or`: the exits of both operands, and the end of the second. */
  function Joined(p: Part, p2: Part, code3: seq<Instr>, b: bool): Part {
    if b then Part(code3, p2.jl, p2.tl, p.fl + p2.fl, p2.lim, p2.end)
    else Part(code3, p2.jl, p.tl + p2.tl, p2.fl, p2.lim, p2.end)
  }

  function JoinedExpr(x: Expr, y: Expr, b: bool): Expr {
    if b then And(x, y) else Or(x, y)
  }

  /** The exits of the first operand that stay pending. */
  function FirstExits(p: Part, b: bool): seq<nat> {
    if b then p.fl else p.tl
  }

  /** The first operand is a condition: falling off its end means `b`, and there are no exits for that. */
  ghost predicate Condition(p: Part, b: bool) {
    p.end == Truth(b) && p.lim == |p.code| && (if b then p.tl == [] else p.fl == [])
  }

  ghost predicate Joins(p: Part, p2: Part, code3: seq<Instr>, b: bool, start: nat) {
    && Sound(p, start) && Condition(p, b)
    && Sound(p2, |p.code|) && (p2.lim == |p2.code| || p2.jl == [])
    && (|p2.code| == |p.code| ==> p2.lim == |p2.code|)
    && Follows(p.code, p.jl, p2.code, p2.jl)
    && LinkedIn(p2.code, code3, FirstExits(p, b), |p.code|)
    && Disjoint(FirstExits(p, b), p2.tl) && Disjoint(FirstExits(p, b), p2.fl) && Disjoint(FirstExits(p, b), p2.jl)
  }

  lemma JoinSound(p: Part, p2: Part, code3: seq<Instr>, b: bool, start: nat)
    requires Joins(p, p2, code3, b, start)
    ensures Sound(Joined(p, p2, code3, b), start)
    ensures forall j :: j in FirstExits(p, b) ==> CarriesAlike(p.code, code3, j)
    ensures forall j :: j in p2.tl || j in p2.fl ==> CarriesAlike(p2.code, code3, j)
  {
    var q1, n := FirstExits(p, b), |p.code|;
    SequelCarries(p.code, p.jl, q1, p2.code, code3, p2.jl, start);
    forall i | 0 <= i < |p2.jl| ensures p2.jl[i] < |code3| && code3[p2.jl[i]].Jmp? {
      assert code3[p2.jl[i]].Jmp?;
    }
    forall j | j in p2.tl || j in p2.fl ensures n < j < p2.lim && code3[j].Jmp? && IsTest(code3[j - 1]) && code3[j - 1] == p2.code[j - 1] {
      assert code3[j] == p2.code[j] && code3[j - 1] == p2.code[j - 1];
    }
  }

  lemma JoinResolves(p: Part, p2: Part, code3: seq<Instr>, b: bool, start: nat)
    requires Joins(p, p2, code3, b, start)
    ensures var q1 := FirstExits(p, b);
            && Positions(p.tl) + Positions(p.fl) == Positions(q1)
            && Resolves(p.code, Positions(p.jl), Positions(q1), code3, Positions(p2.jl),
                        Positions(q1) + (Positions(p2.tl) + Positions(p2.fl)), start, |p.code|, p2.lim)
  {
    var q1 := FirstExits(p, b);
    SequelResolves(p.code, p.jl, q1, p2.code, code3, p2.jl, p2.tl + p2.fl, start, p2.lim);
    assert Positions(p2.tl + p2.fl) == Positions(p2.tl) + Positions(p2.fl);
    assert Positions([]) == {};
  }

  lemma JoinMeans(p: Part, p2: Part, code3: seq<Instr>, b: bool, x: Expr, y: Expr, start: nat, base: nat, max: nat)
    requires Joins(p, p2, code3, b, start) && LocalsBelow(y, base)
    requires Evaluates(p, x, start, base, -1, max) && Evaluates(p2, y, |p.code|, base, -1, max)
    ensures Sound(Joined(p, p2, code3, b), start)
    ensures Evaluates(Joined(p, p2, code3, b), JoinedExpr(x, y, b), start, base, -1, max)
  {
    var p3 := Joined(p, p2, code3, b);
    JoinSound(p, p2, code3, b, start);
    JoinResolves(p, p2, code3, b, start);
    var q1 := FirstExits(p, b);
    var out3 := Positions(q1) + (Positions(p2.tl) + Positions(p2.fl));
    assert Positions(p3.tl) + Positions(p3.fl) == out3;
    forall env: Env, m: Machine | |m.regs| >= max ensures Means(env, p3, JoinedExpr(x, y, b), start, base, -1, m) {
      JoinAt(env, p, p2, code3, b, x, y, start, base, max, m);
    }
  }

  lemma JoinAt(env: Env, p: Part, p2: Part, code3: seq<Instr>, b: bool, x: Expr, y: Expr, start: nat, base: nat, max: nat, m: Machine)
    requires Joins(p, p2, code3, b, start) && LocalsBelow(y, base) && |m.regs| >= max
    requires Evaluates(p, x, start, base, -1, max) && Evaluates(p2, y, |p.code|, base, -1, max)
    requires Sound(Joined(p, p2, code3, b), start)
    requires forall j :: j in FirstExits(p, b) ==> CarriesAlike(p.code, code3, j)
    requires forall j :: j in p2.tl || j in p2.fl ==> CarriesAlike(p2.code, code3, j)
    ensures Means(env, Joined(p, p2, code3, b), JoinedExpr(x, y, b), start, base, -1, m)
  {
    var p3, q1 := Joined(p, p2, code3, b), FirstExits(p, b);
    JoinResolves(p, p2, code3, b, start);
    var out3 := Positions(q1) + (Positions(p2.tl) + Positions(p2.fl));
    assert Positions(p3.tl) + Positions(p3.fl) == out3;
    assert Means(env, p, x, start, base, -1, m);
    ResumeRun(env, p.code, Positions(p.jl), Positions(q1), code3, Positions(p2.jl), out3, start, |p.code|, p2.lim, start, m);
    var o := RunOf(env, p, start, m);
    if o.Fell? {
      assert Means(env, p2, y, |p.code|, base, -1, o.m);
      SecondRun(env, p2, code3, q1, |p.code|, o.m);
      EvalLocals(env, y, base, m.regs, o.m.regs, o.m.trace);
      assert RunOf(env, p3, start, m) == RunOf(env, p2, |p.code|, o.m);
    } else {
      assert o.Left? && o.j in q1;
      assert RunOf(env, p3, start, m) == o;
    }
    hide RunOf, CarriesAlike;
    JoinArrives(env, p, p2, p3, b, x, y, o, RunOf(env, p3, start, m), base, m);
  }

  lemma JoinArrives(env: Env, p: Part, p2: Part, p3: Part, b: bool, x: Expr, y: Expr, o: Outcome, o3: Outcome, base: nat, m: Machine)
    requires p3 == Joined(p, p2, p3.code, b) && Condition(p, b)
    requires Disjoint(FirstExits(p, b), p2.tl) && Disjoint(FirstExits(p, b), p2.fl)
    requires forall j :: j in FirstExits(p, b) ==> CarriesAlike(p.code, p3.code, j)
    requires forall j :: j in p2.tl || j in p2.fl ==> CarriesAlike(p2.code, p3.code, j)
    requires var (v, trace) := Eval(env, x, m.regs, m.trace); Arrives(env, p, o, base, -1, m, v, trace)
    requires o.Left? ==> o.j in FirstExits(p, b) && o3 == o
    requires o.Fell? ==> var (v, trace) := Eval(env, y, m.regs, o.m.trace); Arrives(env, p2, o3, base, -1, o.m, v, trace)
    requires o.Fell? && o3.Left? ==> o3.j in p2.tl || o3.j in p2.fl
    ensures var (v, trace) := Eval(env, JoinedExpr(x, y, b), m.regs, m.trace); Arrives(env, p3, o3, base, -1, m, v, trace)
  {
  }

  // ------------------------------------------------------------- two operands

  /** The two operands are in registers: what follows is told by `end`. */
  predicate Operates(e: Expr, o1: nat, o2: nat, end: End) {
    match e
    case Related(rel, _, _) =>
      end == Tested(match rel
                    case Equal => Compare(EQ, true, o1, o2)
                    case NotEqual => Compare(EQ, false, o1, o2)
                    case Less => Compare(LT, true, o1, o2)
                    case LessEqual => Compare(LE, true, o1, o2)
                    case Greater => Compare(LT, true, o2, o1)
                    case GreaterEqual => Compare(LE, true, o2, o1))
    case Arith(op, _, _) => end.Yield? && end.i.Compute? && end.i == Compute(op, end.i.a, o1, o2)
    case _ => false
  }

  /** Plain code that leaves a value in a register. */
  ghost predicate Plain(p: Part) {
    p.tl == [] && p.fl == [] && p.lim == |p.code| && p.end.InReg?
  }

  lemma PairMeans(p: Part, p2: Part, e: Expr, end: End, start: nat, base: nat, base2: nat, max: nat)
    requires Sound(p, start) && Plain(p) && Sound(p2, |p.code|) && Plain(p2) && Follows(p.code, p.jl, p2.code, p2.jl)
    requires (e.Related? || e.Arith?) && Operates(e, p.end.reg, p2.end.reg, end)
    requires LocalsBelow(e.y, base) && base <= base2 && p.end.reg < base2
    requires Evaluates(p, e.x, start, base, -1, max) && Evaluates(p2, e.y, |p.code|, base2, -1, max)
    ensures Sound(p2.(end := end), start) && Evaluates(p2.(end := end), e, start, base, -1, max)
  {
    var p3 := p2.(end := end);
    SequelResolves(p.code, p.jl, [], p2.code, p2.code, p2.jl, [], start, p2.lim);
    assert Positions([]) == {} && Positions([]) + Positions([]) == {};
    forall env: Env, m: Machine | |m.regs| >= max ensures Means(env, p3, e, start, base, -1, m) {
      assert Means(env, p, e.x, start, base, -1, m);
      ResumeRun(env, p.code, Positions(p.jl), {}, p2.code, Positions(p2.jl), {}, start, |p.code|, p2.lim, start, m);
      var o := RunOf(env, p, start, m);
      assert o.Fell?;
      assert Means(env, p2, e.y, |p.code|, base2, -1, o.m);
      EvalLocals(env, e.y, base, m.regs, o.m.regs, o.m.trace);
      assert RunOf(env, p3, start, m) == RunOf(env, p2, |p.code|, o.m);
      hide RunOf;
      PairArrives(env, p, p2, e, end, o, RunOf(env, p3, start, m), base, base2, m);
    }
  }

  lemma PairArrives(env: Env, p: Part, p2: Part, e: Expr, end: End, o: Outcome, o3: Outcome, base: nat, base2: nat, m: Machine)
    requires Plain(p) && Plain(p2) && (e.Related? || e.Arith?) && Operates(e, p.end.reg, p2.end.reg, end)
    requires base <= base2 && p.end.reg < base2 && o.Fell? && !o3.Left?
    requires var (v, trace) := Eval(env, e.x, m.regs, m.trace); Arrives(env, p, o, base, -1, m, v, trace)
    requires var (v, trace) := Eval(env, e.y, m.regs, o.m.trace); Arrives(env, p2, o3, base2, -1, o.m, v, trace)
    ensures var (v, trace) := Eval(env, e, m.regs, m.trace); Arrives(env, p2.(end := end), o3, base, -1, m, v, trace)
  {
  }

  // ----------------------------------------------------------------- delivery

  /** `i` with its result sent to `reg`. */
  function Retargeted(i: Instr, reg: nat): Instr {
    match i
    case Load(_, source) => Load(reg, source)
    case Invert(_, b) => Invert(reg, b)
    case Compute(op, _, b, c) => Compute(op, reg, b, c)
    case _ => i
  }

  /** The instruction `i` brings the value that `end` speaks of into `reg`. */
  predicate Delivers(i: Instr, end: End, reg: nat) {
    || (end.Yield? && Relocatable(end.i) && i == Retargeted(end.i, reg))
    || (end.InReg? && i == Move(reg, end.reg))
  }

  /** `discharge2reg`: the last instruction brings the value into `reg`. */
  lemma SettleMeans(p: Part, x: Expr, start: nat, base: nat, but: int, max: nat, reg: nat)
    requires Sound(p, start) && p.jl == [] && Evaluates(p, x, start, base, but, max)
    requires p.lim < |p.code| && Delivers(p.code[p.lim], p.end, reg) && reg < max && (reg >= base || but == reg)
    ensures var p2 := p.(lim := p.lim + 1, end := InReg(reg)); Sound(p2, start) && Evaluates(p2, x, start, base, but, max)
  {
    var p2 := p.(lim := p.lim + 1, end := InReg(reg));
    var out := Positions(p.tl) + Positions(p.fl);
    assert Positions(p.jl) == {};
    forall env: Env, m: Machine | |m.regs| >= max ensures Means(env, p2, x, start, base, but, m) {
      assert Means(env, p, x, start, base, but, m);
      GoOn(env, p, out, p2.lim, start, m);
      SettleAt(env, p, x, base, but, reg, m, RunOf(env, p, start, m), RunOf(env, p2, start, m), out);
    }
  }

  lemma SettleAt(env: Env, p: Part, x: Expr, base: nat, but: int, reg: nat, m: Machine, o: Outcome, o2: Outcome, out: set<nat>)
    requires p.lim < |p.code| && Delivers(p.code[p.lim], p.end, reg) && reg < |m.regs| && (reg >= base || but == reg)
    requires var (v, trace) := Eval(env, x, m.regs, m.trace); Arrives(env, p, o, base, but, m, v, trace)
    requires o.Left? ==> o2 == o
    requires o.Fell? ==> o2 == Exec(env, p.code, {}, out, p.lim, p.lim + 1, o.m)
    ensures var (v, trace) := Eval(env, x, m.regs, m.trace);
            Arrives(env, p.(lim := p.lim + 1, end := InReg(reg)), o2, base, but, m, v, trace)
  {
    if o.Fell? {
      var (v, trace) := Eval(env, x, m.regs, m.trace);
      SettleUnit(env, p, out, o.m, reg, v, trace);
    }
    hide Exec, Jumped, Delivers, Eval;
  }

  lemma SettleUnit(env: Env, p: Part, out: set<nat>, m: Machine, reg: nat, v: Value, trace: seq<Event>)
    requires p.lim < |p.code| && Delivers(p.code[p.lim], p.end, reg) && Yielded(env, p.end, m, v, trace)
    ensures Exec(env, p.code, {}, out, p.lim, p.lim + 1, m) == Fell(Put(m.(trace := trace), reg, v))
  {
    var n, m2 := p.lim, Put(m.(trace := trace), reg, v);
    assert Unit(env, p.code, n, m) == Goto(n + 1, m2);
    assert Exec(env, p.code, {}, out, n + 1, n + 1, m2) == Fell(m2);
  }

  /** Some exit of the list `q` does not carry its value. */
  predicate NeedsValue(code: seq<Instr>, q: seq<nat>) {
    exists i :: 0 <= i < |q| && !CarriesValue(code, q[i])
  }

  /** `exp2reg`: the exits that carry their value are sent to the end, the others to the load of theirs, at `pf` or `pt`. */
  function Delivered(code: seq<Instr>, tl: seq<nat>, fl: seq<nat>, reg: nat, pf: int, pt: int): (c: seq<Instr>)
    ensures |c| == |code|
  {
    var n := |code|;
    Patch(Patch(code, fl, n, reg, pf), tl, n, reg, pt)
  }

  /** An exit after delivery: it jumps to the end, copying its value on the way, or to the load of its value. */
  ghost predicate SentTo(code: seq<Instr>, c: seq<Instr>, j: nat, reg: nat, load: int) {
    && j < |code| == |c| && c[j].Jmp?
    && if CarriesValue(code, j) then
         && j + 1 + c[j].sbx == |c|
         && (if code[j - 1].b != reg then c[j - 1].TestSet? && c[j - 1].a == reg && c[j - 1].b == code[j - 1].b
             else !c[j - 1].TestSet?)
       else j + 1 + c[j].sbx == load && !CarriesValue(c, j)
  }

  lemma DeliveredExits(code: seq<Instr>, start: nat, lim: nat, tl: seq<nat>, fl: seq<nat>, reg: nat, pf: int, pt: int)
    requires Exits(code, start, lim, tl) && Exits(code, start, lim, fl) && Disjoint(tl, fl) && reg != NO_REG
    ensures var c := Delivered(code, tl, fl, reg, pf, pt);
            (forall j :: j in tl ==> SentTo(code, c, j, reg, pt)) && (forall j :: j in fl ==> SentTo(code, c, j, reg, pf))
  {
    var n := |code|;
    var d := Patch(code, fl, n, reg, pf);
    var c := Patch(d, tl, n, reg, pt);
    forall j | j in fl ensures SentTo(code, c, j, reg, pf) {
      assert j !in tl && code[j].Jmp?;
      assert j - 1 !in fl && j - 1 !in tl;
      assert d[j] == PatchedAt(code, fl, n, reg, pf, j) && d[j - 1] == PatchedAt(code, fl, n, reg, pf, j - 1);
      assert c[j] == PatchedAt(d, tl, n, reg, pt, j) && c[j - 1] == PatchedAt(d, tl, n, reg, pt, j - 1);
    }
    forall j | j in tl ensures SentTo(code, c, j, reg, pt) {
      assert j !in fl && code[j].Jmp?;
      assert j - 1 !in fl && j - 1 !in tl;
      assert d[j] == PatchedAt(code, fl, n, reg, pf, j) && d[j - 1] == PatchedAt(code, fl, n, reg, pf, j - 1);
      assert c[j] == PatchedAt(d, tl, n, reg, pt, j) && c[j - 1] == PatchedAt(d, tl, n, reg, pt, j - 1);
    }
  }

  lemma DeliveredAt(code: seq<Instr>, start: nat, lim: nat, tl: seq<nat>, fl: seq<nat>, reg: nat, pf: int, pt: int, i: nat)
    requires Exits(code, start, lim, tl) && Exits(code, start, lim, fl) && i < |code|
    ensures var c := Delivered(code, tl, fl, reg, pf, pt);
            && (IsTest(c[i]) <==> IsTest(code[i])) && (c[i].Jmp? <==> code[i].Jmp?)
            && (i !in tl && i !in fl ==> SameTest(code[i], c[i]))
            && (i !in tl && i !in fl && i + 1 !in tl && i + 1 !in fl ==> c[i] == code[i])
            && (code[i].Jmp? && i !in tl && i !in fl ==> c[i] == code[i])
  {
    var d := Patch(code, fl, |code|, reg, pf);
    assert d[i] == PatchedAt(code, fl, |code|, reg, pf, i);
  }

  /** The machine `m2` is `m` with `v` in `reg`. */
  ghost predicate Receives(m: Machine, m2: Machine, reg: nat, v: Value) {
    m2 == Put(m, reg, v) || (m2 == m && Get(m, reg) == v)
  }

  /** What `exp2reg` appends behind the part: nothing, two loads, or the two loads and a jump around them. */
  ghost predicate Appended(p: Part, code: seq<Instr>, jl2: seq<nat>, reg: nat, pf: int, pt: int) {
    var n := |p.code|;
    && |code| >= n && code[..n] == p.code
    && if |code| == n then
         && jl2 == p.jl && p.end == InReg(reg)
         && (forall j :: j in p.tl || j in p.fl ==> CarriesValue(p.code, j))
       else
         && |code| >= n + 2 && pf == |code| - 2 && pt == |code| - 1
         && code[pf] == LoadBool(reg, false, true) && code[pt] == LoadBool(reg, true, false)
         && if |code| == n + 2 then jl2 == p.jl == [] && p.end == Exactly(false)
            else |code| == n + 3 && code[n].Jmp? && jl2 == [n] + p.jl && p.end == InReg(reg)
  }

  /** After `exp2reg` has patched the exits. */
  function AfterDelivery(p: Part, code: seq<Instr>, jl2: seq<nat>, reg: nat, pf: int, pt: int): Part {
    Part(Delivered(code, p.tl, p.fl, reg, pf, pt), jl2, [], [], |code|, InReg(reg))
  }

  ghost predicate Delivering(p: Part, start: nat, code: seq<Instr>, jl2: seq<nat>, reg: nat, pf: int, pt: int) {
    && Sound(p, start) && p.lim == |p.code| && TestsPaired(p.code) && reg != NO_REG
    && Appended(p, code, jl2, reg, pf, pt)
    && Exits(code, start, |p.code|, p.tl) && Exits(code, start, |p.code|, p.fl)
  }

  lemma DeliverResolves(p: Part, start: nat, code: seq<Instr>, jl2: seq<nat>, reg: nat, pf: int, pt: int)
    requires Delivering(p, start, code, jl2, reg, pf, pt)
    ensures Resolves(p.code, Positions(p.jl), Positions(p.tl) + Positions(p.fl),
                     Delivered(code, p.tl, p.fl, reg, pf, pt), Positions(jl2), {}, start, |p.code|, |code|)
  {
    var n := |p.code|;
    var here, out := Positions(p.jl), Positions(p.tl) + Positions(p.fl);
    var c := Delivered(code, p.tl, p.fl, reg, pf, pt);
    forall i | 0 <= i < n ensures AlikeAt(p.code, here + out, c, i) && (IsTest(c[i]) <==> IsTest(p.code[i])) {
      DeliveredAt(code, start, n, p.tl, p.fl, reg, pf, pt, i);
      assert code[i] == code[..n][i];
      if i in p.jl {
        JumpIn(p.code, p.jl, i);
      }
    }
    forall j | start <= j < n && j in here ensures LeadsTo(c, Positions(jl2), {}, j, n, |code|) {
      JumpIn(p.code, p.jl, j);
      DeliveredAt(code, start, n, p.tl, p.fl, reg, pf, pt, j);
      assert code[j] == code[..n][j];
      if |code| == n + 3 {
        DeliveredAt(code, start, n, p.tl, p.fl, reg, pf, pt, n);
        assert !Controlled(c, n);
      }
    }
  }

  lemma DeliverSound(p: Part, start: nat, code: seq<Instr>, jl2: seq<nat>, reg: nat, pf: int, pt: int)
    requires Delivering(p, start, code, jl2, reg, pf, pt)
    ensures Sound(AfterDelivery(p, code, jl2, reg, pf, pt), start)
  {
    var n := |p.code|;
    var c := Delivered(code, p.tl, p.fl, reg, pf, pt);
    forall i | 0 <= i < |jl2| ensures jl2[i] < |c| && c[jl2[i]].Jmp? {
      var j := jl2[i];
      if j in p.jl {
        JumpIn(p.code, p.jl, j);
        assert code[j] == code[..n][j];
      }
      DeliveredAt(code, start, n, p.tl, p.fl, reg, pf, pt, j);
    }
  }

  /** Where the two loads are, they run to the end. */
  lemma LoadsRun(env: Env, c: seq<Instr>, here: set<nat>, reg: nat, b: bool, m: Machine)
    requires |c| >= 2 && c[|c| - 2] == LoadBool(reg, false, true) && c[|c| - 1] == LoadBool(reg, true, false)
    ensures Exec(env, c, here, {}, if b then |c| - 1 else |c| - 2, |c|, m) == Fell(Put(m, reg, Bool(b)))
  {
    var pc, m2 := if b then |c| - 1 else |c| - 2, Put(m, reg, Bool(b));
    assert Unit(env, c, pc, m) == Goto(|c|, m2);
    assert Exec(env, c, here, {}, |c|, |c|, m2) == Fell(m2);
  }

  /** An exit, taken after delivery, ends with its value in the register. */
  lemma ExitDelivered(env: Env, p: Part, start: nat, code: seq<Instr>, jl2: seq<nat>, reg: nat, pf: int, pt: int,
                      j: nat, m: Machine, v: Value)
    requires Delivering(p, start, code, jl2, reg, pf, pt)
    requires j in p.tl || j in p.fl
    requires Carried(p.code, j, m, v) && (j in p.tl ==> !IsFalse(v)) && (j in p.fl ==> IsFalse(v))
    ensures var o := Jumped(env, Delivered(code, p.tl, p.fl, reg, pf, pt), Positions(jl2), {}, j, |code|, m);
            o.Fell? && Receives(m, o.m, reg, v)
  {
    var n, here := |p.code|, Positions(jl2);
    var c := Delivered(code, p.tl, p.fl, reg, pf, pt);
    DeliveredExits(code, start, n, p.tl, p.fl, reg, pf, pt);
    assert code[j - 1] == code[..n][j - 1] && code[j] == code[..n][j];
    assert j !in here;
    hide Delivered, Exits, TestsPaired, Disjoint;
    if CarriesValue(code, j) {
      assert Exec(env, c, here, {}, |c|, |c|, Landed(c, j, m)) == Fell(Landed(c, j, m));
    } else {
      DeliveredAt(code, start, n, p.tl, p.fl, reg, pf, pt, |c| - 1);
      DeliveredAt(code, start, n, p.tl, p.fl, reg, pf, pt, |c| - 2);
      LoadsRun(env, c, here, reg, j in p.tl, m);
    }
  }

  /** Falling off the end of the part, after delivery, ends with the value in the register. */
  lemma EndDelivered(env: Env, p: Part, start: nat, code: seq<Instr>, jl2: seq<nat>, reg: nat, pf: int, pt: int,
                     m: Machine, v: Value)
    requires Delivering(p, start, code, jl2, reg, pf, pt)
    requires Yielded(env, p.end, m, v, m.trace)
    ensures var o := Exec(env, Delivered(code, p.tl, p.fl, reg, pf, pt), Positions(jl2), {}, |p.code|, |code|, m);
            o.Fell? && Receives(m, o.m, reg, v)
  {
    var n, here := |p.code|, Positions(jl2);
    var c := Delivered(code, p.tl, p.fl, reg, pf, pt);
    if |code| > n {
      DeliveredAt(code, start, n, p.tl, p.fl, reg, pf, pt, |c| - 1);
      DeliveredAt(code, start, n, p.tl, p.fl, reg, pf, pt, |c| - 2);
      if |code| == n + 2 {
        LoadsRun(env, c, here, reg, false, m);
      } else {
        DeliveredAt(code, start, n, p.tl, p.fl, reg, pf, pt, n);
        if n > 0 {
          assert code[n - 1] == code[..n][n - 1];
          DeliveredAt(code, start, n, p.tl, p.fl, reg, pf, pt, n - 1);
        }
        assert Unit(env, c, n, m) == Take(n, m);
      }
    }
  }

  /** `exp2reg`: whichever way the expression ends, its value is in the register. */
  lemma DeliverMeans(p: Part, x: Expr, start: nat, base: nat, but: int, max: nat,
                     code: seq<Instr>, jl2: seq<nat>, reg: nat, pf: int, pt: int)
    requires Delivering(p, start, code, jl2, reg, pf, pt) && Evaluates(p, x, start, base, but, max)
    requires reg < max && (reg >= base || but == reg)
    ensures var p2 := AfterDelivery(p, code, jl2, reg, pf, pt); Sound(p2, start) && Evaluates(p2, x, start, base, but, max)
  {
    var p2 := AfterDelivery(p, code, jl2, reg, pf, pt);
    DeliverSound(p, start, code, jl2, reg, pf, pt);
    DeliverResolves(p, start, code, jl2, reg, pf, pt);
    assert Positions(p2.tl) + Positions(p2.fl) == {};
    forall env: Env, m: Machine | |m.regs| >= max ensures Means(env, p2, x, start, base, but, m) {
      assert Means(env, p, x, start, base, but, m);
      DeliverAt(env, p, x, start, base, but, code, jl2, reg, pf, pt, m);
    }
  }

  lemma DeliverAt(env: Env, p: Part, x: Expr, start: nat, base: nat, but: int,
                  code: seq<Instr>, jl2: seq<nat>, reg: nat, pf: int, pt: int, m: Machine)
    requires Delivering(p, start, code, jl2, reg, pf, pt) && Fits(p, start) && Means(env, p, x, start, base, but, m)
    requires reg < |m.regs| && (reg >= base || but == reg) && start <= |p.code| == p.lim <= |code|
    requires p.end.InReg? || p.end.Exactly?
    requires Resolves(p.code, Positions(p.jl), Positions(p.tl) + Positions(p.fl),
                     Delivered(code, p.tl, p.fl, reg, pf, pt), Positions(jl2), {}, start, |p.code|, |code|)
    ensures Means(env, AfterDelivery(p, code, jl2, reg, pf, pt), x, start, base, but, m)
  {
    hide Delivering, Resolves, Delivered, Eval, CarriesValue;
    var p2 := AfterDelivery(p, code, jl2, reg, pf, pt);
    assert Positions(p2.tl) + Positions(p2.fl) == {};
    ResumeRun(env, p.code, Positions(p.jl), Positions(p.tl) + Positions(p.fl), p2.code, Positions(jl2), {},
              start, |p.code|, |code|, start, m);
    var o, o2 := RunOf(env, p, start, m), RunOf(env, p2, start, m);
    var (v, trace) := Eval(env, x, m.regs, m.trace);
    hide Exec, Jumped;
    if o.Fell? {
      EndDelivered(env, p, start, code, jl2, reg, pf, pt, o.m, v);
      assert Receives(o.m, o2.m, reg, v);
    } else {
      ExitDelivered(env, p, start, code, jl2, reg, pf, pt, o.j, o.m, v);
      assert Receives(o.m, o2.m, reg, v);
    }
  }
}
