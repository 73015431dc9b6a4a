/**
Whole expressions: operators with two operands, the calls the parser makes for
an expression, and what the finished code does on the machine.
*/
module CodeExpr {
  import opened Bytecode
  import opened CodeRuns
  import opened JumpLists
  import opened CodeMeaning
  import opened CodeJoins
  import opened CodeState
  import opened CodeGen

  /** The state a second operand starts from. */
  function OriginOf(g: Gen): Origin {
    Origin(g.code, g.jl, g.freereg)
  }

  lemma FollowsTrans(o: Origin, g: Gen, code2: seq<Instr>, jl2: seq<nat>)
    requires Follows(o.code, o.jl, g.code, g.jl) && TestsPaired(o.code) && AllJumps(o.code, o.jl) && AllJumps(g.code, g.jl)
    requires Follows(g.code, g.jl, code2, jl2)
    ensures Follows(o.code, o.jl, code2, jl2)
  {
    if |code2| > |g.code| {
      FollowsEmit(o, g.code, g.jl, code2);
    }
  }

  /** A list pending since before the second operand is still a list after it. */
  lemma FirstListKept(g: Gen, code2: seq<Instr>, jl2: seq<nat>, head: int, q: seq<nat>)
    requires IsList(g.code, head, q) && Disjoint(g.jl, q) && Follows(g.code, g.jl, code2, jl2)
    ensures IsList(code2, head, q)
  {
    if |code2| > |g.code| {
      ListEmit(g.code, g.jl, code2, head, q);
    }
  }

  // ---------------------------------------------------------- two operands

  /** Both operands are in registers; `end` tells the value of `x` from them. */
  ghost predicate Paired(g: Gen, p: Part, x: Expr, o: Origin) {
    && ValidGen(g) && OriginOk(o, g.nactvar) && Follows(o.code, o.jl, g.code, g.jl)
    && p.code == g.code && p.jl == g.jl && p.tl == [] && p.fl == [] && p.lim == |g.code|
    && Sound(p, |o.code|) && Evaluates(p, x, |o.code|, o.base, -1, g.max)
  }

  lemma OperandsPaired(g1: Gen, d1: Desc, g: Gen, d2: Desc, x: Expr, o: Origin, end: End)
    requires (x.Related? || x.Arith?) && LocalsBelow(x.y, g1.nactvar)
    requires Held(g1, d1, x.x, o) && Held(g, d2, x.y, OriginOf(g1)) && g.nactvar == g1.nactvar && g1.max <= g.max
    requires Operates(x, d1.k.reg, d2.k.reg, end)
    ensures Paired(g, PartOf(g, d2).(end := end), x, o)
  {
    var p, p2 := PartOf(g1, d1), PartOf(g, d2);
    MoreRegisters(p, x.x, |o.code|, o.base, -1, g1.max, -1, g.max);
    RegistersInUse(g1, d1, x.x, o);
    MoreLocals(x.y, g1.nactvar, o.base);
    hide Evaluates, Sound;
    PairMeans(p, p2, x, end, |o.code|, o.base, g1.freereg, g.max);
    FollowsTrans(o, g1, g.code, g.jl);
  }

  lemma {:induction false} MoreLocals(x: Expr, n: nat, m: nat)
    requires LocalsBelow(x, n) && n <= m
    ensures LocalsBelow(x, m)
  {
    match x
    case Local(_) =>
    case Variable(_) =>
    case Not(y) => MoreLocals(y, n, m);
    case And(y, z) => MoreLocals(y, n, m); MoreLocals(z, n, m);
    case Or(y, z) => MoreLocals(y, n, m); MoreLocals(z, n, m);
    case Related(_, y, z) => MoreLocals(y, n, m); MoreLocals(z, n, m);
    case Arith(_, y, z) => MoreLocals(y, n, m); MoreLocals(z, n, m);
  }

  lemma PairedEmission(g: Gen, p: Part, x: Expr, o: Origin, code2: seq<Instr>)
    requires Paired(g, p, x, o) && |code2| > |g.code| && code2[..|g.code|] == Patch(g.code, g.jl, |g.code|, NO_REG, |g.code|)
    ensures var p2 := p.(code := code2, jl := []);
            Sound(p2, |o.code|) && Evaluates(p2, x, |o.code|, o.base, -1, g.max) && Follows(o.code, o.jl, code2, [])
  {
    hide Evaluates, Sound, Follows, Patch;
    EmitMeans(p, x, |o.code|, o.base, -1, g.max, code2);
    FollowsEmit(o, g.code, g.jl, code2);
  }

  lemma ArithEmitted(g: Gen, g2: Gen, p: Part, x: Expr, o: Origin)
    requires Paired(g, p, x, o) && p.end.Yield? && p.end.i.Compute? && EmittedTo(g, g2, p.end.i) && g2.freereg == o.base <= g.max
    ensures Compiled(g2, Desc(VRELOCABLE(|g.code|), NO_JUMP, NO_JUMP, [], []), x, o)
  {
    PairedEmission(g, p, x, o, g2.code);
    EmittedValid(g, g2, p.end.i);
    hide Evaluates, Sound;
  }

  lemma CompareEmitted(g: Gen, g2: Gen, p: Part, x: Expr, o: Origin)
    requires Paired(g, p, x, o) && p.end.Tested? && p.end.i.Compare? && TestEmitted(g, g2, p.end.i) && g2.freereg == o.base
    ensures Compiled(g2, Desc(VJMP(|g.code| + 1), NO_JUMP, NO_JUMP, [], []), x, o)
  {
    assert g2.code[..|g.code|] == Patch(g.code, g.jl, |g.code|, NO_REG, |g.code|);
    PairedEmission(g, p, x, o, g2.code);
    PairedEmit(g.code, g.jl, p.end.i);
    hide Evaluates, Sound;
  }

  /** The two operands, wherever they are, in registers: what any instruction on them computes. */
  ghost predicate OperandsReady(g: Gen, p: Part, x: Expr, o: Origin, o1: nat, o2: nat) {
    forall end :: Operates(x, o1, o2, end) ==> Paired(g, p.(end := end), x, o)
  }

  /** The start of `codearith` and `codecomp`: both operands to registers, and their temporaries freed, the second first. */
  method Operands(fs: FuncState, e1: ExpDesc, e2: ExpDesc, ghost x: Expr, ghost o: Origin, ghost g1: Gen)
    returns (s: Status, o1: nat, o2: nat, ghost p: Part)
    requires (x.Related? || x.Arith?) && LocalsBelow(x.y, fs.nactvar) && e1 != e2
    requires Held(g1, e1.View(), x.x, o) && g1.nactvar == fs.nactvar && g1.max <= fs.maxstacksize
    requires Compiled(fs.View(), e2.View(), x.y, OriginOf(g1))
    modifies fs, e1, e2
    ensures s.Fine? ==> OperandsReady(fs.View(), p, x, o, o1, o2)
    ensures s.Fine? ==> e1.View() == old(e1.View()) && fs.freereg == o.base && fs.maxstacksize >= old(fs.maxstacksize)
    ensures s.SyntaxError? ==> fs.OverLimit()
    ensures |fs.code| <= |old(fs.code)| + 8 && fs.freereg <= old(fs.freereg) + 1
  {
    ghost var d1 := e1.View();
    hide Coded, Paired, OperandsReady;
    o1, o2 := 0, 0;
    p := Part([], [], [], [], 0, Truth(true));
    o1 :- Exp2RK(fs, e1, x.x, o);
    o2 :- Exp2RK(fs, e2, x.y, OriginOf(g1));
    ghost var g, d2 := fs.View(), e2.View();
    FreeOperands(fs, e1, e2, x, o, g1);
    p := PartOf(g, d2);
    AllOperations(g1, d1, g, d2, x, o, fs.View());
    return Fine, o1, o2, p;
  }

  lemma AllOperations(g1: Gen, d1: Desc, g: Gen, d2: Desc, x: Expr, o: Origin, g2: Gen)
    requires (x.Related? || x.Arith?) && LocalsBelow(x.y, g1.nactvar)
    requires Held(g1, d1, x.x, o) && Held(g, d2, x.y, OriginOf(g1)) && g.nactvar == g1.nactvar && g1.max <= g.max
    requires g2 == g.(freereg := g2.freereg) && ValidGen(g2)
    ensures OperandsReady(g2, PartOf(g, d2), x, o, d1.k.reg, d2.k.reg)
  {
    forall end | Operates(x, d1.k.reg, d2.k.reg, end) ensures Paired(g2, PartOf(g, d2).(end := end), x, o) {
      OperandsPaired(g1, d1, g, d2, x, o, end);
      PairedFree(g, g2, PartOf(g, d2).(end := end), x, o);
    }
  }

  /** `codearith`, without constant operands; the first operand has been in its register since `g1`. */
  method CodeArith(fs: FuncState, e1: ExpDesc, e2: ExpDesc, op: Operation, ghost x: Expr, ghost o: Origin, ghost g1: Gen)
    returns (s: Status)
    requires x.Arith? && x.op == op && LocalsBelow(x.y, fs.nactvar) && e1 != e2
    requires Held(g1, e1.View(), x.x, o) && g1.nactvar == fs.nactvar && g1.max <= fs.maxstacksize
    requires Compiled(fs.View(), e2.View(), x.y, OriginOf(g1))
    modifies fs, e1, e2
    ensures s.Fine? ==> Compiled(fs.View(), e1.View(), x, o) && fs.maxstacksize >= old(fs.maxstacksize)
    ensures s.SyntaxError? ==> fs.OverLimit()
    ensures |fs.code| <= |old(fs.code)| + 9 && fs.freereg <= old(fs.freereg) + 1
  {
    hide Coded, Paired;
    var o1, o2;
    ghost var p;
    o1, o2, p :- Operands(fs, e1, e2, x, o, g1);
    ghost var end := Yield(Compute(op, 0, o1, o2));
    assert Operates(x, o1, o2, end);
    :- EmitArith(fs, e1, op, o1, o2, p.(end := end), x, o);
    return Fine;
  }

  /** The end of `codearith`. */
  method EmitArith(fs: FuncState, e: ExpDesc, op: Operation, o1: nat, o2: nat, ghost p: Part, ghost x: Expr, ghost o: Origin)
    returns (s: Status)
    requires Paired(fs.View(), p, x, o) && p.end == Yield(Compute(op, 0, o1, o2)) && fs.freereg == o.base
    requires e.t == e.f == NO_JUMP && e.tl == e.fl == []
    modifies fs, e
    ensures s.Fine? ==> Compiled(fs.View(), e.View(), x, o) && fs.maxstacksize == old(fs.maxstacksize)
    ensures s.SyntaxError? ==> fs.OverLimit()
    ensures |fs.code| <= |old(fs.code)| + 1 && fs.freereg == old(fs.freereg)
  {
    ghost var g := fs.View();
    hide Compiled, Evaluates, Sound, Follows;
    :- fs.Code(Compute(op, 0, o1, o2));
    ArithEmitted(g, fs.View(), p, x, o);
    e.k := VRELOCABLE(|fs.code| - 1);
    return Fine;
  }

  /** The temporaries of both operands are freed, the second first. */
  method FreeOperands(fs: FuncState, e1: ExpDesc, e2: ExpDesc, ghost x: Expr, ghost o: Origin, ghost g1: Gen)
    requires (x.Related? || x.Arith?) && g1.nactvar == fs.nactvar
    requires Held(g1, e1.View(), x.x, o) && Held(fs.View(), e2.View(), x.y, OriginOf(g1))
    modifies fs`freereg
    ensures fs.freereg == o.base <= fs.maxstacksize && fs.nactvar <= fs.freereg
    ensures ValidGen(fs.View())
  {
    RegistersInUse(g1, e1.View(), x.x, o);
    RegistersInUse(fs.View(), e2.View(), x.y, OriginOf(g1));
    hide Coded;
    FreeExp(fs, e2);
    FreeExp(fs, e1);
  }

  /** `codecomp`, without constant operands. */
  method CodeComp(fs: FuncState, e1: ExpDesc, e2: ExpDesc, test: Test, cond0: bool, ghost x: Expr, ghost o: Origin, ghost g1: Gen)
    returns (s: Status)
    requires x.Related? && LocalsBelow(x.y, fs.nactvar) && e1 != e2 && (test, cond0) == ComparisonOf(x.rel)
    requires Held(g1, e1.View(), x.x, o) && g1.nactvar == fs.nactvar && g1.max <= fs.maxstacksize
    requires Compiled(fs.View(), e2.View(), x.y, OriginOf(g1))
    modifies fs, e1, e2
    ensures s.Fine? ==> Compiled(fs.View(), e1.View(), x, o) && fs.maxstacksize >= old(fs.maxstacksize)
    ensures s.SyntaxError? ==> fs.OverLimit()
    ensures |fs.code| <= |old(fs.code)| + 10 && fs.freereg <= old(fs.freereg) + 1
  {
    hide Coded, Paired;
    var o1, o2;
    ghost var p;
    o1, o2, p :- Operands(fs, e1, e2, x, o, g1);
    var cond := cond0;
    if !cond && !test.EQ? {
      o1, o2 := o2, o1;
      cond := true;
    }
    :- EmitComparison(fs, e1, test, cond, o1, o2, p.(end := Tested(Compare(test, cond, o1, o2))), x, o);
    return Fine;
  }

  lemma PairedFree(g: Gen, g2: Gen, p: Part, x: Expr, o: Origin)
    requires Paired(g, p, x, o) && g2 == g.(freereg := g2.freereg) && ValidGen(g2)
    ensures Paired(g2, p, x, o)
  {
  }

  /** The end of `codecomp`. */
  method EmitComparison(fs: FuncState, e: ExpDesc, test: Test, cond: bool, o1: nat, o2: nat,
                        ghost p: Part, ghost x: Expr, ghost o: Origin) returns (s: Status)
    requires Paired(fs.View(), p, x, o) && p.end == Tested(Compare(test, cond, o1, o2)) && fs.freereg == o.base
    requires e.t == e.f == NO_JUMP && e.tl == e.fl == []
    modifies fs, e
    ensures s.Fine? ==> Compiled(fs.View(), e.View(), x, o) && fs.maxstacksize == old(fs.maxstacksize)
    ensures s.SyntaxError? ==> fs.OverLimit()
    ensures |fs.code| <= |old(fs.code)| + 2 && fs.freereg == old(fs.freereg)
  {
    ghost var g := fs.View();
    hide Compiled, Evaluates, Sound, Follows;
    var j :- fs.CondJump(Compare(test, cond, o1, o2));
    CompareEmitted(g, fs.View(), p, x, o);
    e.k := VJMP(j);
    return Fine;
  }

  /** The operator and condition `luaK_posfix` gives to `codecomp`. */
  function ComparisonOf(rel: Relation): (Test, bool) {
    match rel
    case Equal => (EQ, true)
    case NotEqual => (EQ, false)
    case Less => (LT, true)
    case LessEqual => (LE, true)
    case Greater => (LT, false)
    case GreaterEqual => (LE, false)
  }

  // ------------------------------------------------------------------ and, or

  /** The descriptor of `and` (`b`) and `or`: that of the second operand, with the exits of the first. */
  function JoinedDesc(d1: Desc, d2: Desc, b: bool, l: int): Desc {
    if b then Desc(d2.k, d2.t, l, d2.tl, d1.fl + d2.fl) else Desc(d2.k, l, d2.f, d1.tl + d2.tl, d2.fl)
  }

  /** The exits of the first operand of `and` (`b`) and `or`. */
  function ExitsOf(d: Desc, b: bool): seq<nat> {
    if b then d.fl else d.tl
  }

  function ExitHead(d: Desc, b: bool): int {
    if b then d.f else d.t
  }

  /** The second operand of `and` (`b`) or `or` has been compiled since the state `g1` of the first. */
  ghost predicate Joining(g1: Gen, d1: Desc, g: Gen, d2: Desc, x: Expr, y: Expr, o: Origin, b: bool) {
    && Conditional(g1, d1, x, o, b) && g1.nactvar == g.nactvar && g1.max <= g.max
    && Compiled(g, d2, y, OriginOf(g1)) && !d2.k.VLOCAL? && !d2.k.VVAR? && LocalsBelow(y, g.nactvar)
  }

  lemma JoiningLists(g1: Gen, d1: Desc, g: Gen, d2: Desc, x: Expr, y: Expr, o: Origin, b: bool)
    requires Joining(g1, d1, g, d2, x, y, o, b)
    ensures IsList(g.code, ExitHead(d1, b), ExitsOf(d1, b)) && IsList(g.code, ExitHead(d2, b), ExitsOf(d2, b))
    ensures forall j :: j in ExitsOf(d1, b) ==> |o.code| < j < |g1.code|
    ensures Disjoint(ExitsOf(d1, b), d2.tl) && Disjoint(ExitsOf(d1, b), d2.fl) && Disjoint(ExitsOf(d1, b), g.jl)
  {
    hide Evaluates;
    FirstListKept(g1, g.code, g.jl, ExitHead(d1, b), ExitsOf(d1, b));
  }

  lemma JoinState(g1: Gen, d1: Desc, g: Gen, d2: Desc, x: Expr, y: Expr, o: Origin, b: bool, g3: Gen, l: int)
    requires Joining(g1, d1, g, d2, x, y, o, b) && AllJumps(g.code, ExitsOf(d1, b))
    requires g3 == g.(code := Threaded(g.code, ExitsOf(d1, b), ExitsOf(d2, b)))
    requires IsList(g3.code, l, ExitsOf(d1, b) + ExitsOf(d2, b))
    ensures ValidGen(g3) && ListsOk(g3, JoinedDesc(d1, d2, b, l)) && Follows(o.code, o.jl, g3.code, g3.jl)
    ensures Placed(g3, JoinedDesc(d1, d2, b, l), o)
    ensures LinkedIn(g.code, g3.code, ExitsOf(d1, b), |g1.code|)
  {
    JoiningLists(g1, d1, g, d2, x, y, o, b);
    JoinFollows(g1, d1, g, d2, x, y, o, b);
    hide Evaluates, Sound, Follows;
    var q, q2 := ExitsOf(d1, b), ExitsOf(d2, b);
    ThreadedState(g, d2, q, q2, b);
    ThreadLinked(g.code, q, q2, |g1.code|);
    JoinPlaced(g1, g, d2, o, q, g3);
  }

  lemma ThreadedState(g: Gen, d2: Desc, q: seq<nat>, q2: seq<nat>, b: bool)
    requires ValidGen(g) && ListsOk(g, d2) && AllJumps(g.code, q) && q2 == ExitsOf(d2, b)
    requires Disjoint(q, d2.tl) && Disjoint(q, d2.fl) && Disjoint(q, g.jl)
    ensures var g3 := g.(code := Threaded(g.code, q, q2));
            ValidGen(g3) && IsList(g3.code, if b then d2.t else d2.f, if b then d2.tl else d2.fl)
  {
    ThreadPaired(g.code, q, q2);
    ThreadKeeps(g.code, q, q2, g.jpc, g.jl);
    ThreadKeeps(g.code, q, q2, if b then d2.t else d2.f, if b then d2.tl else d2.fl);
  }

  lemma ThreadLinked(code: seq<Instr>, q: seq<nat>, q2: seq<nat>, n: nat)
    requires AllJumps(code, q) && forall j :: j in q ==> j < n
    ensures LinkedIn(code, Threaded(code, q, q2), q, n)
  {
    if q != [] {
      assert q[|q| - 1] in q;
    }
  }

  lemma JoinPlaced(g1: Gen, g: Gen, d2: Desc, o: Origin, q: seq<nat>, g3: Gen)
    requires Placed(g, d2, OriginOf(g1)) && !d2.k.VLOCAL? && !d2.k.VVAR? && g1.freereg == o.base && |o.code| <= |g1.code|
    requires g3 == g.(code := g3.code) && LinkedIn(g.code, g3.code, q, |g1.code|)
    ensures forall d: Desc :: d.k == d2.k ==> Placed(g3, d, o)
  {
  }

  lemma JoinFollows(g1: Gen, d1: Desc, g: Gen, d2: Desc, x: Expr, y: Expr, o: Origin, b: bool)
    requires Joining(g1, d1, g, d2, x, y, o, b) && AllJumps(g.code, ExitsOf(d1, b))
    requires forall j :: j in ExitsOf(d1, b) ==> |o.code| < j < |g1.code|
    ensures Follows(o.code, o.jl, Threaded(g.code, ExitsOf(d1, b), ExitsOf(d2, b)), g.jl)
  {
    hide Evaluates, Sound;
    FollowsTrans(o, g1, g.code, g.jl);
    ThreadFollows(o, g.code, g.jl, ExitsOf(d1, b), ExitsOf(d2, b));
  }

  lemma JoinCompiled(g1: Gen, d1: Desc, g: Gen, d2: Desc, x: Expr, y: Expr, o: Origin, b: bool, g3: Gen, l: int)
    requires Joining(g1, d1, g, d2, x, y, o, b) && AllJumps(g.code, ExitsOf(d1, b))
    requires g3 == g.(code := Threaded(g.code, ExitsOf(d1, b), ExitsOf(d2, b)))
    requires IsList(g3.code, l, ExitsOf(d1, b) + ExitsOf(d2, b))
    ensures Compiled(g3, JoinedDesc(d1, d2, b, l), JoinedExpr(x, y, b), o)
  {
    hide Evaluates, Sound, Follows, LinkedIn, IsList, TestsPaired, Joins;
    JoiningLists(g1, d1, g, d2, x, y, o, b);
    JoinState(g1, d1, g, d2, x, y, o, b, g3, l);
    var p, p2 := Part(g1.code, g1.jl, d1.tl, d1.fl, |g1.code|, Truth(b)), PartOf(g, d2);
    MoreRegisters(p, x, |o.code|, o.base, -1, g1.max, -1, g.max);
    MoreLocals(y, g.nactvar, o.base);
    JoinPart(g1, d1, g, d2, x, y, o, b, g3, l);
    JoinReady(g1, d1, g, d2, x, y, o, b, g3.code);
    JoinMeans(p, p2, g3.code, b, x, y, |o.code|, o.base, g.max);
  }

  lemma JoinReady(g1: Gen, d1: Desc, g: Gen, d2: Desc, x: Expr, y: Expr, o: Origin, b: bool, code3: seq<Instr>)
    requires Joining(g1, d1, g, d2, x, y, o, b) && LinkedIn(g.code, code3, ExitsOf(d1, b), |g1.code|)
    requires Disjoint(ExitsOf(d1, b), d2.tl) && Disjoint(ExitsOf(d1, b), d2.fl) && Disjoint(ExitsOf(d1, b), g.jl)
    ensures Joins(Part(g1.code, g1.jl, d1.tl, d1.fl, |g1.code|, Truth(b)), PartOf(g, d2), code3, b, |o.code|)
  {
    hide Evaluates, Sound, Follows, LinkedIn, IsList, TestsPaired, Disjoint;
  }

  lemma JoinPart(g1: Gen, d1: Desc, g: Gen, d2: Desc, x: Expr, y: Expr, o: Origin, b: bool, g3: Gen, l: int)
    requires Joining(g1, d1, g, d2, x, y, o, b) && AllJumps(g.code, ExitsOf(d1, b))
    requires g3 == g.(code := Threaded(g.code, ExitsOf(d1, b), ExitsOf(d2, b)))
    requires Placed(g3, JoinedDesc(d1, d2, b, l), o)
    requires forall j :: j in ExitsOf(d1, b) ==> |o.code| < j < |g1.code|
    ensures PartOf(g3, JoinedDesc(d1, d2, b, l)) ==
              Joined(Part(g1.code, g1.jl, d1.tl, d1.fl, |g1.code|, Truth(b)), PartOf(g, d2), g3.code, b)
  {
    hide Evaluates, Sound, Follows, IsList, TestsPaired, Disjoint, LocalsBelow;
    var q := ExitsOf(d1, b);
    if q != [] {
      assert q[|q| - 1] in q;
    }
    assert forall i :: |g1.code| <= i < |g.code| ==> g3.code[i] == g.code[i];
  }

  /** `luaK_posfix` for `and` (`b`) and `or`; the first operand has been a condition since `g1`. */
  method CodeJoin(fs: FuncState, e1: ExpDesc, e2: ExpDesc, b: bool, ghost x: Expr, ghost y: Expr, ghost o: Origin, ghost g1: Gen)
    returns (s: Status)
    requires Conditional(g1, e1.View(), x, o, b) && g1.nactvar == fs.nactvar && g1.max <= fs.maxstacksize && e1 != e2
    requires Compiled(fs.View(), e2.View(), y, OriginOf(g1)) && LocalsBelow(y, fs.nactvar)
    modifies fs, e1, e2
    ensures s.Fine? ==> Compiled(fs.View(), e1.View(), JoinedExpr(x, y, b), o) && fs.maxstacksize >= old(fs.maxstacksize)
    ensures s.SyntaxError? ==> fs.OverLimit()
    ensures |fs.code| <= |old(fs.code)| + 1 && fs.freereg <= old(fs.freereg)
  {
    hide Coded, Conditional;
    :- DischargeVars(fs, e2, y, OriginOf(g1));
    :- JoinExits(fs, e1, e2, b, x, y, o, g1);
    return Fine;
  }

  /** The exits of both operands become one list. */
  method JoinExits(
      fs: FuncState, e1: ExpDesc, e2: ExpDesc, b: bool, ghost x: Expr, ghost y: Expr, ghost o: Origin, ghost g1: Gen)
    returns (s: Status)
    requires Joining(g1, e1.View(), fs.View(), e2.View(), x, y, o, b)
    modifies fs, e1
    ensures s.Fine? ==> Compiled(fs.View(), e1.View(), JoinedExpr(x, y, b), o) && fs.maxstacksize == old(fs.maxstacksize)
    ensures s.SyntaxError? ==> fs.OverLimit()
    ensures |fs.code| == |old(fs.code)| && fs.freereg == old(fs.freereg)
  {
    hide Joining, Compiled, IsList, Disjoint, AllJumps, FuncState.OverLimit;
    ghost var g, d1, d2 := fs.View(), e1.View(), e2.View();
    JoiningLists(g1, d1, g, d2, x, y, o, b);
    ListJumps(g.code, ExitHead(d1, b), ExitsOf(d1, b));
    ghost var q1, q2 := ExitsOf(d1, b), ExitsOf(d2, b);
    var l :- fs.Concat(if b then e1.f else e1.t, if b then e2.f else e2.t, q1, q2);
    JoinCompiled(g1, d1, g, d2, x, y, o, b, fs.View(), l);
    e1.k := e2.k;
    if b {
      e1.f, e1.t := l, e2.t;
      e1.fl, e1.tl := q1 + q2, e2.tl;
    } else {
      e1.t, e1.f := l, e2.f;
      e1.tl, e1.fl := q1 + q2, e2.fl;
    }
    return Fine;
  }

  lemma ListJumps(code: seq<Instr>, head: int, q: seq<nat>)
    requires IsList(code, head, q)
    ensures AllJumps(code, q)
  {
  }

  // -------------------------------------------------------- the parser's calls

  /** A valid state is an origin. */
  lemma FreshOrigin(g: Gen)
    requires ValidGen(g)
    ensures OriginOk(OriginOf(g), g.nactvar) && Follows(g.code, g.jl, g.code, g.jl)
  {
  }

  lemma LocalCompiled(g: Gen, r: nat)
    requires ValidGen(g) && r < g.nactvar
    ensures Compiled(g, Desc(VLOCAL(r), NO_JUMP, NO_JUMP, [], []), Local(r), OriginOf(g))
  {
    FreshOrigin(g);
    var d, o := Desc(VLOCAL(r), NO_JUMP, NO_JUMP, [], []), OriginOf(g);
    forall env: Env, m: Machine | |m.regs| >= g.max ensures Means(env, PartOf(g, d), Local(r), |o.code|, o.base, -1, m) {
      assert RunOf(env, PartOf(g, d), |o.code|, m) == Fell(m);
    }
  }

  lemma VariableCompiled(g: Gen, source: Source)
    requires ValidGen(g)
    ensures Compiled(g, Desc(VVAR(source), NO_JUMP, NO_JUMP, [], []), Variable(source), OriginOf(g))
  {
    FreshOrigin(g);
    var d, o := Desc(VVAR(source), NO_JUMP, NO_JUMP, [], []), OriginOf(g);
    forall env: Env, m: Machine | |m.regs| >= g.max ensures Means(env, PartOf(g, d), Variable(source), |o.code|, o.base, -1, m) {
      assert RunOf(env, PartOf(g, d), |o.code|, m) == Fell(m);
    }
  }

  function Operators(x: Expr): nat {
    match x
    case Local(_) => 0
    case Variable(_) => 0
    case Not(y) => Operators(y) + 1
    case And(y, z) => Operators(y) + Operators(z) + 1
    case Or(y, z) => Operators(y) + Operators(z) + 1
    case Related(_, y, z) => Operators(y) + Operators(z) + 1
    case Arith(_, y, z) => Operators(y) + Operators(z) + 1
  }

  function Max(a: nat, b: nat): nat {
    if a < b then b else a
  }

  /** The temporaries that `x` may take: three, and one more for each second operand that holds another. */
  function Temporaries(x: Expr): nat {
    match x
    case Local(_) => 0
    case Variable(_) => 0
    case Not(y) => Max(3, Temporaries(y))
    case And(y, z) => Max(3, Max(Temporaries(y), Temporaries(z)))
    case Or(y, z) => Max(3, Max(Temporaries(y), Temporaries(z)))
    case Related(_, y, z) => Max(3, Max(Temporaries(y), 1 + Temporaries(z)))
    case Arith(_, y, z) => Max(3, Max(Temporaries(y), 1 + Temporaries(z)))
  }

  /** No operator takes more instructions than this. */
  const COST: nat := 18

  /** At most `COST` instructions have been added for each of `n` operators. */
  predicate Frugal(code: seq<Instr>, before: seq<Instr>, n: nat) {
    |code| <= |before| + COST * n
  }

  /**
  The calls `subexpr` makes: `luaK_prefix` after an operand, `luaK_infix` before
  the second operand, and `luaK_posfix` after it.
  */
  method Expression(fs: FuncState, x: Expr) returns (s: Status, e: ExpDesc)
    requires ValidGen(fs.View()) && LocalsBelow(x, fs.nactvar)
    modifies fs
    ensures fresh(e)
    ensures s.Fine? ==> Compiled(fs.View(), e.View(), x, old(OriginOf(fs.View()))) && fs.maxstacksize >= old(fs.maxstacksize)
    ensures s.SyntaxError? ==> fs.OverLimit()
    ensures Frugal(fs.code, old(fs.code), Operators(x)) && fs.freereg <= old(fs.freereg) + Temporaries(x)
    decreases x
  {
    hide Coded, Conditional, Held;
    ghost var g, o := fs.View(), OriginOf(fs.View());
    match x {
      case Local(r) =>
        LocalCompiled(g, r);
        e := new ExpDesc(VLOCAL(r));
        return Fine, e;
      case Variable(source) =>
        VariableCompiled(g, source);
        e := new ExpDesc(VVAR(source));
        return Fine, e;
      case Not(y) =>
        s, e := Expression(fs, y);
        if s.Fine? {
          s := CodeNot(fs, e, y, o);
        }
        return s, e;
      case And(y, z) =>
        s, e := Junction(fs, y, z, true);
      case Or(y, z) =>
        s, e := Junction(fs, y, z, false);
      case Related(rel, y, z) =>
        s, e := Binary(fs, x);
      case Arith(op, y, z) =>
        s, e := Binary(fs, x);
    }
  }

  /** What an operator adds to the bounds of its operands. */
  lemma OperatorBounds(x: Expr)
    ensures x.Not? ==> Operators(x) == Operators(x.x) + 1 && Temporaries(x) >= 3 && Temporaries(x) >= Temporaries(x.x)
    ensures x.And? || x.Or? || x.Related? || x.Arith? ==>
              && Operators(x) == Operators(x.x) + Operators(x.y) + 1
              && Temporaries(x) >= 3 && Temporaries(x) >= Temporaries(x.x) && Temporaries(x) >= Temporaries(x.y)
    ensures x.Related? || x.Arith? ==> Temporaries(x) >= 1 + Temporaries(x.y)
  {
  }

  /** `y and z` (`b`), or `y or z`. */
  method Junction(fs: FuncState, y: Expr, z: Expr, b: bool) returns (s: Status, e: ExpDesc)
    requires ValidGen(fs.View()) && LocalsBelow(y, fs.nactvar) && LocalsBelow(z, fs.nactvar)
    modifies fs
    ensures fresh(e)
    ensures s.Fine? ==>
              && Compiled(fs.View(), e.View(), JoinedExpr(y, z, b), old(OriginOf(fs.View())))
              && fs.maxstacksize >= old(fs.maxstacksize)
    ensures s.SyntaxError? ==> fs.OverLimit()
    ensures Frugal(fs.code, old(fs.code), Operators(y) + Operators(z) + 1)
    ensures fs.freereg <= old(fs.freereg) + Temporaries(JoinedExpr(y, z, b))
    decreases JoinedExpr(y, z, b), 1
  {
    ghost var o := OriginOf(fs.View());
    OperatorBounds(JoinedExpr(y, z, b));
    hide Compiled, Conditional, Operators, Temporaries, LocalsBelow, ValidGen, FuncState.OverLimit;
    s, e := FirstOperand(fs, y, z, b);
    if s.Fine? {
      s := SecondOperand(fs, e, y, z, b, o);
    }
  }

  /** The second operand, and `luaK_posfix`. */
  method SecondOperand(fs: FuncState, e: ExpDesc, y: Expr, z: Expr, b: bool, ghost o: Origin) returns (s: Status)
    requires Conditional(fs.View(), e.View(), y, o, b) && LocalsBelow(z, fs.nactvar)
    modifies fs, e
    ensures s.Fine? ==>
              && Compiled(fs.View(), e.View(), JoinedExpr(y, z, b), o) && fs.maxstacksize >= old(fs.maxstacksize)
    ensures s.SyntaxError? ==> fs.OverLimit()
    ensures |fs.code| <= |old(fs.code)| + COST * Operators(z) + 1 && fs.freereg <= old(fs.freereg) + Temporaries(z)
    decreases JoinedExpr(y, z, b), 0
  {
    hide Compiled, Conditional, Operators, Temporaries;
    ghost var g1 := fs.View();
    ConditionalValid(g1, e.View(), y, o, b);
    var e2;
    s, e2 := Expression(fs, z);
    if s.Fine? {
      s := CodeJoin(fs, e, e2, b, y, z, o, g1);
    }
  }

  /** The first operand of `y and z` or `y or z`, and `luaK_infix`. */
  method FirstOperand(fs: FuncState, y: Expr, z: Expr, b: bool) returns (s: Status, e: ExpDesc)
    requires ValidGen(fs.View()) && LocalsBelow(y, fs.nactvar)
    modifies fs
    ensures fresh(e)
    ensures s.Fine? ==>
              && Conditional(fs.View(), e.View(), y, old(OriginOf(fs.View())), b)
              && fs.maxstacksize >= old(fs.maxstacksize)
    ensures s.SyntaxError? ==> fs.OverLimit()
    ensures |fs.code| <= |old(fs.code)| + COST * Operators(y) + 5
    ensures fs.freereg <= old(fs.freereg) + Max(3, Temporaries(y))
    decreases JoinedExpr(y, z, b), 0
  {
    ghost var o := OriginOf(fs.View());
    hide Compiled, Conditional;
    s, e := Expression(fs, y);
    if s.Fine? {
      s := GoIf(fs, e, b, y, o);
    }
    return s, e;
  }

  lemma ConditionalValid(g: Gen, d: Desc, x: Expr, o: Origin, b: bool)
    requires Conditional(g, d, x, o, b)
    ensures ValidGen(g) && g.freereg == o.base
  {
  }

  /** A comparison or an arithmetic operation. */
  method Binary(fs: FuncState, x: Expr) returns (s: Status, e: ExpDesc)
    requires ValidGen(fs.View()) && LocalsBelow(x, fs.nactvar) && (x.Related? || x.Arith?)
    modifies fs
    ensures fresh(e)
    ensures s.Fine? ==> Compiled(fs.View(), e.View(), x, old(OriginOf(fs.View()))) && fs.maxstacksize >= old(fs.maxstacksize)
    ensures s.SyntaxError? ==> fs.OverLimit()
    ensures Frugal(fs.code, old(fs.code), Operators(x)) && fs.freereg <= old(fs.freereg) + Temporaries(x)
    decreases x, 1
  {
    ghost var o := OriginOf(fs.View());
    OperatorBounds(x);
    hide Compiled, Held, Operators, Temporaries, FuncState.OverLimit;
    s, e := Expression(fs, x.x);
    if s.Fine? {
      var r;
      s, r := Exp2RK(fs, e, x.x, o);
      if s.Fine? {
        s := BinarySecond(fs, e, x, o);
      }
    }
  }

  /** The second operand, and `luaK_posfix`; the first one is in a register. */
  method BinarySecond(fs: FuncState, e: ExpDesc, x: Expr, ghost o: Origin) returns (s: Status)
    requires (x.Related? || x.Arith?) && LocalsBelow(x, fs.nactvar) && Held(fs.View(), e.View(), x.x, o)
    modifies fs, e
    ensures s.Fine? ==> Compiled(fs.View(), e.View(), x, o) && fs.maxstacksize >= old(fs.maxstacksize)
    ensures s.SyntaxError? ==> fs.OverLimit()
    ensures |fs.code| <= |old(fs.code)| + COST * Operators(x.y) + 10 && fs.freereg <= o.base + Temporaries(x)
    decreases x, 0
  {
    OperatorBounds(x);
    hide Coded, Operators, Temporaries;
    ghost var g1 := fs.View();
    RegistersInUse(g1, e.View(), x.x, o);
    var e2;
    s, e2 := Expression(fs, x.y);
    if s.IsFailure() {
      return s;
    }
    RegistersInUse(fs.View(), e2.View(), x.y, OriginOf(g1));
    if x.Arith? {
      s := CodeArith(fs, e, e2, x.op, x, o, g1);
    } else {
      var (test, cond) := ComparisonOf(x.rel);
      s := CodeComp(fs, e, e2, test, cond, x, o, g1);
    }
  }

  // ------------------------------------------------------------ on the machine

  /** A run that falls off the end of finished code is a run of the machine. */
  lemma {:induction false} VmExec(env: Env, code: seq<Instr>, pc: nat, lim: nat, m: Machine) returns (k: nat)
    requires pc <= lim <= |code| && Exec(env, code, {}, {}, pc, lim, m).Fell?
    ensures VmRun(env, code, At(pc, m), k) == At(lim, Exec(env, code, {}, {}, pc, lim, m).m)
    decreases lim - pc
  {
    if pc == lim {
      return 0;
    }
    match Unit(env, code, pc, m) {
      case Goto(next, m1) =>
        assert VmStep(env, code, pc, m) == At(next, m1);
        var n := VmExec(env, code, next, lim, m1);
        k := n + 1;
      case Take(j, m1) =>
        var dest := j + 1 + code[j].sbx;
        var m2 := Landed(code, j, m1);
        assert VmStep(env, code, pc, m) == At(dest, m2);
        var n := VmExec(env, code, dest, lim, m2);
        k := n + 1;
    }
  }

  /** The machine ends with the value of `x` in `reg`, its events in the trace, and the registers in use but `but` as they were. */
  ghost predicate Computed(env: Env, x: Expr, reg: nat, base: nat, but: int, m: Machine, m2: Machine) {
    && (Get(m2, reg), m2.trace) == Eval(env, x, m.regs, m.trace)
    && SameBelow(m, m2, base, but)
  }

  /**
  Whatever code comes behind it, and whatever the machine holds, the code of `g`
  from `start` on runs to its end and leaves the value of `x` in `reg`.
  */
  ghost predicate Computes(g: Gen, start: nat, x: Expr, reg: nat, base: nat, but: int) {
    forall code: seq<Instr>, env: Env, m: Machine | Completes(g, code) && |m.regs| >= g.max ::
      ComputedBy(env, code, g, start, x, reg, base, but, m)
  }

  /** `code` is the code of `g`, its pending jumps sent to the instruction that follows. */
  ghost predicate Completes(g: Gen, code: seq<Instr>) {
    |code| > |g.code| && code[..|g.code|] == Patch(g.code, g.jl, |g.code|, NO_REG, |g.code|)
  }

  ghost predicate ComputedBy(env: Env, code: seq<Instr>, g: Gen, start: nat, x: Expr, reg: nat, base: nat, but: int, m: Machine) {
    exists m2 :: Reaches(env, code, At(start, m), At(|g.code|, m2)) && Computed(env, x, reg, base, but, m, m2)
  }

  lemma CodedComputes(g: Gen, d: Desc, x: Expr, o: Origin, but: int)
    requires Coded(g, d, x, o, but) && d.k.VNONRELOC? && d.tl == d.fl == []
    ensures Computes(g, |o.code|, x, d.k.reg, o.base, but)
  {
    forall code: seq<Instr>, env: Env, m: Machine | Completes(g, code) && |m.regs| >= g.max
      ensures ComputedBy(env, code, g, |o.code|, x, d.k.reg, o.base, but, m)
    {
      var p, n := PartOf(g, d), |g.code|;
      assert Positions([]) == {} && Positions([]) + Positions([]) == {};
      EmitResolves(g.code, g.jl, {}, code, |o.code|, n);
      ResumeRun(env, g.code, Positions(g.jl), {}, code, {}, {}, |o.code|, n, n, |o.code|, m);
      assert Means(env, p, x, |o.code|, o.base, but, m);
      var m2 := RunOf(env, p, |o.code|, m).m;
      assert Exec(env, code, {}, {}, |o.code|, n, m) == Fell(m2);
      var k := VmExec(env, code, |o.code|, n, m);
      assert Reaches(env, code, At(|o.code|, m), At(n, m2));
      assert Computed(env, x, d.k.reg, o.base, but, m, m2);
    }
  }

  /** Jumps over the code of `x` reach their targets, and there are registers for its temporaries. */
  predicate RoomFor(g: Gen, x: Expr) {
    |g.code| + COST * Operators(x) + 6 < MAXARG_SBX && g.freereg + Temporaries(x) + 2 < MAXSTACK
  }

  /** An expression whose value goes to the next free register, as that of a new local variable or an argument does. */
  method ExpressionToNextReg(fs: FuncState, x: Expr) returns (s: Status)
    requires ValidGen(fs.View()) && LocalsBelow(x, fs.nactvar)
    modifies fs
    ensures s.Fine? ==> ValidGen(fs.View()) && fs.freereg == old(fs.freereg) + 1
    ensures s.Fine? ==> Follows(old(fs.code), old(fs.jl), fs.code, fs.jl)
    ensures s.Fine? ==> Computes(fs.View(), |old(fs.code)|, x, old(fs.freereg), old(fs.freereg), -1)
    ensures s.SyntaxError? ==> fs.OverLimit()
    ensures old(RoomFor(fs.View(), x)) ==> s.Fine?
    ensures |fs.code| <= |old(fs.code)| + COST * Operators(x) + 6
  {
    ghost var o := OriginOf(fs.View());
    hide Sound, Evaluates, Computes;
    var e;
    s, e := Expression(fs, x);
    if s.Fine? {
      s := Exp2NextReg(fs, e, x, o);
      if s.Fine? {
        CodedComputes(fs.View(), e.View(), x, o, -1);
      }
    }
  }

  /** The assignment of an expression to a local variable. */
  method ExpressionToLocal(fs: FuncState, x: Expr, local: nat) returns (s: Status)
    requires ValidGen(fs.View()) && LocalsBelow(x, fs.nactvar) && local < fs.nactvar
    modifies fs
    ensures s.Fine? ==> ValidGen(fs.View()) && fs.freereg == old(fs.freereg)
    ensures s.Fine? ==> Follows(old(fs.code), old(fs.jl), fs.code, fs.jl)
    ensures s.Fine? ==> Computes(fs.View(), |old(fs.code)|, x, local, old(fs.freereg), local)
    ensures s.SyntaxError? ==> fs.OverLimit()
    ensures old(RoomFor(fs.View(), x)) ==> s.Fine?
    ensures |fs.code| <= |old(fs.code)| + COST * Operators(x) + 6
  {
    ghost var o := OriginOf(fs.View());
    hide Sound, Evaluates, Computes;
    var e;
    s, e := Expression(fs, x);
    if s.Fine? {
      s := StoreLocal(fs, e, local, x, o);
      if s.Fine? {
        CodedComputes(fs.View(), e.View(), x, o, local);
      }
    }
  }
}
