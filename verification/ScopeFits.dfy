/**
What the limits of the parser are for: in the code it accepts, every operand
fits its field. Registers are below 250, a function has at most 60 upvalues,
and an instruction names only registers and upvalues that exist there.
*/
module ScopeFits {
  import opened Scopes
  import opened ScopeCode
  import opened ScopeStatic
  import L = ScopeLang

  const REGISTERS: nat := 250
  const VARIABLES: nat := 200
  const UPVALUES: nat := 60

  /** Each capture names a register or upvalue of the function around it. */
  predicate CapturesFit(captures: seq<UpvalDesc>, level: nat, nups: nat) {
    && |captures| <= UPVALUES
    && forall k :: 0 <= k < |captures| ==> captures[k].info < if captures[k].fromLocal then level else nups
  }

  /** The operands of `e`, where `level` registers hold variables and the function has `nups` upvalues. */
  predicate ExpFits(e: Code, level: nat, nups: nat)
    decreases e, 0
  {
    match e
    case Nil => true
    case Num(_) => true
    case GetLocal(slot) => slot < level
    case GetUpval(k) => k < nups
    case GetGlobal(_) => true
    case Add(l, r) => ExpFits(l, level, nups) && ExpFits(r, level, nups)
    case Closure(p) => CapturesFit(p.captures, level, nups) && Fits(p.body, 1, |p.captures|)
    case Call(f, a) => ExpFits(f, level, nups) && ExpFits(a, level, nups)
  }

  /** There is also room for the temporaries and the result. */
  predicate ValueFits(e: Code, use: Use, level: nat, nups: nat)
    decreases e, 1
  {
    ExpFits(e, level, nups) && level + Registers(e, use) < REGISTERS
  }

  predicate TargetFits(t: Target, level: nat, nups: nat) {
    match t
    case ToLocal(slot) => slot < level
    case ToUpval(k) => k < nups
    case ToGlobal(_) => true
  }

  /** The registers that hold variables behind `s`. */
  function After(s: Stmt, level: nat): nat {
    match s
    case Seq(a, b) => After(b, After(a, level))
    case Push(_) => level + 1
    case PushFunction(_) => level + 1
    case _ => level
  }

  predicate Fits(s: Stmt, level: nat, nups: nat)
    decreases s, 0
  {
    match s
    case Skip => true
    case Seq(a, b) => Fits(a, level, nups) && Fits(b, After(a, level), nups)
    case Push(e) => level < VARIABLES && ValueFits(e, NextReg, level, nups)
    case PushFunction(p) =>
      level < VARIABLES && CapturesFit(p.captures, level + 1, nups) && Fits(p.body, 1, |p.captures|)
    case Store(t, e) =>
      TargetFits(t, level, nups) && ValueFits(e, if t.ToLocal? then InPlace else AnyReg, level, nups)
    case Eval(e) => ValueFits(e, InPlace, level, nups)
    case Block(a, base, _) => base == level && Fits(a, level, nups)
    case If(e, a, b) => ValueFits(e, Use.Test, level, nups) && Fits(a, level, nups) && Fits(b, level, nups)
    case While(e, a) => ValueFits(e, Use.Test, level, nups) && Fits(a, level, nups)
    case Repeat(a, e, base, _) =>
      base == level && Fits(a, level, nups) && ValueFits(e, Use.Test, After(a, level), nups)
    case Break(base, _) => base <= level
    case Return(e) => ValueFits(e, AnyReg, level, nups)
  }

  // -------------------------------------------------------------- what is compiled

  /** The level that the parser is at. */
  function Active(chain: seq<Func>): nat
    requires chain != []
  {
    |Top(chain).actvar|
  }

  /** The upvalues that the function on top has so far. */
  function Ups(chain: seq<Func>): nat
    requires chain != []
  {
    |Top(chain).upvalues|
  }

  lemma GrowsFurther(a: seq<Func>, b: seq<Func>)
    requires a != [] && Grows(a, b)
    ensures Active(a) == Active(b) && Ups(a) <= Ups(b)
  {
    assert FuncGrows(Top(a), Top(b));
  }

  lemma ContinuesFurther(a: seq<Func>, b: seq<Func>)
    requires Continues(a, b)
    ensures Active(a) <= Active(b) && Ups(a) <= Ups(b)
  {
  }

  lemma VarFits(chain: seq<Func>, x: Name, nups: nat)
    requires chain != [] && StaticOk(chain)
    ensures var r := CompileVar(x, chain); r.Done? && Ups(r.chain) <= nups ==> ExpFits(r.code, Active(chain), nups)
    ensures var r := CompileTarget(x, chain); r.Done? && Ups(r.chain) <= nups ==> TargetFits(r.code, Active(chain), nups)
  {
    SingleVarAuxMeans(chain, x, true);
  }

  lemma {:induction false} CompileExpFits(e: L.Exp, chain: seq<Func>, nups: nat)
    requires chain != [] && StaticOk(chain)
    ensures var r := CompileExp(e, chain); r.Done? && Ups(r.chain) <= nups ==> ExpFits(r.code, Active(chain), nups)
    decreases e, 0
  {
    hide StaticOk, Grows, CompileVar, CompileFunction, Active, Ups;
    match e {
      case Nil =>
      case Num(_) =>
      case Var(x) => VarFits(chain, x, nups);
      case Function(param, body) => FunctionFits(param, body, chain, nups);
      case Add(l, r) =>
        var a := CompileExp(l, chain);
        if a.Done? && CompileExp(r, a.chain).Done? {
          CompileExpOk(l, chain);
          GrowsFurther(chain, a.chain);
          GrowsFurther(a.chain, CompileExp(r, a.chain).chain);
          CompileExpFits(l, chain, nups);
          CompileExpFits(r, a.chain, nups);
        }
      case Call(f, arg) =>
        var a := CompileExp(f, chain);
        if a.Done? && CompileExp(arg, a.chain).Done? {
          CompileExpOk(f, chain);
          GrowsFurther(chain, a.chain);
          GrowsFurther(a.chain, CompileExp(arg, a.chain).chain);
          CompileExpFits(f, chain, nups);
          CompileExpFits(arg, a.chain, nups);
        }
    }
  }

  /** What the last function of the chain captures is there in the function around it. */
  lemma CapturesThere(chain: seq<Func>)
    requires |chain| >= 2 && StaticOk(chain)
    ensures var outer := chain[..|chain| - 1];
      CapturesFit(Top(chain).upvalues, Active(outer), Ups(outer))
  {
    var d := |chain| - 1;
    assert FuncOk(chain[d]) && FuncLinked(chain, d);
    forall k | 0 <= k < |chain[d].upvalues| ensures DescOk(chain, d, chain[d].upvalues[k]) {
    }
  }

  lemma CapturesWider(captures: seq<UpvalDesc>, level: nat, nups: nat, more: nat)
    requires CapturesFit(captures, level, nups) && nups <= more
    ensures CapturesFit(captures, level, more)
  {
  }

  lemma {:induction false} FunctionFits(param: Name, body: L.Stat, chain: seq<Func>, nups: nat)
    requires chain != [] && StaticOk(chain)
    ensures var r := CompileFunction(param, body, chain); r.Done? && Ups(r.chain) <= nups ==>
      CapturesFit(r.code.captures, Active(chain), nups) && Fits(r.code.body, 1, |r.code.captures|)
    decreases body, 2
  {
    hide StaticOk, Grows, Continues, CapturesFit, Fits, CompileStat;
    var c := CompileBody(param, body, chain);
    if c.Done? {
      OpenFuncOk(chain, param);
      CompileFunctionOk(param, body, chain);
      CompileStatFits(body, OpenFunc(chain, param), Ups(c.chain));
      CapturesThere(c.chain);
      var r := CompileFunction(param, body, chain);
      GrowsFurther(chain, r.chain);
      if Ups(r.chain) <= nups {
        CapturesWider(r.code.captures, Active(chain), Ups(r.chain), nups);
      }
    }
  }

  lemma {:induction false} CompileValueFits(e: L.Exp, use: Use, chain: seq<Func>, nups: nat)
    requires chain != [] && StaticOk(chain)
    ensures var r := CompileValue(e, use, chain); r.Done? && Ups(r.chain) <= nups ==>
      ValueFits(r.code, use, Active(chain), nups)
    decreases e, 1
  {
    hide StaticOk, Grows, CompileExp, ExpFits;
    CompileExpFits(e, chain, nups);
    if CompileExp(e, chain).Done? {
      GrowsFurther(chain, CompileExp(e, chain).chain);
    }
  }

  lemma {:induction false} BreakBelow(f: Func, n: nat)
    requires BlocksOk(f) && n <= |f.blocks|
    ensures match BreakOut(f.blocks[..n]) case NoLoop => true case Exit(level, _) => level <= |f.actvar|
  {
    if n > 0 {
      assert f.blocks[..n][..n - 1] == f.blocks[..n - 1];
      BreakBelow(f, n - 1);
    }
  }

  /** The statement fits, and the parser goes on at the level behind it. */
  ghost predicate StatFits(r: Compiled<Stmt>, chain: seq<Func>, nups: nat)
    requires chain != [] && (r.Done? ==> r.chain != [])
  {
    r.Done? && Ups(r.chain) <= nups ==>
      Fits(r.code, Active(chain), nups) && After(r.code, Active(chain)) == Active(r.chain)
  }

  lemma {:induction false} CompileBlockFits(s: L.Stat, chain: seq<Func>, nups: nat)
    requires chain != [] && StaticOk(chain)
    ensures StatFits(CompileBlock(s, chain), chain, nups)
    decreases s, 3
  {
    hide StaticOk, Continues, Grows, Fits, CompileStat;
    EnterBlockOk(chain);
    CompileStatFits(s, EnterBlock(chain, false), nups);
    var c := CompileStat(s, EnterBlock(chain, false));
    if c.Done? {
      BlockContinues(chain, false, c.chain);
      BlockFits(c.code, Active(chain), Innermost(c.chain).upval, nups);
    }
  }

  lemma BlockFits(s: Stmt, level: nat, close: bool, nups: nat)
    ensures Fits(Stmt.Block(s, level, close), level, nups) == Fits(s, level, nups)
  {
  }

  /** The level behind a loop whose body has been compiled. */
  lemma LoopLeft(chain: seq<Func>, d: seq<Func>)
    requires chain != [] && d != [] && Continues(EnterLoop(chain), d)
    ensures Top(d).blocks != [] && Innermost(d).nactvar == Active(chain) <= Active(d)
    ensures var left := LeaveBlock(d);
      && Top(left).blocks != [] && Innermost(left).nactvar <= |Top(left).actvar|
      && Active(LeaveBlock(left)) == Active(chain) && Ups(LeaveBlock(left)) == Ups(d)
  {
    hide Continues, Grows;
    GrowsRefl(d);
    RepeatContinues(chain, d, d);
    GrowsFurther(chain, LeaveBlock(LeaveBlock(d)));
  }

  lemma WhileMade(e: L.Exp, a: L.Stat, chain: seq<Func>)
    requires chain != [] && CompileWhile(e, a, chain).Done?
    ensures CompileValue(e, Use.Test, chain).Done?
    ensures var c := CompileValue(e, Use.Test, chain);
      var d := CompileStat(a, EnterLoop(c.chain));
      && d.Done? && Continues(EnterLoop(c.chain), d.chain)
      && Top(d.chain).blocks != [] && Innermost(d.chain).nactvar == Active(c.chain) <= Active(d.chain)
      && var left := LeaveBlock(d.chain);
      && Top(left).blocks != [] && Innermost(left).nactvar <= |Top(left).actvar|
      && CompileWhile(e, a, chain) == Done(
        Stmt.While(c.code, Stmt.Block(d.code, Active(c.chain), Innermost(d.chain).upval)), LeaveBlock(left))
  {
    hide Continues, Grows, CompileStat, CompileExp, Registers;
    var c := CompileValue(e, Use.Test, chain);
    LoopLeft(c.chain, CompileStat(a, EnterLoop(c.chain)).chain);
  }

  lemma {:induction false} CompileWhileFits(e: L.Exp, a: L.Stat, chain: seq<Func>, nups: nat)
    requires chain != [] && StaticOk(chain)
    ensures StatFits(CompileWhile(e, a, chain), chain, nups)
    decreases L.Stat.While(e, a), 0
  {
    hide StaticOk, Continues, Grows, CompileStat, CompileExp, ExpFits, CompileWhile, LeaveBlock, Registers, EnterLoop;
    if CompileWhile(e, a, chain).Done? {
      WhileMade(e, a, chain);
      var c := CompileValue(e, Use.Test, chain);
      CompileExpOk(e, chain);
      CompileValueFits(e, Use.Test, chain, nups);
      GrowsFurther(chain, c.chain);
      EnterLoopOk(c.chain);
      CompileStatFits(a, EnterLoop(c.chain), nups);
      var d := CompileStat(a, EnterLoop(c.chain));
      LoopLeft(c.chain, d.chain);
      LoopEntry(c.chain);
      ContinuesFurther(EnterLoop(c.chain), d.chain);
      var r := CompileWhile(e, a, chain);
      assert Active(r.chain) == Active(chain) && Ups(r.chain) == Ups(d.chain);
      if Ups(r.chain) <= nups {
        assert ValueFits(c.code, Use.Test, Active(chain), nups);
        BlockFits(d.code, Active(chain), Innermost(d.chain).upval, nups);
      }
    }
  }

  lemma LoopEntry(chain: seq<Func>)
    requires chain != []
    ensures Active(EnterLoop(chain)) == Active(chain) && Ups(EnterLoop(chain)) == Ups(chain)
  {
  }

  lemma RepeatMade(a: L.Stat, e: L.Exp, chain: seq<Func>)
    requires chain != [] && CompileRepeat(a, e, chain).Done?
    ensures CompileStat(a, EnterLoop(chain)).Done?
    ensures var c := CompileStat(a, EnterLoop(chain));
      var d := CompileValue(e, Use.Test, c.chain);
      && d.Done? && Grows(c.chain, d.chain)
      && Top(d.chain).blocks != [] && Innermost(d.chain).nactvar == Active(chain) <= Active(d.chain)
      && var left := LeaveBlock(d.chain);
      && Top(left).blocks != [] && Innermost(left).nactvar <= |Top(left).actvar|
      && Active(LeaveBlock(left)) == Active(chain) && Ups(LeaveBlock(left)) == Ups(d.chain)
      && CompileRepeat(a, e, chain) == Done(
        Stmt.Repeat(c.code, d.code, Active(chain), Innermost(d.chain).upval), LeaveBlock(left))
  {
    hide Continues, Grows, CompileStat, CompileExp, Registers;
    var c := CompileStat(a, EnterLoop(chain));
    var d := CompileValue(e, Use.Test, c.chain);
    RepeatContinues(chain, c.chain, d.chain);
    GrowsFurther(chain, LeaveBlock(LeaveBlock(d.chain)));
  }

  lemma {:induction false} CompileRepeatFits(a: L.Stat, e: L.Exp, chain: seq<Func>, nups: nat)
    requires chain != [] && StaticOk(chain)
    ensures StatFits(CompileRepeat(a, e, chain), chain, nups)
    decreases L.Stat.Repeat(a, e), 0
  {
    hide StaticOk, Continues, Grows, CompileStat, CompileValue, ValueFits, CompileRepeat, LeaveBlock, Innermost, EnterLoop;
    if CompileRepeat(a, e, chain).Done? {
      RepeatMade(a, e, chain);
      EnterLoopOk(chain);
      CompileStatFits(a, EnterLoop(chain), nups);
      var c := CompileStat(a, EnterLoop(chain));
      CompileStatOk(a, EnterLoop(chain));
      CompileValueFits(e, Use.Test, c.chain, nups);
      GrowsFurther(c.chain, CompileValue(e, Use.Test, c.chain).chain);
      LoopEntry(chain);
    }
  }

  lemma {:induction false} CompileIfFits(e: L.Exp, a: L.Stat, b: L.Stat, chain: seq<Func>, nups: nat)
    requires chain != [] && StaticOk(chain)
    ensures StatFits(CompileIf(e, a, b, chain), chain, nups)
    decreases L.Stat.If(e, a, b), 0
  {
    hide StaticOk, Grows, CompileBlock, CompileExp, ExpFits;
    var c := CompileValue(e, Use.Test, chain);
    if c.Done? {
      CompileExpOk(e, chain);
      CompileValueFits(e, Use.Test, chain, nups);
      GrowsFurther(chain, c.chain);
      CompileBlockOk(a, c.chain);
      CompileBlockFits(a, c.chain, nups);
      var d := CompileBlock(a, c.chain);
      if d.Done? {
        GrowsFurther(c.chain, d.chain);
        CompileBlockFits(b, d.chain, nups);
        if CompileBlock(b, d.chain).Done? { GrowsFurther(d.chain, CompileBlock(b, d.chain).chain); }
      }
    }
  }

  lemma SeqMade(a: L.Stat, b: L.Stat, chain: seq<Func>)
    requires chain != []
    ensures CompileStat(L.Stat.Seq(a, b), chain) ==
      var c := CompileStat(a, chain);
      if c.Error? then Error
      else
        var d := CompileStat(b, c.chain);
        if d.Error? then Error else Done(Stmt.Seq(c.code, d.code), d.chain)
  {
  }

  lemma {:induction false} CompileSeqFits(a: L.Stat, b: L.Stat, chain: seq<Func>, nups: nat)
    requires chain != [] && StaticOk(chain)
    ensures StatFits(CompileStat(L.Stat.Seq(a, b), chain), chain, nups)
    decreases L.Stat.Seq(a, b), 0
  {
    hide StaticOk, Continues, CompileStat;
    CompileStatOk(a, chain);
    CompileStatFits(a, chain, nups);
    var c := CompileStat(a, chain);
    SeqMade(a, b, chain);
    if c.Done? {
      CompileStatFits(b, c.chain, nups);
      ContinuesFurther(chain, c.chain);
      if CompileStat(b, c.chain).Done? { ContinuesFurther(c.chain, CompileStat(b, c.chain).chain); }
    }
  }

  /** Statements of one expression, with the declaration of the variable if there is one. */
  lemma {:induction false} CompilePlainFits(s: L.Stat, chain: seq<Func>, nups: nat)
    requires chain != [] && StaticOk(chain) && (s.Local? || s.Assign? || s.Eval? || s.Return?)
    ensures StatFits(CompileStat(s, chain), chain, nups)
    decreases s, 0
  {
    hide StaticOk, Continues, Grows, CompileExp, ExpFits, CompileTarget;
    if s.Assign? {
      VarOk(chain, s.x);
      var t := CompileTarget(s.x, chain);
      if t.Done? {
        TargetOk(chain, s.x);
        VarFits(chain, s.x, nups);
        var use := if t.code.ToLocal? then InPlace else AnyReg;
        CompileValueFits(s.e, use, t.chain, nups);
        GrowsFurther(chain, t.chain);
        if CompileExp(s.e, t.chain).Done? { GrowsFurther(t.chain, CompileExp(s.e, t.chain).chain); }
      }
    } else {
      var use := if s.Local? then NextReg else if s.Eval? then InPlace else AnyReg;
      CompileValueFits(s.e, use, chain, nups);
      if CompileExp(s.e, chain).Done? { GrowsFurther(chain, CompileExp(s.e, chain).chain); }
    }
  }

  lemma TargetOk(chain: seq<Func>, x: Name)
    requires chain != [] && StaticOk(chain)
    ensures var t := CompileTarget(x, chain); t.Done? ==> StaticOk(t.chain)
  {
    hide StaticOk;
    VarOk(chain, x);
  }

  /** Whatever the parser accepts fits. */
  lemma {:induction false} CompileStatFits(s: L.Stat, chain: seq<Func>, nups: nat)
    requires chain != [] && StaticOk(chain)
    ensures StatFits(CompileStat(s, chain), chain, nups)
    decreases s, 1
  {
    hide StaticOk, Continues, Grows, CompileBlock, CompileIf, CompileWhile, CompileRepeat, CompileFunction;
    match s {
      case Skip =>
      case Seq(a, b) => CompileSeqFits(a, b, chain, nups);
      case LocalFunction(x, param, body) =>
        if RoomForLocal(chain) {
          NewLocalOk(chain, x);
          FunctionFits(param, body, NewLocal(chain, x), nups);
          var p := CompileFunction(param, body, NewLocal(chain, x));
          if p.Done? { GrowsFurther(NewLocal(chain, x), p.chain); }
        }
      case Do(a) =>
        CompileBlockFits(a, chain, nups);
      case If(e, a, b) => CompileIfFits(e, a, b, chain, nups);
      case While(e, a) => CompileWhileFits(e, a, chain, nups);
      case Repeat(a, e) => CompileRepeatFits(a, e, chain, nups);
      case Break => BreakFits(chain);
      case _ => CompilePlainFits(s, chain, nups);
    }
  }

  lemma BreakFits(chain: seq<Func>)
    requires chain != [] && StaticOk(chain)
    ensures match BreakOut(Top(chain).blocks) case NoLoop => true case Exit(level, _) => level <= Active(chain)
  {
    var f := Top(chain);
    assert FuncOk(f);
    assert f.blocks[..|f.blocks|] == f.blocks;
    BreakBelow(f, |f.blocks|);
  }

  /** A program that is accepted fits in every instruction; the main function has no upvalues. */
  lemma AcceptedFits(s: L.Stat, calls: nat)
    requires CompileProgram(s, calls).Done?
    ensures Fits(CompileProgram(s, calls).code, 0, 0)
  {
    StartOk();
    CompileStatFits(s, START, 0);
    CompileStatOk(s, START);
    NoUpvalues(CompileProgram(s, calls).chain);
  }

  /** There is nothing around the main function to capture. */
  lemma NoUpvalues(chain: seq<Func>)
    requires |chain| == 1 && StaticOk(chain)
    ensures Ups(chain) == 0
  {
    FirstOf(chain[0].upvalues);
    assert FuncLinked(chain, 0);
  }

  lemma FirstOf(q: seq<UpvalDesc>)
    ensures q == [] || exists u :: u in q
  {
    assert q == [] || q[0] in q;
  }
}
