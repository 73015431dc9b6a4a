/**
What the parser makes of functions and blocks: blocks that close their captured
variables, `break` out of them, and closures that carry their upvalues.
*/
module ScopeCode {
  import opened Scopes
  import L = ScopeLang

  /** Expressions with their names resolved. */
  datatype Code =
    | Nil
    | Num(n: int)
    | GetLocal(slot: nat)
    | GetUpval(index: nat)
    | GetGlobal(x: Name)
    | Add(l: Code, r: Code)
    | Closure(p: Proto)
    | Call(f: Code, a: Code)

  /** A function: one descriptor for each upvalue, and its code. */
  datatype Proto = Proto(captures: seq<UpvalDesc>, body: Stmt)

  datatype Target = ToLocal(slot: nat) | ToUpval(index: nat) | ToGlobal(x: Name)

  /** Statements. `close` stands for an OP_CLOSE of the registers from `level` on. */
  datatype Stmt =
    | Skip
    | Seq(s: Stmt, t: Stmt)
    | Push(e: Code)
    | PushFunction(p: Proto)
    | Store(target: Target, e: Code)
    | Eval(e: Code)
    | Block(s: Stmt, level: nat, close: bool)
    | If(e: Code, s: Stmt, t: Stmt)
    | While(e: Code, s: Stmt)
    | Repeat(s: Stmt, e: Code, level: nat, close: bool)
    | Break(level: nat, close: bool)
    | Return(e: Code)

  /** What the parser leaves: code, and the functions being compiled. */
  datatype Compiled<T> = Done(code: T, chain: seq<Func>) | Error

  // ------------------------------------------------------- limits on the way

  /** A function has fewer registers than this, its variables and temporaries together. */
  const MAXSTACK: nat := 250

  /** Nested calls of the parser, those of its callers included. */
  const LUAI_MAXCCALLS: nat := 200

  function Max(a: nat, b: nat): nat {
    if a < b then b else a
  }

  /** The parser computes sums of numbers itself. */
  predicate IsNumeral(e: Code) {
    match e
    case Num(_) => true
    case Add(l, r) => IsNumeral(l) && IsNumeral(r)
    case _ => false
  }

  /** `luaK_exp2RK`, or a jump on `e`: constants and local variables need no register, all else needs one. */
  function OperandRegister(e: Code): nat {
    if IsNumeral(e) || e.Nil? || e.GetLocal? then 0 else 1
  }

  /** The most temporaries in use at once while `e` is parsed. */
  function Temporaries(e: Code): nat {
    match e
    case Add(l, r) =>
      var x := OperandRegister(l);
      Max(Max(Temporaries(l), x), x + Max(Temporaries(r), OperandRegister(r)))
    case Call(f, a) => Max(Temporaries(f), 1 + Max(Temporaries(a), 1))
    case _ => 0
  }

  /** Where the value of an expression goes: to a new register, to some register, into a test, or nowhere new. */
  datatype Use = NextReg | AnyReg | Test | InPlace

  function Registers(e: Code, use: Use): nat {
    Max(Temporaries(e),
        match use
        case NextReg => 1
        case AnyReg => if e.GetLocal? then 0 else 1
        case Test => OperandRegister(e)
        case InPlace => 0)
  }

  /** The levels below one `subexpr`: right operands, arguments and what stands in parentheses are one more each. */
  function ExpLevels(e: L.Exp): nat {
    match e
    case Nil => 0
    case Num(_) => 0
    case Var(_) => 0
    case Add(l, r) => Max(ExpLevels(l), (if r.Add? then 2 else 1) + ExpLevels(r))
    case Function(_, body) => 1 + Levels(body)
    case Call(f, a) => Max((if f.Var? || f.Call? then 0 else 1) + ExpLevels(f), 1 + ExpLevels(a))
  }

  /** The levels below one `chunk`. */
  function Levels(s: L.Stat): nat {
    match s
    case Skip => 0
    case Seq(a, b) => Max(Levels(a), Levels(b))
    case Local(_, e) => 1 + ExpLevels(e)
    case LocalFunction(_, _, body) => 1 + Levels(body)
    case Assign(_, e) => 1 + ExpLevels(e)
    case Eval(e) => ExpLevels(e)
    case Do(a) => 1 + Levels(a)
    case If(e, a, b) => 1 + Max(ExpLevels(e), Max(Levels(a), Levels(b)))
    case While(e, a) => 1 + Max(ExpLevels(e), Levels(a))
    case Repeat(a, e) => 1 + Max(Levels(a), ExpLevels(e))
    case Break => 0
    case Return(e) => 1 + ExpLevels(e)
  }

  // ---------------------------------------------------- the function on top

  function Top(chain: seq<Func>): Func
    requires chain != []
  {
    chain[|chain| - 1]
  }

  function SetTop(chain: seq<Func>, f: Func): seq<Func>
    requires chain != []
  {
    chain[|chain| - 1 := f]
  }

  /** `new_localvar` and `adjustlocalvars`, within the limit. */
  function NewLocal(chain: seq<Func>, x: Name): seq<Func>
    requires chain != []
  {
    var f := Top(chain);
    SetTop(chain, f.(actvar := f.actvar + [x]))
  }

  predicate RoomForLocal(chain: seq<Func>)
    requires chain != []
  {
    |Top(chain).actvar| + 1 <= MAX_VARS
  }

  /** `enterblock`. */
  function EnterBlock(chain: seq<Func>, isBreakable: bool): seq<Func>
    requires chain != []
  {
    var f := Top(chain);
    SetTop(chain, f.(blocks := f.blocks + [Scopes.Block(|f.actvar|, false, isBreakable)]))
  }

  /** `leaveblock`, without the instruction it emits. */
  function LeaveBlock(chain: seq<Func>): seq<Func>
    requires chain != [] && Top(chain).blocks != [] && Innermost(chain).nactvar <= |Top(chain).actvar|
  {
    var f := Top(chain);
    SetTop(chain, f.(blocks := f.blocks[..|f.blocks| - 1], actvar := f.actvar[..Innermost(chain).nactvar]))
  }

  /** The block that is about to be left. */
  function Innermost(chain: seq<Func>): Scopes.Block
    requires chain != [] && Top(chain).blocks != []
  {
    Top(chain).blocks[|Top(chain).blocks| - 1]
  }

  /** `open_func` with the parameter list read. */
  function OpenFunc(chain: seq<Func>, param: Name): seq<Func> {
    chain + [Func([param], [], [], [])]
  }

  /** `breakstat`: the innermost loop, and whether a block on the way out has captured variables. */
  datatype Exit = NoLoop | Exit(level: nat, close: bool)

  function BreakOut(blocks: seq<Scopes.Block>): Exit {
    if blocks == [] then NoLoop
    else
      var bl := blocks[|blocks| - 1];
      if bl.isBreakable then Exit(bl.nactvar, false)
      else
        match BreakOut(blocks[..|blocks| - 1])
        case NoLoop => NoLoop
        case Exit(level, close) => Exit(level, close || bl.upval)
  }

  // ------------------------------------------------------------- progress

  /** `g` is `f` further on: the blocks open before are open, and what was declared is declared. */
  ghost predicate FuncContinues(f: Func, g: Func) {
    f.actvar <= g.actvar && f.upvalues <= g.upvalues && f.names <= g.names && BlocksGrow(f.blocks, g.blocks)
  }

  /** The functions around the last one only grow meanwhile. */
  ghost predicate Continues(a: seq<Func>, b: seq<Func>) {
    && |a| == |b| && a != []
    && (forall d :: 0 <= d < |a| - 1 ==> FuncGrows(a[d], b[d]))
    && FuncContinues(Top(a), Top(b))
  }

  lemma {:induction false} SingleVarAuxGrows(chain: seq<Func>, n: Name, base: bool)
    ensures Grows(chain, SingleVarAux(chain, n, base).chain)
  {
    if chain != [] {
      var top := |chain| - 1;
      var f := chain[top];
      if SearchVar(f.actvar, n) >= 0 {
        MarkUpvalMarks(f.blocks, SearchVar(f.actvar, n));
      } else {
        SingleVarAuxGrows(chain[..top], n, false);
        var r := SingleVarAux(chain, n, base);
        assert FuncGrows(f, r.chain[top]);
        forall d | 0 <= d < |chain| ensures FuncGrows(chain[d], r.chain[d]) {
          if d < top {
            assert chain[d] == chain[..top][d];
            assert r.chain[d] == SingleVarAux(chain[..top], n, false).chain[d];
          }
        }
      }
    }
  }

  lemma GrowsContinues(a: seq<Func>, b: seq<Func>)
    requires Grows(a, b) && a != []
    ensures Continues(a, b)
  {
    assert FuncGrows(Top(a), Top(b));
  }

  lemma ContinuesTrans(a: seq<Func>, b: seq<Func>, c: seq<Func>)
    requires Continues(a, b) && Continues(b, c)
    ensures Continues(a, c)
  {
    forall d | 0 <= d < |a| - 1 ensures FuncGrows(a[d], c[d]) {
      FuncGrowsTrans(a[d], b[d], c[d]);
    }
  }

  lemma NewLocalContinues(a: seq<Func>, x: Name)
    requires a != []
    ensures Continues(a, NewLocal(a, x))
  {
  }

  /** The functions around an inner one that has been compiled. */
  lemma OuterContinues(a: seq<Func>, param: Name, b: seq<Func>)
    requires a != [] && Continues(OpenFunc(a, param), b)
    ensures Grows(a, b[..|b| - 1])
  {
    forall d | 0 <= d < |a| ensures FuncGrows(a[d], b[d]) {
      assert FuncGrows(OpenFunc(a, param)[d], b[d]);
    }
  }

  /** A block that has been entered is still the innermost one, and its variables are the last declared. */
  lemma BlockContinues(a: seq<Func>, isBreakable: bool, b: seq<Func>)
    requires a != [] && Continues(EnterBlock(a, isBreakable), b)
    ensures Top(b).blocks != [] && Innermost(b).nactvar == |Top(a).actvar| <= |Top(b).actvar|
    ensures Innermost(b).isBreakable == isBreakable
    ensures Grows(a, LeaveBlock(b))
  {
    var e := EnterBlock(a, isBreakable);
    var last := |Top(a).blocks|;
    assert Top(e).blocks[last].nactvar == |Top(a).actvar|;
    assert FuncGrows(Top(a), Top(LeaveBlock(b)));
    forall d | 0 <= d < |a| ensures FuncGrows(a[d], LeaveBlock(b)[d]) {
      if d < |a| - 1 {
        assert FuncGrows(e[d], b[d]);
      }
    }
  }

  // ------------------------------------------------------------- the parser

  function CompileVar(x: Name, chain: seq<Func>): (r: Compiled<Code>)
    requires chain != []
    ensures r.Done? ==> |r.chain| == |chain| && Grows(chain, r.chain)
  {
    SingleVarAuxGrows(chain, x, true);
    var r := SingleVarAux(chain, x, true);
    match r.found
    case Global => Done(GetGlobal(x), r.chain)
    case Local(i) => Done(GetLocal(i), r.chain)
    case Upvalue(k) => Done(GetUpval(k), r.chain)
    case TooManyUpvalues => Error
  }

  function CompileTarget(x: Name, chain: seq<Func>): (r: Compiled<Target>)
    requires chain != []
    ensures r.Done? ==> |r.chain| == |chain| && Grows(chain, r.chain)
  {
    SingleVarAuxGrows(chain, x, true);
    var r := SingleVarAux(chain, x, true);
    match r.found
    case Global => Done(ToGlobal(x), r.chain)
    case Local(i) => Done(ToLocal(i), r.chain)
    case Upvalue(k) => Done(ToUpval(k), r.chain)
    case TooManyUpvalues => Error
  }

  /** `body`, up to `close_func`: the new function is still the last of the chain. */
  function CompileBody(param: Name, body: L.Stat, chain: seq<Func>): (r: Compiled<Stmt>)
    requires chain != []
    ensures r.Done? ==> |r.chain| == |chain| + 1 && Continues(OpenFunc(chain, param), r.chain)
    decreases body, 2
  {
    CompileStat(body, OpenFunc(chain, param))
  }

  /** `body`: also `close_func` and `pushclosure`. */
  function CompileFunction(param: Name, body: L.Stat, chain: seq<Func>): (r: Compiled<Proto>)
    requires chain != []
    ensures r.Done? ==> |r.chain| == |chain| && Grows(chain, r.chain)
    decreases body, 3
  {
    var c := CompileBody(param, body, chain);
    if c.Error? then Error
    else
      OuterContinues(chain, param, c.chain);
      Done(Proto(Top(c.chain).upvalues, c.code), c.chain[..|chain|])
  }

  function CompileExp(e: L.Exp, chain: seq<Func>): (r: Compiled<Code>)
    requires chain != []
    ensures r.Done? ==> |r.chain| == |chain| && Grows(chain, r.chain)
    decreases e, 0
  {
    match e
    case Nil => GrowsRefl(chain); Done(Nil, chain)
    case Num(n) => GrowsRefl(chain); Done(Num(n), chain)
    case Var(x) => CompileVar(x, chain)
    case Add(l, r) =>
      var a := CompileExp(l, chain);
      if a.Error? then Error
      else
        var b := CompileExp(r, a.chain);
        if b.Error? then Error
        else
          GrowsTrans(chain, a.chain, b.chain);
          Done(Add(a.code, b.code), b.chain)
    case Function(param, body) =>
      var p := CompileFunction(param, body, chain);
      if p.Error? then Error else Done(Closure(p.code), p.chain)
    case Call(f, arg) =>
      var a := CompileExp(f, chain);
      if a.Error? then Error
      else
        var b := CompileExp(arg, a.chain);
        if b.Error? then Error
        else
          GrowsTrans(chain, a.chain, b.chain);
          Done(Call(a.code, b.code), b.chain)
  }

  /** An expression of a statement: it is refused if it needs more registers than there are. */
  function CompileValue(e: L.Exp, use: Use, chain: seq<Func>): (r: Compiled<Code>)
    requires chain != []
    ensures r.Done? ==> r == CompileExp(e, chain) && |r.chain| == |chain| && Grows(chain, r.chain)
    decreases e, 1
  {
    var c := CompileExp(e, chain);
    if c.Done? && |Top(c.chain).actvar| + Registers(c.code, use) >= MAXSTACK then Error else c
  }

  /** `block`. */
  function CompileBlock(s: L.Stat, chain: seq<Func>): (r: Compiled<Stmt>)
    requires chain != []
    ensures r.Done? ==> |r.chain| == |chain| && Grows(chain, r.chain)
    decreases s, 2
  {
    var c := CompileStat(s, EnterBlock(chain, false));
    if c.Error? then Error
    else
      BlockContinues(chain, false, c.chain);
      var bl := Innermost(c.chain);
      Done(Stmt.Block(c.code, bl.nactvar, bl.upval), LeaveBlock(c.chain))
  }

  /** `whilestat`. */
  function CompileWhile(e: L.Exp, a: L.Stat, chain: seq<Func>): (r: Compiled<Stmt>)
    requires chain != []
    ensures r.Done? ==> |r.chain| == |chain| && Grows(chain, r.chain)
    decreases L.Stat.While(e, a), 0
  {
    var c := CompileValue(e, Test, chain);
    if c.Error? then Error
    else
      var d := CompileBlock(a, EnterBlock(c.chain, true));
      if d.Error? then Error
      else
        GrowsContinues(EnterBlock(c.chain, true), d.chain);
        BlockContinues(c.chain, true, d.chain);
        GrowsTrans(chain, c.chain, LeaveBlock(d.chain));
        Done(Stmt.While(c.code, d.code), LeaveBlock(d.chain))
  }

  /** `repeatstat`: the condition still sees the variables of the block. */
  function CompileRepeat(a: L.Stat, e: L.Exp, chain: seq<Func>): (r: Compiled<Stmt>)
    requires chain != []
    ensures r.Done? ==> |r.chain| == |chain| && Grows(chain, r.chain)
    decreases L.Stat.Repeat(a, e), 0
  {
    var loop := EnterBlock(chain, true);
    var c := CompileStat(a, EnterBlock(loop, false));
    if c.Error? then Error
    else
      var d := CompileValue(e, Test, c.chain);
      if d.Error? then Error
      else
        RepeatContinues(chain, c.chain, d.chain);
        var bl := Innermost(d.chain);
        Done(Stmt.Repeat(c.code, d.code, bl.nactvar, bl.upval), LeaveBlock(LeaveBlock(d.chain)))
  }

  lemma RepeatContinues(chain: seq<Func>, c: seq<Func>, d: seq<Func>)
    requires chain != [] && c != [] && Continues(EnterBlock(EnterBlock(chain, true), false), c) && Grows(c, d)
    ensures Top(d).blocks != [] && Innermost(d).nactvar == |Top(chain).actvar| <= |Top(d).actvar|
    ensures var inner := LeaveBlock(d);
      Top(inner).blocks != [] && Innermost(inner).nactvar <= |Top(inner).actvar| && Grows(chain, LeaveBlock(inner))
  {
    hide Grows, Continues;
    var loop := EnterBlock(chain, true);
    GrowsContinues(c, d);
    ContinuesTrans(EnterBlock(loop, false), c, d);
    BlockContinues(loop, false, d);
    GrowsContinues(loop, LeaveBlock(d));
    BlockContinues(chain, true, LeaveBlock(d));
  }

  function CompileLocal(x: Name, e: L.Exp, chain: seq<Func>): (r: Compiled<Stmt>)
    requires chain != []
    ensures r.Done? ==> |r.chain| == |chain| && Continues(chain, r.chain)
    decreases L.Stat.Local(x, e), 0
  {
    if !RoomForLocal(chain) then Error
    else
      var c := CompileValue(e, NextReg, chain);
      if c.Error? then Error
      else
        GrowsContinues(chain, c.chain);
        NewLocalContinues(c.chain, x);
        ContinuesTrans(chain, c.chain, NewLocal(c.chain, x));
        Done(Push(c.code), NewLocal(c.chain, x))
  }

  /** `localfunc`: the name is in scope in the function itself. */
  function CompileLocalFunction(x: Name, param: Name, body: L.Stat, chain: seq<Func>): (r: Compiled<Stmt>)
    requires chain != []
    ensures r.Done? ==> |r.chain| == |chain| && Continues(chain, r.chain)
    decreases L.Stat.LocalFunction(x, param, body), 0
  {
    if !RoomForLocal(chain) then Error
    else
      NewLocalContinues(chain, x);
      var p := CompileFunction(param, body, NewLocal(chain, x));
      if p.Error? then Error
      else
        GrowsContinues(NewLocal(chain, x), p.chain);
        ContinuesTrans(chain, NewLocal(chain, x), p.chain);
        Done(PushFunction(p.code), p.chain)
  }

  function CompileAssign(x: Name, e: L.Exp, chain: seq<Func>): (r: Compiled<Stmt>)
    requires chain != []
    ensures r.Done? ==> |r.chain| == |chain| && Grows(chain, r.chain)
    decreases L.Stat.Assign(x, e), 0
  {
    var t := CompileTarget(x, chain);
    if t.Error? then Error
    else
      var c := CompileValue(e, if t.code.ToLocal? then InPlace else AnyReg, t.chain);
      if c.Error? then Error
      else
        GrowsTrans(chain, t.chain, c.chain);
        Done(Store(t.code, c.code), c.chain)
  }

  function CompileIf(e: L.Exp, a: L.Stat, b: L.Stat, chain: seq<Func>): (r: Compiled<Stmt>)
    requires chain != []
    ensures r.Done? ==> |r.chain| == |chain| && Grows(chain, r.chain)
    decreases L.Stat.If(e, a, b), 0
  {
    var c := CompileValue(e, Test, chain);
    if c.Error? then Error
    else
      var d := CompileBlock(a, c.chain);
      if d.Error? then Error
      else
        var f := CompileBlock(b, d.chain);
        if f.Error? then Error
        else
          GrowsTrans(chain, c.chain, d.chain);
          GrowsTrans(chain, d.chain, f.chain);
          Done(If(c.code, d.code, f.code), f.chain)
  }

  /** A statement whose code is made of one expression or block. */
  function Made<T>(c: Compiled<T>, make: T -> Stmt): Compiled<Stmt> {
    match c
    case Error => Error
    case Done(code, chain) => Done(make(code), chain)
  }

  lemma StillContinues(a: seq<Func>, r: Compiled<Stmt>)
    requires a != [] && (r.Done? ==> Grows(a, r.chain))
    ensures r.Done? ==> Continues(a, r.chain)
  {
    if r.Done? {
      GrowsContinues(a, r.chain);
    }
  }

  function CompileStat(s: L.Stat, chain: seq<Func>): (r: Compiled<Stmt>)
    requires chain != []
    ensures r.Done? ==> |r.chain| == |chain| && Continues(chain, r.chain)
    decreases s, 1
  {
    match s
    case Skip => GrowsRefl(chain); GrowsContinues(chain, chain); Done(Skip, chain)
    case Seq(a, b) =>
      var c := CompileStat(a, chain);
      if c.Error? then Error
      else
        var d := CompileStat(b, c.chain);
        if d.Error? then Error
        else
          ContinuesTrans(chain, c.chain, d.chain);
          Done(Seq(c.code, d.code), d.chain)
    case Local(x, e) => CompileLocal(x, e, chain)
    case LocalFunction(x, param, body) => CompileLocalFunction(x, param, body, chain)
    case Assign(x, e) =>
      var r := CompileAssign(x, e, chain);
      StillContinues(chain, r);
      r
    case Eval(e) =>
      var r := Made(CompileValue(e, InPlace, chain), c => Stmt.Eval(c));
      StillContinues(chain, r);
      r
    case Do(a) =>
      var r := CompileBlock(a, chain);
      StillContinues(chain, r);
      r
    case If(e, a, b) =>
      var r := CompileIf(e, a, b, chain);
      StillContinues(chain, r);
      r
    case While(e, a) =>
      var r := CompileWhile(e, a, chain);
      StillContinues(chain, r);
      r
    case Repeat(a, e) =>
      var r := CompileRepeat(a, e, chain);
      StillContinues(chain, r);
      r
    case Break =>
      GrowsRefl(chain);
      GrowsContinues(chain, chain);
      (match BreakOut(Top(chain).blocks)
       case NoLoop => Error
       case Exit(level, close) => Done(Break(level, close), chain))
    case Return(e) =>
      var r := Made(CompileValue(e, AnyReg, chain), c => Stmt.Return(c));
      StillContinues(chain, r);
      r
  }

  /** The main function, while nothing of it has been compiled. */
  const START: seq<Func> := [Func([], [], [], [])]

  /** `luaY_parser`, called with `calls` nested calls in progress. */
  function CompileProgram(s: L.Stat, calls: nat): Compiled<Stmt> {
    if calls + 1 + Levels(s) > LUAI_MAXCCALLS then Error else CompileStat(s, START)
  }
}
