/**
The parser's recursive descent over expressions, blocks and statements, which
changes the linked function records as it goes. `level` counts the nested calls
in progress, which `enterlevel` limits.
*/
module ScopeParser {
  import opened Scopes
  import opened ScopeCode
  import opened ScopeStatic
  import opened FuncStates
  import L = ScopeLang

  datatype Parsed<T> = Ok(code: T) | Fails

  /** The parse ended as compilation does, and left the records as compilation leaves the chain. */
  ghost predicate Agrees<T>(r: Parsed<T>, c: Compiled<T>, chain: seq<Func>) {
    match c
    case Error => r.Fails?
    case Done(code, chain2) => r == Ok(code) && chain == chain2
  }

  /** The parse failed for want of levels, or agrees. */
  ghost predicate AgreesWithin<T>(r: Parsed<T>, levels: nat, c: Compiled<T>, chain: seq<Func>) {
    if levels <= LUAI_MAXCCALLS then Agrees(r, c, chain) else r.Fails?
  }

  /** The records are those of functions that have been parsed in order. */
  ghost predicate InOrder(fs: FuncState)
    reads fs.Repr
  {
    fs.Valid() && StaticOk(fs.View())
  }

  lemma OrderValid(fs: FuncState)
    requires InOrder(fs)
    ensures fs.Valid()
  {
  }

  /** A parse in two parts, compiled in two parts: `y` is what the second part compiles to if the first is done. */
  lemma Composed<T, U>(
      level: nat, c: Parsed<T>, n: nat, x: Compiled<T>, chain: seq<Func>,
      r: Parsed<U>, m: nat, y: Compiled<U>, z: Compiled<U>, chain2: seq<Func>)
    requires AgreesWithin(c, level + n, x, chain)
    requires if c.Ok? then AgreesWithin(r, level + m, y, chain2) else r.Fails?
    requires x.Error? ==> z.Error?
    requires c.Ok? && x == Done(c.code, chain) ==> z == y
    ensures AgreesWithin(r, level + Max(n, m), z, chain2)
  {
  }

  /** `singlevar`, for a value. */
  method Variable(fs: FuncState, x: Name) returns (r: Parsed<Code>)
    requires InOrder(fs)
    modifies fs.Repr
    ensures fs.Valid() && Agrees(r, CompileVar(x, old(fs.View())), fs.View())
  {
    var found := FuncStates.SingleVarAux(fs, x, true);
    match found {
      case Global => r := Ok(GetGlobal(x));
      case Local(i) => r := Ok(GetLocal(i));
      case Upvalue(k) => r := Ok(GetUpval(k));
      case TooManyUpvalues => r := Fails;
    }
  }

  /** `singlevar`, for an assignment. */
  method Assigned(fs: FuncState, x: Name) returns (r: Parsed<Target>)
    requires InOrder(fs)
    modifies fs.Repr
    ensures fs.Valid() && Agrees(r, CompileTarget(x, old(fs.View())), fs.View())
  {
    var found := FuncStates.SingleVarAux(fs, x, true);
    match found {
      case Global => r := Ok(ToGlobal(x));
      case Local(i) => r := Ok(ToLocal(i));
      case Upvalue(k) => r := Ok(ToUpval(k));
      case TooManyUpvalues => r := Fails;
    }
  }

  /** `body`: a new function inside of `fs`, whose upvalues `pushclosure` codes. */
  method Body(fs: FuncState, level: nat, param: Name, body: L.Stat) returns (r: Parsed<Proto>)
    requires InOrder(fs)
    modifies fs.Repr
    ensures fs.Valid()
    ensures AgreesWithin(r, level + 1 + Levels(body), CompileFunction(param, body, old(fs.View())), fs.View())
    decreases body, 4
  {
    hide Chain, FuncState.Valid, FuncState.View, StaticOk, Continues, Grows, CompileStat, CompileFunction, Levels;
    ghost var chain := fs.View();
    OpenFuncOk(chain, param);
    ChainOf(fs);
    var inner := new FuncState(fs, [param]);
    var s := Chunk(inner, level, body);
    BodyDone(chain, param, body);
    if s.Fails? {
      return Fails;
    }
    ChainOf(fs);
    assert inner.View() == fs.View() + [inner.Self()];
    assert inner.View()[..|chain|] == fs.View();
    return Ok(Proto(inner.upvalues, s.code));
  }

  lemma BodyDone(chain: seq<Func>, param: Name, body: L.Stat)
    requires chain != []
    ensures CompileFunction(param, body, chain) ==
      match CompileStat(body, OpenFunc(chain, param))
      case Error => Error
      case Done(code, c) => Done(Proto(Top(c).upvalues, code), c[..|chain|])
  {
  }

  /** What stands between `enterlevel` and `leavelevel` in `subexpr`. */
  method Expression(fs: FuncState, level: nat, e: L.Exp) returns (r: Parsed<Code>)
    requires InOrder(fs) && level <= LUAI_MAXCCALLS
    modifies fs.Repr
    ensures fs.Valid() && AgreesWithin(r, level + ExpLevels(e), CompileExp(e, old(fs.View())), fs.View())
    decreases e, 1
  {
    hide Chain, FuncState.Valid, FuncState.View, StaticOk, Grows, CompileVar, CompileFunction;
    match e {
      case Nil => r := Ok(Code.Nil);
      case Num(n) => r := Ok(Code.Num(n));
      case Var(x) => r := Variable(fs, x);
      case Add(a, b) =>
        var x, y := Operands(fs, level, e, 0, a, if b.Add? then 2 else 1, b);
        r := if x.Ok? && y.Ok? then Ok(Code.Add(x.code, y.code)) else Fails;
      case Function(param, body) =>
        var p := Body(fs, level, param, body);
        r := if p.Ok? then Ok(Closure(p.code)) else Fails;
      case Call(f, a) =>
        var x, y := Operands(fs, level, e, if f.Var? || f.Call? then 0 else 1, f, 1, a);
        r := if x.Ok? && y.Ok? then Ok(Code.Call(x.code, y.code)) else Fails;
    }
  }

  /** An expression `n` levels further down: in parentheses, as an argument or as a right operand. */
  method SubExpr(fs: FuncState, level: nat, n: nat, e: L.Exp) returns (r: Parsed<Code>)
    requires InOrder(fs)
    modifies fs.Repr
    ensures fs.Valid() && AgreesWithin(r, level + n + ExpLevels(e), CompileExp(e, old(fs.View())), fs.View())
    decreases e, 2
  {
    hide Chain, FuncState.Valid, FuncState.View, StaticOk, Grows, CompileExp, ExpLevels;
    if level + n > LUAI_MAXCCALLS {
      return Fails;
    }
    r := Expression(fs, level + n, e);
  }

  /** Two expressions, one after the other. */
  method Operands(fs: FuncState, level: nat, ghost e: L.Exp, n: nat, a: L.Exp, m: nat, b: L.Exp)
    returns (x: Parsed<Code>, y: Parsed<Code>)
    requires InOrder(fs) && a < e && b < e
    modifies fs.Repr
    ensures fs.Valid()
    ensures var c := CompileExp(a, old(fs.View()));
      if level + n + ExpLevels(a) > LUAI_MAXCCALLS || c.Error? then x.Fails?
      else x == Ok(c.code) && AgreesWithin(y, level + m + ExpLevels(b), CompileExp(b, c.chain), fs.View())
    decreases e, 0
  {
    hide Chain, FuncState.Valid, FuncState.View, StaticOk, Grows, CompileExp, ExpLevels;
    ghost var chain := fs.View();
    y := Fails;
    x := SubExpr(fs, level, n, a);
    if x.Ok? {
      CompileExpOk(a, chain);
      y := SubExpr(fs, level, m, b);
    }
  }

  /** An expression of a statement, which must find the registers it needs. */
  method Value(fs: FuncState, level: nat, n: nat, e: L.Exp, use: Use) returns (r: Parsed<Code>)
    requires InOrder(fs)
    modifies fs.Repr
    ensures fs.Valid() && AgreesWithin(r, level + n + ExpLevels(e), CompileValue(e, use, old(fs.View())), fs.View())
    ensures r.Ok? ==> InOrder(fs)
    decreases e, 3
  {
    hide Chain, FuncState.Valid, FuncState.View, StaticOk, Grows, CompileExp, ExpLevels, Registers;
    CompileExpOk(e, fs.View());
    r := SubExpr(fs, level, n, e);
    if r.Ok? && |fs.actvar| + Registers(r.code, use) >= MAXSTACK {
      return Fails;
    }
  }

  /** `chunk`. */
  method Chunk(fs: FuncState, level: nat, s: L.Stat) returns (r: Parsed<Stmt>)
    requires InOrder(fs)
    modifies fs.Repr
    ensures fs.Valid() && AgreesWithin(r, level + 1 + Levels(s), CompileStat(s, old(fs.View())), fs.View())
    decreases s, 3
  {
    hide Chain, FuncState.Valid, FuncState.View, StaticOk, Continues, CompileStat, Levels;
    if level + 1 > LUAI_MAXCCALLS {
      return Fails;
    }
    r := Statement(fs, level + 1, s);
  }

  /** `block`. */
  method BlockStatement(fs: FuncState, level: nat, s: L.Stat) returns (r: Parsed<Stmt>)
    requires fs.Valid() && StaticOk(EnterBlock(fs.View(), false))
    modifies fs.Repr
    ensures fs.Valid() && AgreesWithin(r, level + 1 + Levels(s), CompileBlock(s, old(fs.View())), fs.View())
    decreases s, 4
  {
    hide Chain, FuncState.Valid, FuncState.View, StaticOk, Continues, Grows, CompileStat, LeaveBlock, CompileBlock,
      Levels;
    ghost var chain := fs.View();
    ValidSelf(fs);
    fs.EnterBlock(false);
    var c := Chunk(fs, level, s);
    BlockDone(s, chain);
    if c.Fails? {
      return Fails;
    }
    var first := fs.bl[|fs.bl| - 1].nactvar;
    var close := fs.LeaveBlock();
    return Ok(Stmt.Block(c.code, first, close));
  }

  lemma BlockDone(s: L.Stat, chain: seq<Func>)
    requires chain != []
    ensures var c := CompileStat(s, EnterBlock(chain, false));
      if c.Error? then CompileBlock(s, chain).Error?
      else
        && c.chain != [] && Top(c.chain).blocks != [] && Innermost(c.chain).nactvar <= |Top(c.chain).actvar|
        && CompileBlock(s, chain) == Done(Stmt.Block(c.code, Innermost(c.chain).nactvar, Innermost(c.chain).upval),
            LeaveBlock(c.chain))
  {
    var c := CompileStat(s, EnterBlock(chain, false));
    if c.Done? {
      BlockContinues(chain, false, c.chain);
    }
  }

  /** `localstat`, for one variable. */
  method LocalStatement(fs: FuncState, level: nat, x: Name, e: L.Exp) returns (r: Parsed<Stmt>)
    requires InOrder(fs)
    modifies fs.Repr
    ensures fs.Valid() && AgreesWithin(r, level + 1 + ExpLevels(e), CompileLocal(x, e, old(fs.View())), fs.View())
    decreases e, 4
  {
    hide Chain, FuncState.Valid, FuncState.View, StaticOk, Continues, Grows, CompileValue, NewLocal, ExpLevels;
    ghost var chain := fs.View();
    ValidSelf(fs);
    if |fs.actvar| + 1 > MAX_VARS {
      return Fails;
    }
    var c := Value(fs, level, 1, e, NextReg);
    if c.Fails? {
      return Fails;
    }
    SameRoom(chain, fs.View());
    var ok := fs.NewLocal(x);
    return Ok(Push(c.code));
  }

  lemma SameRoom(chain: seq<Func>, chain2: seq<Func>)
    requires chain != [] && Grows(chain, chain2)
    ensures chain2 != [] && RoomForLocal(chain2) == RoomForLocal(chain)
  {
    assert FuncGrows(Top(chain), Top(chain2));
  }

  /** `localfunc`. */
  method LocalFunctionStatement(fs: FuncState, level: nat, x: Name, param: Name, body: L.Stat) returns (r: Parsed<Stmt>)
    requires InOrder(fs)
    modifies fs.Repr
    ensures fs.Valid()
    ensures AgreesWithin(r, level + 1 + Levels(body), CompileLocalFunction(x, param, body, old(fs.View())), fs.View())
    decreases body, 5
  {
    hide Chain, FuncState.Valid, FuncState.View, StaticOk, Continues, Grows, CompileFunction, NewLocal, Levels;
    ghost var chain := fs.View();
    ValidSelf(fs);
    var ok := fs.NewLocal(x);
    if !ok {
      return Fails;
    }
    NewLocalOk(chain, x);
    var p := Body(fs, level, param, body);
    return if p.Ok? then Ok(PushFunction(p.code)) else Fails;
  }

  /** `assignment`, to one variable. */
  method AssignStatement(fs: FuncState, level: nat, x: Name, e: L.Exp) returns (r: Parsed<Stmt>)
    requires InOrder(fs)
    modifies fs.Repr
    ensures fs.Valid() && AgreesWithin(r, level + 1 + ExpLevels(e), CompileAssign(x, e, old(fs.View())), fs.View())
    decreases e, 4
  {
    hide Chain, FuncState.Valid, FuncState.View, StaticOk, Grows, CompileTarget, CompileValue, CompileAssign, ExpLevels;
    ghost var chain := fs.View();
    AssignIs(x, e, chain);
    var t := Assigned(fs, x);
    if t.Fails? {
      return Fails;
    }
    TargetOk(chain, x);
    var c := Value(fs, level, 1, e, if t.code.ToLocal? then InPlace else AnyReg);
    return if c.Ok? then Ok(Stmt.Store(t.code, c.code)) else Fails;
  }

  lemma AssignIs(x: Name, e: L.Exp, chain: seq<Func>)
    requires chain != []
    ensures var t := CompileTarget(x, chain);
      if t.Error? then CompileAssign(x, e, chain).Error?
      else
        var c := CompileValue(e, if t.code.ToLocal? then InPlace else AnyReg, t.chain);
        CompileAssign(x, e, chain) == if c.Error? then Error else Done(Stmt.Store(t.code, c.code), c.chain)
  {
    hide CompileTarget, CompileValue;
  }

  lemma TargetOk(chain: seq<Func>, x: Name)
    requires chain != [] && StaticOk(chain)
    ensures var t := CompileTarget(x, chain); t.Done? ==> StaticOk(t.chain)
  {
    hide StaticOk, Grows;
    VarOk(chain, x);
  }

  /** `ifstat`, with an else part. */
  method IfStatement(fs: FuncState, level: nat, e: L.Exp, a: L.Stat, b: L.Stat) returns (r: Parsed<Stmt>)
    requires InOrder(fs)
    modifies fs.Repr
    ensures fs.Valid()
    ensures AgreesWithin(r, level + 1 + Max(ExpLevels(e), Max(Levels(a), Levels(b))),
              CompileIf(e, a, b, old(fs.View())), fs.View())
    decreases L.Stat.If(e, a, b), 1
  {
    hide *;
    OrderValid(fs);
    ghost var chain := fs.View();
    IfDone(e, a, b, chain);
    var c := Value(fs, level, 1, e, Test);
    ghost var chain1 := fs.View();
    r := Fails;
    if c.Ok? {
      r := IfParts(fs, level, c.code, L.Stat.If(e, a, b), a, b);
    }
    Composed(level + 1, c, ExpLevels(e), CompileValue(e, Test, chain), chain1,
      r, Max(Levels(a), Levels(b)), if c.Ok? then IfCode(c.code, a, b, chain1) else Error, CompileIf(e, a, b, chain),
      fs.View());
  }

  /** Both parts behind the condition. */
  ghost function IfCode(cond: Code, a: L.Stat, b: L.Stat, chain: seq<Func>): Compiled<Stmt>
    requires chain != []
  {
    var d := CompileBlock(a, chain);
    if d.Error? then Error
    else
      var f := CompileBlock(b, d.chain);
      if f.Error? then Error else Done(Stmt.If(cond, d.code, f.code), f.chain)
  }

  lemma IfDone(e: L.Exp, a: L.Stat, b: L.Stat, chain: seq<Func>)
    requires chain != []
    ensures var c := CompileValue(e, Test, chain);
      CompileIf(e, a, b, chain) == if c.Error? then Error else IfCode(c.code, a, b, c.chain)
  {
    hide Grows, CompileValue, CompileBlock;
  }

  /** The blocks of both parts. */
  method IfParts(fs: FuncState, level: nat, cond: Code, ghost s: L.Stat, a: L.Stat, b: L.Stat)
    returns (r: Parsed<Stmt>)
    requires InOrder(fs) && a < s && b < s
    modifies fs.Repr
    ensures fs.Valid()
    ensures AgreesWithin(r, level + 1 + Max(Levels(a), Levels(b)), IfCode(cond, a, b, old(fs.View())), fs.View())
    decreases s, 0
  {
    hide Chain, FuncState.Valid, FuncState.View, FuncState.Self, StaticOk, Grows, CompileBlock, EnterBlock, LeaveBlock,
      Levels, Top, Innermost;
    ghost var chain := fs.View();
    EnterBlockOk(chain);
    var d := BlockStatement(fs, level, a);
    if d.Fails? {
      return Fails;
    }
    CompileBlockOk(a, chain);
    EnterBlockOk(fs.View());
    var f := BlockStatement(fs, level, b);
    return if f.Ok? then Ok(Stmt.If(cond, d.code, f.code)) else Fails;
  }

  /** `whilestat`: the block of the loop never emits an OP_CLOSE. */
  method WhileStatement(fs: FuncState, level: nat, e: L.Exp, a: L.Stat) returns (r: Parsed<Stmt>)
    requires InOrder(fs)
    modifies fs.Repr
    ensures fs.Valid()
    ensures AgreesWithin(r, level + 1 + Max(ExpLevels(e), Levels(a)), CompileWhile(e, a, old(fs.View())), fs.View())
    decreases L.Stat.While(e, a), 0
  {
    hide *;
    OrderValid(fs);
    ghost var chain := fs.View();
    WhileDone(e, a, chain);
    var c := Value(fs, level, 1, e, Test);
    ghost var chain1 := fs.View();
    r := Fails;
    if c.Ok? {
      r := LoopBody(fs, level, c.code, a);
    }
    Composed(level + 1, c, ExpLevels(e), CompileValue(e, Test, chain), chain1,
      r, Levels(a), if c.Ok? then LoopCode(c.code, a, chain1) else Error, CompileWhile(e, a, chain), fs.View());
  }

  /** The loop behind its condition. */
  ghost function LoopCode(cond: Code, a: L.Stat, chain: seq<Func>): Compiled<Stmt>
    requires chain != []
  {
    var d := CompileBlock(a, EnterBlock(chain, true));
    if d.Error? then Error
    else
      GrowsContinues(EnterBlock(chain, true), d.chain);
      BlockContinues(chain, true, d.chain);
      Done(Stmt.While(cond, d.code), LeaveBlock(d.chain))
  }

  lemma WhileDone(e: L.Exp, a: L.Stat, chain: seq<Func>)
    requires chain != []
    ensures var c := CompileValue(e, Test, chain);
      CompileWhile(e, a, chain) == if c.Error? then Error else LoopCode(c.code, a, c.chain)
  {
    hide CompileValue, CompileBlock, Grows, Continues, LeaveBlock;
  }

  /** The loop of `whilestat`: its own block holds the block of the body only. */
  method LoopBody(fs: FuncState, level: nat, cond: Code, a: L.Stat) returns (r: Parsed<Stmt>)
    requires InOrder(fs)
    modifies fs.Repr
    ensures fs.Valid() && AgreesWithin(r, level + 1 + Levels(a), LoopCode(cond, a, old(fs.View())), fs.View())
    decreases a, 5
  {
    hide Chain, FuncState.Valid, FuncState.View, StaticOk, Grows, Continues, CompileBlock, EnterBlock, LeaveBlock,
      Levels;
    ghost var chain := fs.View();
    ValidSelf(fs);
    EnterLoopOk(chain);
    fs.EnterBlock(true);
    var d := BlockStatement(fs, level, a);
    if d.Fails? {
      return Fails;
    }
    LoopClosed(a, chain);
    var close := fs.LeaveBlock();
    assert !close;
    return Ok(Stmt.While(cond, d.code));
  }

  lemma LoopClosed(a: L.Stat, chain: seq<Func>)
    requires chain != [] && StaticOk(chain) && CompileBlock(a, EnterBlock(chain, true)).Done?
    ensures var chain2 := CompileBlock(a, EnterBlock(chain, true)).chain;
      chain2 != [] && Top(chain2).blocks != [] && Innermost(chain2).nactvar <= |Top(chain2).actvar|
          && !Innermost(chain2).upval
  {
    hide StaticOk, Continues;
    CompileLoopOk(a, chain);
    LeaveLoopAfter(chain, CompileStat(a, EnterLoop(chain)).chain);
  }

  /** `repeatstat`. */
  method RepeatStatement(fs: FuncState, level: nat, a: L.Stat, e: L.Exp) returns (r: Parsed<Stmt>)
    requires InOrder(fs)
    modifies fs.Repr
    ensures fs.Valid()
    ensures AgreesWithin(r, level + 1 + Max(Levels(a), ExpLevels(e)), CompileRepeat(a, e, old(fs.View())), fs.View())
    decreases L.Stat.Repeat(a, e), 1
  {
    hide *;
    OrderValid(fs);
    ghost var chain := fs.View();
    RepeatDone(a, e, chain);
    var c := RepeatBody(fs, level, a);
    ghost var chain1 := fs.View();
    r := Fails;
    if c.Ok? {
      r := RepeatEnd(fs, level, c.code, e);
    }
    Composed(level + 1, c, Levels(a), CompileStat(a, EnterLoop(chain)), chain1,
      r, ExpLevels(e), if c.Ok? then RepeatCode(c.code, e, chain1) else Error, CompileRepeat(a, e, chain), fs.View());
  }

  /** The beginning of `repeatstat`: both blocks are entered and the body is parsed. */
  method RepeatBody(fs: FuncState, level: nat, a: L.Stat) returns (r: Parsed<Stmt>)
    requires InOrder(fs)
    modifies fs.Repr
    ensures fs.Valid()
    ensures var c := CompileStat(a, EnterLoop(old(fs.View())));
      && AgreesWithin(r, level + 1 + Levels(a), c, fs.View())
      && (r.Ok? ==> InOrder(fs) && c == Done(r.code, fs.View()))
    decreases a, 4
  {
    hide Chain, FuncState.Valid, FuncState.View, StaticOk, Grows, Continues, CompileStat, EnterBlock, Levels;
    ghost var chain := fs.View();
    ValidSelf(fs);
    EnterLoopOk(chain);
    fs.EnterBlock(true);
    fs.EnterBlock(false);
    r := Chunk(fs, level, a);
    CompileLoopOk(a, chain);
  }

  /** The scope block and the loop's block are open. */
  ghost predicate TwoOpen(chain: seq<Func>) {
    && chain != [] && Top(chain).blocks != [] && Innermost(chain).nactvar <= |Top(chain).actvar|
    && var out := LeaveBlock(chain);
    && out != [] && Top(out).blocks != [] && Innermost(out).nactvar <= |Top(out).actvar|
  }

  /** They still are behind the condition. */
  ghost predicate EndsOpen(e: L.Exp, chain: seq<Func>) {
    chain != [] && var d := CompileValue(e, Test, chain); d.Done? ==> TwoOpen(d.chain)
  }

  /** The condition and the end of the loop. */
  ghost function RepeatCode(body: Stmt, e: L.Exp, chain: seq<Func>): Compiled<Stmt>
    requires EndsOpen(e, chain)
  {
    var d := CompileValue(e, Test, chain);
    if d.Error? then Error
    else
      var bl := Innermost(d.chain);
      Done(Stmt.Repeat(body, d.code, bl.nactvar, bl.upval), LeaveBlock(LeaveBlock(d.chain)))
  }

  /** Its condition, inside of the scope block, and the end. */
  method RepeatEnd(fs: FuncState, level: nat, body: Stmt, e: L.Exp) returns (r: Parsed<Stmt>)
    requires InOrder(fs) && EndsOpen(e, fs.View())
    modifies fs.Repr
    ensures fs.Valid() && AgreesWithin(r, level + 1 + ExpLevels(e), RepeatCode(body, e, old(fs.View())), fs.View())
    decreases e, 4
  {
    hide Chain, FuncState.Valid, FuncState.View, StaticOk, Grows, CompileValue, LeaveBlock, ExpLevels;
    var d := Value(fs, level, 1, e, Test);
    if d.Fails? {
      return Fails;
    }
    var first, close := LeaveRepeat(fs);
    return Ok(Stmt.Repeat(body, d.code, first, close));
  }

  /** The end of `repeatstat`: the scope block and the loop's block are left. */
  method LeaveRepeat(fs: FuncState) returns (first: nat, close: bool)
    requires fs.Valid() && fs.bl != [] && Innermost(fs.View()).nactvar <= |Top(fs.View()).actvar|
    requires var out := LeaveBlock(fs.View()); Top(out).blocks != [] && Innermost(out).nactvar <= |Top(out).actvar|
    modifies fs.Repr
    ensures fs.Valid()
    ensures first == Innermost(old(fs.View())).nactvar && close == Innermost(old(fs.View())).upval
    ensures fs.View() == LeaveBlock(LeaveBlock(old(fs.View())))
  {
    hide Chain, FuncState.Valid, FuncState.View, LeaveBlock;
    ValidSelf(fs);
    first := fs.bl[|fs.bl| - 1].nactvar;
    close := fs.LeaveBlock();
    var _ := fs.LeaveBlock();
  }

  lemma RepeatDone(a: L.Stat, e: L.Exp, chain: seq<Func>)
    requires chain != []
    ensures var c := CompileStat(a, EnterLoop(chain));
      if c.Error? then CompileRepeat(a, e, chain).Error?
      else EndsOpen(e, c.chain) && CompileRepeat(a, e, chain) == RepeatCode(c.code, e, c.chain)
  {
    hide Grows, Continues, CompileStat, CompileValue;
    var c := CompileStat(a, EnterLoop(chain));
    if c.Done? && CompileValue(e, Test, c.chain).Done? {
      RepeatContinues(chain, c.chain, CompileValue(e, Test, c.chain).chain);
    }
  }

  /** `statement`. */
  method Statement(fs: FuncState, level: nat, s: L.Stat) returns (r: Parsed<Stmt>)
    requires InOrder(fs) && level <= LUAI_MAXCCALLS
    modifies fs.Repr
    ensures fs.Valid() && AgreesWithin(r, level + Levels(s), CompileStat(s, old(fs.View())), fs.View())
    decreases s, 2
  {
    hide Chain, FuncState.Valid, FuncState.View, StaticOk, Grows, Continues, CompileStat, CompileValue, CompileBlock,
      CompileLocal, CompileLocalFunction, CompileAssign, CompileIf, CompileWhile, CompileRepeat, ExpLevels;
    StatIs(s, fs.View());
    match s {
      case Skip => r := Ok(Stmt.Skip);
      case Seq(a, b) => r := TwoStatements(fs, level, a, b);
      case Local(x, e) => r := LocalStatement(fs, level, x, e);
      case LocalFunction(x, param, body) => r := LocalFunctionStatement(fs, level, x, param, body);
      case Assign(x, e) => r := AssignStatement(fs, level, x, e);
      case Eval(e) =>
        var c := Value(fs, level, 0, e, InPlace);
        r := if c.Ok? then Ok(Stmt.Eval(c.code)) else Fails;
      case Do(a) =>
        EnterBlockOk(fs.View());
        r := BlockStatement(fs, level, a);
      case If(e, a, b) => r := IfStatement(fs, level, e, a, b);
      case While(e, a) => r := WhileStatement(fs, level, e, a);
      case Repeat(a, e) => r := RepeatStatement(fs, level, a, e);
      case Break =>
        var x := fs.BreakStat();
        match x {
          case NoLoop => r := Fails;
          case Exit(to, close) => r := Ok(Stmt.Break(to, close));
        }
      case Return(e) =>
        var c := Value(fs, level, 1, e, AnyReg);
        r := if c.Ok? then Ok(Stmt.Return(c.code)) else Fails;
    }
  }

  /** What `statement` hands on. */
  lemma StatIs(s: L.Stat, chain: seq<Func>)
    requires chain != []
    ensures s.Skip? ==> CompileStat(s, chain) == Done(Stmt.Skip, chain)
    ensures s.Local? ==> CompileStat(s, chain) == CompileLocal(s.x, s.e, chain)
    ensures s.LocalFunction? ==> CompileStat(s, chain) == CompileLocalFunction(s.x, s.param, s.body, chain)
    ensures s.Assign? ==> CompileStat(s, chain) == CompileAssign(s.x, s.e, chain)
    ensures s.Eval? ==> CompileStat(s, chain) == Made(CompileValue(s.e, InPlace, chain), c => Stmt.Eval(c))
    ensures s.Do? ==> CompileStat(s, chain) == CompileBlock(s.s, chain)
    ensures s.If? ==> CompileStat(s, chain) == CompileIf(s.e, s.s, s.t, chain)
    ensures s.While? ==> CompileStat(s, chain) == CompileWhile(s.e, s.s, chain)
    ensures s.Repeat? ==> CompileStat(s, chain) == CompileRepeat(s.s, s.e, chain)
    ensures s.Break? && BreakOut(Top(chain).blocks).NoLoop? ==> CompileStat(s, chain).Error?
    ensures s.Break? && BreakOut(Top(chain).blocks).Exit? ==>
      var x := BreakOut(Top(chain).blocks); CompileStat(s, chain) == Done(Stmt.Break(x.level, x.close), chain)
    ensures s.Return? ==> CompileStat(s, chain) == Made(CompileValue(s.e, AnyReg, chain), c => Stmt.Return(c))
  {
    hide CompileValue, CompileBlock, CompileLocal, CompileLocalFunction, CompileAssign, CompileIf, CompileWhile,
      CompileRepeat, BreakOut;
  }

  /** One statement behind the other. */
  method TwoStatements(fs: FuncState, level: nat, a: L.Stat, b: L.Stat) returns (r: Parsed<Stmt>)
    requires InOrder(fs) && level <= LUAI_MAXCCALLS
    modifies fs.Repr
    ensures fs.Valid()
    ensures AgreesWithin(
              r, level + Max(Levels(a), Levels(b)), CompileStat(L.Stat.Seq(a, b), old(fs.View())), fs.View())
    decreases L.Stat.Seq(a, b), 0
  {
    hide Chain, FuncState.Valid, FuncState.View, StaticOk, Continues, CompileStat, Levels;
    ghost var chain := fs.View();
    SeqIs(a, b, chain);
    var c := Statement(fs, level, a);
    if c.Fails? {
      return Fails;
    }
    CompileStatOk(a, chain);
    var d := Statement(fs, level, b);
    return if d.Ok? then Ok(Stmt.Seq(c.code, d.code)) else Fails;
  }

  lemma SeqIs(a: L.Stat, b: L.Stat, chain: seq<Func>)
    requires chain != []
    ensures var c := CompileStat(a, chain);
      if c.Error? then CompileStat(L.Stat.Seq(a, b), chain).Error?
      else
        var d := CompileStat(b, c.chain);
        CompileStat(L.Stat.Seq(a, b), chain) == if d.Error? then Error else Done(Stmt.Seq(c.code, d.code), d.chain)
  {
  }

  /** `luaY_parser`: the main function, parsed with `calls` nested calls in progress. */
  method Program(s: L.Stat, calls: nat) returns (r: Parsed<Stmt>)
    ensures match CompileProgram(s, calls)
            case Error => r.Fails?
            case Done(code, _) => r == Ok(code)
  {
    hide CompileStat, Levels, FuncState.Valid, StaticOk, Continues;
    StartOk();
    var fs := new FuncState(null, []);
    assert fs.View() == START;
    r := Chunk(fs, calls, s);
  }
}
