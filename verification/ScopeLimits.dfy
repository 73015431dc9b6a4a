/**
Which programs compile: those with every `break` in a loop, and with no more
names, declarations, temporaries and nested constructs than there is room for.
*/
module ScopeLimits {
  import opened Scopes
  import opened ScopeCode
  import L = ScopeLang

  // ------------------------------------------------- what a program asks for

  /** How many names are looked up. */
  function ExpUses(e: L.Exp): nat {
    match e
    case Nil => 0
    case Num(_) => 0
    case Var(_) => 1
    case Add(l, r) => ExpUses(l) + ExpUses(r)
    case Function(_, body) => Uses(body)
    case Call(f, a) => ExpUses(f) + ExpUses(a)
  }

  function Uses(s: L.Stat): nat {
    match s
    case Skip => 0
    case Seq(a, b) => Uses(a) + Uses(b)
    case Local(_, e) => ExpUses(e)
    case LocalFunction(_, _, body) => Uses(body)
    case Assign(_, e) => 1 + ExpUses(e)
    case Eval(e) => ExpUses(e)
    case Do(a) => Uses(a)
    case If(e, a, b) => ExpUses(e) + Uses(a) + Uses(b)
    case While(e, a) => ExpUses(e) + Uses(a)
    case Repeat(a, e) => Uses(a) + ExpUses(e)
    case Break => 0
    case Return(e) => ExpUses(e)
  }

  /** How many variables are declared. */
  function ExpDecls(e: L.Exp): nat {
    match e
    case Nil => 0
    case Num(_) => 0
    case Var(_) => 0
    case Add(l, r) => ExpDecls(l) + ExpDecls(r)
    case Function(_, body) => 1 + Decls(body)
    case Call(f, a) => ExpDecls(f) + ExpDecls(a)
  }

  function Decls(s: L.Stat): nat {
    match s
    case Skip => 0
    case Seq(a, b) => Decls(a) + Decls(b)
    case Local(_, e) => 1 + ExpDecls(e)
    case LocalFunction(_, _, body) => 2 + Decls(body)
    case Assign(_, e) => ExpDecls(e)
    case Eval(e) => ExpDecls(e)
    case Do(a) => Decls(a)
    case If(e, a, b) => ExpDecls(e) + Decls(a) + Decls(b)
    case While(e, a) => ExpDecls(e) + Decls(a)
    case Repeat(a, e) => Decls(a) + ExpDecls(e)
    case Break => 0
    case Return(e) => ExpDecls(e)
  }

  /** Every `break` is in a loop of its own function. */
  predicate ExpBreaks(e: L.Exp) {
    match e
    case Add(l, r) => ExpBreaks(l) && ExpBreaks(r)
    case Function(_, body) => Breaks(body, false)
    case Call(f, a) => ExpBreaks(f) && ExpBreaks(a)
    case _ => true
  }

  predicate Breaks(s: L.Stat, inLoop: bool) {
    match s
    case Skip => true
    case Seq(a, b) => Breaks(a, inLoop) && Breaks(b, inLoop)
    case Local(_, e) => ExpBreaks(e)
    case LocalFunction(_, _, body) => Breaks(body, false)
    case Assign(_, e) => ExpBreaks(e)
    case Eval(e) => ExpBreaks(e)
    case Do(a) => Breaks(a, inLoop)
    case If(e, a, b) => ExpBreaks(e) && Breaks(a, inLoop) && Breaks(b, inLoop)
    case While(e, a) => ExpBreaks(e) && Breaks(a, true)
    case Repeat(a, e) => Breaks(a, true) && ExpBreaks(e)
    case Break => inLoop
    case Return(e) => ExpBreaks(e)
  }

  /** At most so many temporaries are in use while `e` is parsed and its value is put to use. */
  function ExpTemps(e: L.Exp): (n: nat)
    ensures n >= 1
  {
    match e
    case Add(l, r) => Max(ExpTemps(l), 1 + ExpTemps(r))
    case Call(f, a) => Max(ExpTemps(f), 1 + ExpTemps(a))
    case _ => 1
  }

  /** No expression of a statement takes more than `t` temporaries. */
  predicate ExpSmall(e: L.Exp, t: nat) {
    match e
    case Add(l, r) => ExpSmall(l, t) && ExpSmall(r, t)
    case Function(_, body) => Small(body, t)
    case Call(f, a) => ExpSmall(f, t) && ExpSmall(a, t)
    case _ => true
  }

  predicate Small(s: L.Stat, t: nat) {
    match s
    case Skip => true
    case Seq(a, b) => Small(a, t) && Small(b, t)
    case Local(_, e) => ExpTemps(e) <= t && ExpSmall(e, t)
    case LocalFunction(_, _, body) => Small(body, t)
    case Assign(_, e) => ExpTemps(e) <= t && ExpSmall(e, t)
    case Eval(e) => ExpTemps(e) <= t && ExpSmall(e, t)
    case Do(a) => Small(a, t)
    case If(e, a, b) => ExpTemps(e) <= t && ExpSmall(e, t) && Small(a, t) && Small(b, t)
    case While(e, a) => ExpTemps(e) <= t && ExpSmall(e, t) && Small(a, t)
    case Repeat(a, e) => Small(a, t) && ExpTemps(e) <= t && ExpSmall(e, t)
    case Break => true
    case Return(e) => ExpTemps(e) <= t && ExpSmall(e, t)
  }

  // ------------------------------------------------------- what there is room for

  /** No function has more than `u` upvalues, nor the last one more than `v` active variables. */
  ghost predicate Within(chain: seq<Func>, u: nat, v: nat) {
    && chain != [] && |Top(chain).actvar| <= v
    && forall d :: 0 <= d < |chain| ==> |chain[d].upvalues| <= u
  }

  ghost predicate UpsWithin(chain: seq<Func>, u: nat) {
    forall d :: 0 <= d < |chain| ==> |chain[d].upvalues| <= u
  }

  lemma {:induction false} LookupWithin(chain: seq<Func>, n: Name, base: bool, u: nat)
    requires UpsWithin(chain, u) && u < MAX_UPVALUES
    ensures var r := SingleVarAux(chain, n, base); !r.found.TooManyUpvalues? && UpsWithin(r.chain, u + 1)
  {
    if chain != [] && SearchVar(chain[|chain| - 1].actvar, n) < 0 {
      var top := |chain| - 1;
      var outer := SingleVarAux(chain[..top], n, false);
      LookupWithin(chain[..top], n, false, u);
      var r := SingleVarAux(chain, n, base);
      forall d | 0 <= d < |r.chain| ensures |r.chain[d].upvalues| <= u + 1 {
        if d < top {
          assert r.chain[d] == outer.chain[d];
        }
      }
    }
  }

  ghost predicate InLoop(chain: seq<Func>, inLoop: bool)
    requires chain != []
  {
    inLoop ==> BreakOut(Top(chain).blocks).Exit?
  }

  lemma {:induction false} BreakOutGrows(a: seq<Scopes.Block>, b: seq<Scopes.Block>)
    requires BlocksGrow(a, b)
    ensures BreakOut(a).Exit? == BreakOut(b).Exit?
  {
    if a != [] {
      var t := |a| - 1;
      assert a[t].isBreakable == b[t].isBreakable;
      BreakOutGrows(a[..t], b[..t]);
    }
  }

  lemma InLoopContinues(a: seq<Func>, b: seq<Func>, inLoop: bool)
    requires Continues(a, b) && InLoop(a, inLoop)
    ensures InLoop(b, inLoop)
  {
    BreakOutGrows(Top(a).blocks, Top(b).blocks);
  }

  lemma OutOfLoop(chain: seq<Func>)
    requires chain != []
    ensures InLoop(chain, false)
  {
  }

  lemma InLoopEnter(chain: seq<Func>, inLoop: bool)
    requires chain != [] && InLoop(chain, inLoop)
    ensures InLoop(EnterBlock(chain, false), inLoop) && InLoop(EnterBlock(EnterBlock(chain, true), false), true)
  {
    var b := Top(chain).blocks;
    assert Top(EnterBlock(chain, false)).blocks[..|b|] == b;
    var c := Top(EnterBlock(chain, true)).blocks;
    assert BreakOut(c).Exit?;
    assert Top(EnterBlock(EnterBlock(chain, true), false)).blocks[..|c|] == c;
  }

  lemma EnterWithin(chain: seq<Func>, isBreakable: bool, u: nat, v: nat)
    requires Within(chain, u, v)
    ensures Within(EnterBlock(chain, isBreakable), u, v)
  {
  }

  lemma LeaveWithin(chain: seq<Func>, u: nat, v: nat)
    requires Within(chain, u, v) && Top(chain).blocks != [] && Innermost(chain).nactvar <= |Top(chain).actvar|
    ensures Within(LeaveBlock(chain), u, v)
  {
  }

  // ------------------------------------------------------------- compilation

  /** The program has been compiled, within the limits. */
  ghost predicate DoneWithin<T>(r: Compiled<T>, u: nat, v: nat) {
    r.Done? && Within(r.chain, u, v)
  }

  /** There is room for `e` where `u` upvalues, `v` variables and `t` temporaries may be in use. */
  predicate ExpRoom(e: L.Exp, u: nat, v: nat, t: nat) {
    && u + ExpUses(e) <= MAX_UPVALUES && v + ExpDecls(e) <= MAX_VARS
    && v + ExpDecls(e) + t < MAXSTACK && ExpSmall(e, t) && ExpBreaks(e)
  }

  predicate Room(s: L.Stat, u: nat, v: nat, t: nat, inLoop: bool) {
    && u + Uses(s) <= MAX_UPVALUES && v + Decls(s) <= MAX_VARS
    && v + Decls(s) + t < MAXSTACK && Small(s, t) && Breaks(s, inLoop)
  }

  /** What a statement has room for its parts have room for, each behind those before it. */
  lemma RoomParts(s: L.Stat, u: nat, v: nat, t: nat, inLoop: bool)
    requires Room(s, u, v, t, inLoop)
    ensures s.Seq? ==> Room(s.s, u, v, t, inLoop) && Room(s.t, u + Uses(s.s), v + Decls(s.s), t, inLoop)
    ensures s.Local? || s.Eval? || s.If? || s.While? || s.Return? ==> ExpRoom(s.e, u, v, t) && ExpTemps(s.e) <= t
    ensures s.Local? ==> v < MAX_VARS
    ensures s.Assign? ==> u + 1 <= MAX_UPVALUES && ExpRoom(s.e, u + 1, v, t) && ExpTemps(s.e) <= t
    ensures s.If? ==>
      Room(s.s, u + ExpUses(s.e), v, t, inLoop) && Room(s.t, u + ExpUses(s.e) + Uses(s.s), v, t, inLoop)
    ensures s.While? ==> Room(s.s, u + ExpUses(s.e), v, t, true)
    ensures s.Repeat? ==>
      Room(s.s, u, v, t, true) && ExpRoom(s.e, u + Uses(s.s), v + Decls(s.s), t) && ExpTemps(s.e) <= t
  {
  }

  lemma ExpParts(e: L.Exp, u: nat, v: nat, t: nat)
    requires ExpRoom(e, u, v, t)
    ensures e.Add? ==> ExpRoom(e.l, u, v, t) && ExpRoom(e.r, u + ExpUses(e.l), v, t)
    ensures e.Call? ==> ExpRoom(e.f, u, v, t) && ExpRoom(e.a, u + ExpUses(e.f), v, t)
    ensures e.Function? ==> Room(e.body, u, v + 1, t, false)
    ensures e.Var? ==> u + 1 <= MAX_UPVALUES
  {
  }

  /** The resolved expression takes no more temporaries than its source. */
  lemma {:induction false} TemporariesBound(e: L.Exp, chain: seq<Func>)
    requires chain != [] && CompileExp(e, chain).Done?
    ensures Temporaries(CompileExp(e, chain).code) <= ExpTemps(e)
  {
    hide Grows, CompileVar, CompileFunction, Temporaries;
    match e {
      case Add(l, r) =>
        TemporariesBound(l, chain);
        TemporariesBound(r, CompileExp(l, chain).chain);
        PairTemps(CompileExp(l, chain).code, CompileExp(r, CompileExp(l, chain).chain).code, ExpTemps(l), ExpTemps(r));
      case Call(f, a) =>
        TemporariesBound(f, chain);
        TemporariesBound(a, CompileExp(f, chain).chain);
        PairTemps(CompileExp(f, chain).code, CompileExp(a, CompileExp(f, chain).chain).code, ExpTemps(f), ExpTemps(a));
      case Var(x) =>
        VarPlain(x, chain);
        LeafTemps(CompileExp(e, chain).code);
      case _ => LeafTemps(CompileExp(e, chain).code);
    }
  }

  lemma PairTemps(a: Code, b: Code, x: nat, y: nat)
    requires 1 <= x && 1 <= y && Temporaries(a) <= x && Temporaries(b) <= y
    ensures Temporaries(Code.Add(a, b)) <= Max(x, 1 + y) && Temporaries(Code.Call(a, b)) <= Max(x, 1 + y)
  {
  }

  lemma LeafTemps(e: Code)
    requires !e.Add? && !e.Call?
    ensures Temporaries(e) == 0
  {
  }

  lemma RegistersBound(e: Code, use: Use, x: nat)
    requires Temporaries(e) <= x && 1 <= x
    ensures Registers(e, use) <= x
  {
  }

  lemma VarPlain(x: Name, chain: seq<Func>)
    requires chain != [] && CompileVar(x, chain).Done?
    ensures var c := CompileVar(x, chain).code; c.GetLocal? || c.GetUpval? || c.GetGlobal?
  {
  }

  lemma {:induction false} CompilesValue(e: L.Exp, use: Use, chain: seq<Func>, u: nat, v: nat, t: nat)
    requires Within(chain, u, v) && ExpRoom(e, u, v, t) && ExpTemps(e) <= t
    ensures DoneWithin(CompileValue(e, use, chain), u + ExpUses(e), v)
    decreases e, 1
  {
    hide CompileExp, Grows, ExpTemps, Registers;
    CompilesExp(e, chain, u, v, t);
    TemporariesBound(e, chain);
    RegistersBound(CompileExp(e, chain).code, use, ExpTemps(e));
  }

  lemma {:induction false} CompilesExp(e: L.Exp, chain: seq<Func>, u: nat, v: nat, t: nat)
    requires Within(chain, u, v) && ExpRoom(e, u, v, t)
    ensures DoneWithin(CompileExp(e, chain), u + ExpUses(e), v)
    decreases e, 0
  {
    hide Grows, ExpRoom, Room, Within, ExpDecls, ExpSmall, ExpBreaks, CompileVar, CompileFunction;
    WithinNonEmpty(chain, u, v);
    ExpParts(e, u, v, t);
    match e {
      case Nil =>
      case Num(_) =>
      case Var(x) => CompilesVar(x, chain, u, v);
      case Add(l, r) =>
        CompilesExp(l, chain, u, v, t);
        CompilesExp(r, CompileExp(l, chain).chain, u + ExpUses(l), v, t);
      case Function(param, body) => CompilesFunction(param, body, chain, u, v, t);
      case Call(f, a) =>
        CompilesExp(f, chain, u, v, t);
        CompilesExp(a, CompileExp(f, chain).chain, u + ExpUses(f), v, t);
    }
  }

  lemma CompilesVar(x: Name, chain: seq<Func>, u: nat, v: nat)
    requires Within(chain, u, v) && u + 1 <= MAX_UPVALUES
    ensures DoneWithin(CompileVar(x, chain), u + 1, v) && DoneWithin(CompileTarget(x, chain), u + 1, v)
  {
    LookupWithin(chain, x, true, u);
    var r := CompileVar(x, chain);
    assert FuncGrows(Top(chain), Top(r.chain));
  }

  lemma {:induction false} CompilesFunction(param: Name, body: L.Stat, chain: seq<Func>, u: nat, v: nat, t: nat)
    requires Within(chain, u, v) && Room(body, u, v + 1, t, false)
    ensures DoneWithin(CompileFunction(param, body, chain), u + Uses(body), v)
    decreases body, 3
  {
    hide Room, Uses, Decls, Continues, CompileStat, Grows;
    assert Within(OpenFunc(chain, param), u, v + 1);
    OutOfLoop(OpenFunc(chain, param));
    CompilesStat(body, OpenFunc(chain, param), u, v + 1, t, false);
    var c := CompileBody(param, body, chain);
    OuterContinues(chain, param, c.chain);
    OuterWithin(chain, c.chain, u, u + Uses(body), v, v + 1 + Decls(body));
  }

  lemma OuterWithin(a: seq<Func>, b: seq<Func>, u: nat, u2: nat, v: nat, v2: nat)
    requires |b| == |a| + 1 && Within(a, u, v) && Within(b, u2, v2) && Grows(a, b[..|a|])
    ensures Within(b[..|a|], u2, v)
  {
    var outer := b[..|a|];
    forall d | 0 <= d < |outer| ensures |outer[d].upvalues| <= u2 {
      assert outer[d] == b[d];
    }
    assert FuncGrows(Top(a), Top(outer));
  }

  lemma {:induction false} CompilesBlock(s: L.Stat, chain: seq<Func>, u: nat, v: nat, t: nat, inLoop: bool)
    requires Within(chain, u, v) && Room(s, u, v, t, inLoop) && InLoop(chain, inLoop)
    ensures DoneWithin(CompileBlock(s, chain), u + Uses(s), v)
    decreases s, 3
  {
    hide InLoop, Continues, LeaveBlock, Grows, Room, ExpRoom, Uses, ExpUses, Decls, ExpDecls, Small, ExpSmall,
      Breaks, ExpBreaks, ExpTemps;
    InLoopEnter(chain, inLoop);
    EnterWithin(chain, false, u, v);
    CompilesStat(s, EnterBlock(chain, false), u, v, t, inLoop);
    var c := CompileStat(s, EnterBlock(chain, false));
    BlockContinues(chain, false, c.chain);
    LeaveWithin(c.chain, u + Uses(s), v + Decls(s));
    WithinBack(chain, LeaveBlock(c.chain), u, u + Uses(s), v, v + Decls(s));
  }

  /** Behind a block no more variables are active than before it. */
  lemma WithinBack(a: seq<Func>, b: seq<Func>, u: nat, u2: nat, v: nat, v2: nat)
    requires Within(a, u, v) && Within(b, u2, v2) && Grows(a, b)
    ensures Within(b, u2, v)
  {
    assert FuncGrows(Top(a), Top(b));
  }

  lemma {:induction false} CompilesWhile(e: L.Exp, a: L.Stat, chain: seq<Func>, u: nat, v: nat, t: nat)
    requires Within(chain, u, v) && Room(L.Stat.While(e, a), u, v, t, false)
    ensures DoneWithin(CompileWhile(e, a, chain), u + ExpUses(e) + Uses(a), v)
    decreases L.Stat.While(e, a), 0
  {
    hide Continues, LeaveBlock, Grows, Within, InLoop, CompileBlock, CompileValue, Room, ExpRoom, Uses, ExpUses,
      Decls, ExpDecls, Small, ExpSmall, Breaks, ExpBreaks, ExpTemps;
    RoomParts(L.Stat.While(e, a), u, v, t, false);
    WithinNonEmpty(chain, u, v);
    CompilesValue(e, Test, chain, u, v, t);
    var c := CompileValue(e, Test, chain);
    var loop := EnterBlock(c.chain, true);
    LoopEntered(c.chain);
    EnterWithin(c.chain, true, u + ExpUses(e), v);
    CompilesBlock(a, loop, u + ExpUses(e), v, t, true);
    var d := CompileBlock(a, loop);
    GrowsContinues(loop, d.chain);
    BlockContinues(c.chain, true, d.chain);
    LeaveWithin(d.chain, u + ExpUses(e) + Uses(a), v);
  }

  lemma {:induction false} CompilesRepeat(a: L.Stat, e: L.Exp, chain: seq<Func>, u: nat, v: nat, t: nat)
    requires Within(chain, u, v) && Room(L.Stat.Repeat(a, e), u, v, t, false)
    ensures DoneWithin(CompileRepeat(a, e, chain), u + Uses(a) + ExpUses(e), v)
    decreases L.Stat.Repeat(a, e), 0
  {
    hide Continues, LeaveBlock, Grows, InLoop, Within, CompileValue, CompileStat, Room, ExpRoom, Uses, ExpUses,
      Decls, ExpDecls, Small, ExpSmall, Breaks, ExpBreaks, ExpTemps;
    RoomParts(L.Stat.Repeat(a, e), u, v, t, false);
    WithinNonEmpty(chain, u, v);
    var loop := EnterBlock(chain, true);
    var inner := EnterBlock(loop, false);
    OutOfLoop(chain);
    InLoopEnter(chain, false);
    EnterWithin(chain, true, u, v);
    EnterWithin(loop, false, u, v);
    CompilesStat(a, inner, u, v, t, true);
    var c := CompileStat(a, inner);
    CompilesValue(e, Test, c.chain, u + Uses(a), v + Decls(a), t);
    var d := CompileValue(e, Test, c.chain);
    RepeatContinues(chain, c.chain, d.chain);
    var u2, v2 := u + Uses(a) + ExpUses(e), v + Decls(a);
    LeaveWithin(d.chain, u2, v2);
    LeaveWithin(LeaveBlock(d.chain), u2, v2);
    WithinBack(chain, LeaveBlock(LeaveBlock(d.chain)), u, u2, v, v2);
  }

  lemma {:induction false} CompilesIf(
      e: L.Exp, a: L.Stat, b: L.Stat, chain: seq<Func>, u: nat, v: nat, t: nat, inLoop: bool)
    requires Within(chain, u, v) && Room(L.Stat.If(e, a, b), u, v, t, inLoop) && InLoop(chain, inLoop)
    ensures DoneWithin(CompileIf(e, a, b, chain), u + ExpUses(e) + Uses(a) + Uses(b), v)
    decreases L.Stat.If(e, a, b), 0
  {
    hide Grows, InLoop, CompileBlock, CompileValue, Room, ExpRoom, Uses, ExpUses, Decls, ExpDecls, Small, ExpSmall,
      Breaks, ExpBreaks, ExpTemps;
    RoomParts(L.Stat.If(e, a, b), u, v, t, inLoop);
    CompilesValue(e, Test, chain, u, v, t);
    var c := CompileValue(e, Test, chain);
    GrowsContinues(chain, c.chain);
    InLoopContinues(chain, c.chain, inLoop);
    CompilesBlock(a, c.chain, u + ExpUses(e), v, t, inLoop);
    var d := CompileBlock(a, c.chain);
    GrowsContinues(c.chain, d.chain);
    InLoopContinues(c.chain, d.chain, inLoop);
    CompilesBlock(b, d.chain, u + ExpUses(e) + Uses(a), v, t, inLoop);
  }

  lemma NewLocalWithin(chain: seq<Func>, x: Name, u: nat, v: nat)
    requires Within(chain, u, v)
    ensures Within(NewLocal(chain, x), u, v + 1)
  {
  }

  lemma Wider(chain: seq<Func>, u: nat, v: nat, u2: nat, v2: nat)
    requires Within(chain, u, v) && u <= u2 && v <= v2
    ensures Within(chain, u2, v2)
  {
  }

  lemma {:induction false} CompilesLocal(x: Name, e: L.Exp, chain: seq<Func>, u: nat, v: nat, t: nat)
    requires chain != [] && Within(chain, u, v) && Room(L.Stat.Local(x, e), u, v, t, false)
    ensures DoneWithin(CompileLocal(x, e, chain), u + ExpUses(e), v + 1 + ExpDecls(e))
    decreases e, 2
  {
    hide Within, Grows, Continues, CompileValue, NewLocal, Room, ExpRoom, Uses, ExpUses, Decls, ExpDecls, Small,
      ExpSmall, Breaks, ExpBreaks, ExpTemps;
    RoomParts(L.Stat.Local(x, e), u, v, t, false);
    HasRoom(chain, u, v);
    CompilesValue(e, NextReg, chain, u, v, t);
    var c := CompileValue(e, NextReg, chain);
    NewLocalWithin(c.chain, x, u + ExpUses(e), v);
    Wider(NewLocal(c.chain, x), u + ExpUses(e), v + 1, u + ExpUses(e), v + 1 + ExpDecls(e));
  }

  lemma {:induction false} CompilesLocalFunction(
      x: Name, param: Name, body: L.Stat, chain: seq<Func>, u: nat, v: nat, t: nat)
    requires chain != [] && Within(chain, u, v) && Room(L.Stat.LocalFunction(x, param, body), u, v, t, false)
    ensures DoneWithin(CompileLocalFunction(x, param, body, chain), u + Uses(body), v + 2 + Decls(body))
    decreases body, 4
  {
    hide Within, Grows, Continues, CompileFunction, NewLocal;
    HasRoom(chain, u, v);
    NewLocalWithin(chain, x, u, v);
    var chain1 := NewLocal(chain, x);
    CompilesFunction(param, body, chain1, u, v + 1, t);
    Wider(CompileFunction(param, body, chain1).chain, u + Uses(body), v + 1, u + Uses(body), v + 2 + Decls(body));
  }

  lemma {:induction false} CompilesAssign(x: Name, e: L.Exp, chain: seq<Func>, u: nat, v: nat, t: nat)
    requires chain != [] && Within(chain, u, v) && Room(L.Stat.Assign(x, e), u, v, t, false)
    ensures DoneWithin(CompileAssign(x, e, chain), u + 1 + ExpUses(e), v)
    decreases e, 2
  {
    hide Within, Grows, CompileValue, CompileTarget, Room, ExpRoom, Uses, ExpUses, Decls, ExpDecls, Small, ExpSmall,
      Breaks, ExpBreaks, ExpTemps;
    RoomParts(L.Stat.Assign(x, e), u, v, t, false);
    CompilesVar(x, chain, u, v);
    var c := CompileTarget(x, chain);
    WithinNonEmpty(c.chain, u + 1, v);
    CompilesValue(e, if c.code.ToLocal? then InPlace else AnyReg, c.chain, u + 1, v, t);
  }

  lemma {:induction false} CompilesSeq(a: L.Stat, b: L.Stat, chain: seq<Func>, u: nat, v: nat, t: nat, inLoop: bool)
    requires chain != [] && Within(chain, u, v) && InLoop(chain, inLoop) && Room(L.Stat.Seq(a, b), u, v, t, inLoop)
    ensures DoneWithin(CompileStat(L.Stat.Seq(a, b), chain), u + Uses(a) + Uses(b), v + Decls(a) + Decls(b))
    decreases L.Stat.Seq(a, b), 0
  {
    hide Within, Continues, InLoop, CompileStat, Room, ExpRoom, Uses, ExpUses, Decls, ExpDecls, Small, ExpSmall,
      Breaks, ExpBreaks, ExpTemps;
    RoomParts(L.Stat.Seq(a, b), u, v, t, inLoop);
    CompilesStat(a, chain, u, v, t, inLoop);
    var c := CompileStat(a, chain);
    InLoopContinues(chain, c.chain, inLoop);
    CompilesStat(b, c.chain, u + Uses(a), v + Decls(a), t, inLoop);
    SeqDone(a, b, chain);
  }

  lemma SeqDone(a: L.Stat, b: L.Stat, chain: seq<Func>)
    requires chain != [] && CompileStat(a, chain).Done? && CompileStat(b, CompileStat(a, chain).chain).Done?
    ensures var c := CompileStat(a, chain);
      var d := CompileStat(b, c.chain);
      CompileStat(L.Stat.Seq(a, b), chain) == Done(Stmt.Seq(c.code, d.code), d.chain)
  {
  }

  /** A statement of one expression. */
  lemma {:induction false} CompilesEval(s: L.Stat, chain: seq<Func>, u: nat, v: nat, t: nat)
    requires s.Eval? || s.Return?
    requires chain != [] && Within(chain, u, v) && Room(s, u, v, t, false)
    ensures DoneWithin(CompileStat(s, chain), u + ExpUses(s.e), v)
    decreases s, 0
  {
    hide Within, Continues, Grows, CompileValue;
    CompilesValue(s.e, if s.Eval? then InPlace else AnyReg, chain, u, v, t);
  }

  lemma DoneWider(r: Compiled<Stmt>, u: nat, v: nat, v2: nat)
    requires DoneWithin(r, u, v) && v <= v2
    ensures DoneWithin(r, u, v2)
  {
    Wider(r.chain, u, v, u, v2);
  }

  /** Whatever stays within the limits compiles. */
  lemma {:induction false} CompilesStat(s: L.Stat, chain: seq<Func>, u: nat, v: nat, t: nat, inLoop: bool)
    requires chain != [] && Within(chain, u, v) && InLoop(chain, inLoop) && Room(s, u, v, t, inLoop)
    ensures DoneWithin(CompileStat(s, chain), u + Uses(s), v + Decls(s))
    decreases s, 2
  {
    hide *;
    match s {
      case Seq(a, b) =>
        CompilesSeq(a, b, chain, u, v, t, inLoop);
        SeqAsks(a, b);
      case Skip => CompilesPlain(s, chain, u, v, t, inLoop);
      case Break => CompilesPlain(s, chain, u, v, t, inLoop);
      case _ => CompilesOther(s, chain, u, v, t, inLoop);
    }
  }

  lemma SeqAsks(a: L.Stat, b: L.Stat)
    ensures var s := L.Stat.Seq(a, b); Uses(s) == Uses(a) + Uses(b) && Decls(s) == Decls(a) + Decls(b)
  {
  }

  lemma CompilesPlain(s: L.Stat, chain: seq<Func>, u: nat, v: nat, t: nat, inLoop: bool)
    requires s.Skip? || s.Break?
    requires chain != [] && Within(chain, u, v) && InLoop(chain, inLoop) && Room(s, u, v, t, inLoop)
    ensures DoneWithin(CompileStat(s, chain), u + Uses(s), v + Decls(s))
  {
  }

  lemma {:induction false} CompilesOther(s: L.Stat, chain: seq<Func>, u: nat, v: nat, t: nat, inLoop: bool)
    requires !s.Skip? && !s.Seq? && !s.Break?
    requires chain != [] && Within(chain, u, v) && InLoop(chain, inLoop) && Room(s, u, v, t, inLoop)
    ensures DoneWithin(CompileStat(s, chain), u + Uses(s), v + Decls(s))
    decreases s, 1
  {
    hide Within, Continues, Grows, InLoop, DoneWithin, CompileExp, CompileValue, CompileBlock, CompileIf, CompileWhile,
      CompileRepeat, CompileLocal, CompileLocalFunction, CompileAssign;
    match s {
      case Local(x, e) => CompilesLocal(x, e, chain, u, v, t);
      case LocalFunction(x, param, body) => CompilesLocalFunction(x, param, body, chain, u, v, t);
      case Assign(x, e) => CompilesAssign(x, e, chain, u, v, t);
      case Eval(e) => CompilesEval(s, chain, u, v, t);
      case Do(a) => CompilesBlock(a, chain, u, v, t, inLoop);
      case If(e, a, b) => CompilesIf(e, a, b, chain, u, v, t, inLoop);
      case While(e, a) => CompilesWhile(e, a, chain, u, v, t);
      case Repeat(a, e) => CompilesRepeat(a, e, chain, u, v, t);
      case Return(e) => CompilesEval(s, chain, u, v, t);
    }
    if !s.Local? && !s.LocalFunction? {
      DoneWider(CompileStat(s, chain), u + Uses(s), v, v + Decls(s));
    }
  }

  lemma WithinNonEmpty(chain: seq<Func>, u: nat, v: nat)
    requires Within(chain, u, v)
    ensures chain != []
  {
  }

  lemma LoopEntered(chain: seq<Func>)
    requires chain != []
    ensures InLoop(EnterBlock(chain, true), true)
  {
  }

  lemma HasRoom(chain: seq<Func>, u: nat, v: nat)
    requires Within(chain, u, v) && v < MAX_VARS
    ensures chain != [] && RoomForLocal(chain)
  {
  }

  /**
  A program compiles if every `break` is in a loop and it stays within all limits: 60 names, 200 declarations,
  fewer than 250 declarations and temporaries together, and 200 nested levels.
  */
  lemma Compiles(s: L.Stat, t: nat, calls: nat)
    requires Uses(s) <= MAX_UPVALUES && Decls(s) <= MAX_VARS && Breaks(s, false)
    requires Small(s, t) && Decls(s) + t < MAXSTACK
    requires calls + 1 + Levels(s) <= LUAI_MAXCCALLS
    ensures CompileProgram(s, calls).Done?
  {
    hide Uses, Decls, Breaks, Small, Levels, CompileStat;
    assert Within(START, 0, 0);
    CompilesStat(s, START, 0, 0, t, false);
  }
}
