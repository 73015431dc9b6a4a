/**
Laws of the language: what a program does does not depend on the fuel that its
run is given, and loops and conditions mean what the manual says of them.
*/
module ScopeLaws {
  import opened Scopes
  import opened ScopeLang

  // ------------------------------------------------------------------- fuel

  /** With more fuel an evaluation that has ended ends in the same way. */
  lemma {:induction false} MoreFuelExp(order: Order, e: Exp, env: Env, st: Store, fuel: nat, more: nat)
    requires fuel <= more && !EvalExp(order, e, env, st, fuel).TimedOut?
    ensures EvalExp(order, e, env, st, more) == EvalExp(order, e, env, st, fuel)
    decreases fuel, e, 0
  {
    match e {
      case Nil =>
      case Num(_) =>
      case Var(_) =>
      case Function(_, _) =>
      case Add(l, r) =>
        var late := ReadLast(order, l, env);
        var x, y := if late then r else l, if late then l else r;
        MoreFuelExp(order, x, env, st, fuel, more);
        var a := EvalExp(order, x, env, st, fuel);
        if a.Value? {
          MoreFuelExp(order, y, env, a.st, fuel, more);
        }
      case Call(f, arg) =>
        MoreFuelExp(order, f, env, st, fuel, more);
        var a := EvalExp(order, f, env, st, fuel);
        if a.Value? {
          MoreFuelExp(order, arg, env, a.st, fuel, more);
          var b := EvalExp(order, arg, env, a.st, fuel);
          if b.Value? && a.v.FunV? {
            MoreFuelApply(order, a.v, b.v, b.st, fuel, more);
          }
        }
    }
  }

  lemma {:induction false} MoreFuelApply(order: Order, f: Value, arg: Value, st: Store, fuel: nat, more: nat)
    requires f.FunV? && 0 < fuel <= more && !Apply(order, f, arg, st, fuel).TimedOut?
    ensures Apply(order, f, arg, st, more) == Apply(order, f, arg, st, fuel)
    decreases fuel - 1, f, 0
  {
    MoreFuel(order, f.body, f.env + [[Binding(f.param, |st.cells|)]], Alloc(st, arg), fuel - 1, more - 1);
  }

  lemma {:induction false} MoreFuelBlock(order: Order, s: Stat, env: Env, st: Store, fuel: nat, more: nat)
    requires env != [] && fuel <= more && !ExecBlock(order, s, env, st, fuel).Expired?
    ensures ExecBlock(order, s, env, st, more) == ExecBlock(order, s, env, st, fuel)
    decreases fuel, s, 2
  {
    MoreFuel(order, s, env, st, fuel, more);
  }

  /** With more fuel a run that has ended ends in the same way. */
  lemma {:induction false} MoreFuel(order: Order, s: Stat, env: Env, st: Store, fuel: nat, more: nat)
    requires env != [] && fuel <= more && !ExecStat(order, s, env, st, fuel).Expired?
    ensures ExecStat(order, s, env, st, more) == ExecStat(order, s, env, st, fuel)
    decreases fuel, s, 1
  {
    hide EvalExp, ExecBlock;
    match s {
      case Skip =>
      case Break =>
      case LocalFunction(_, _, _) =>
      case Seq(a, b) =>
        MoreFuel(order, a, env, st, fuel, more);
        var r := ExecStat(order, a, env, st, fuel);
        if r.Normal? && r.env != [] {
          MoreFuel(order, b, r.env, r.st, fuel, more);
        }
      case Local(_, e) => MoreFuelExp(order, e, env, st, fuel, more);
      case Assign(_, e) => MoreFuelExp(order, e, env, st, fuel, more);
      case Eval(e) => MoreFuelExp(order, e, env, st, fuel, more);
      case Return(e) => MoreFuelExp(order, e, env, st, fuel, more);
      case Do(a) => MoreFuelBlock(order, a, env, st, fuel, more);
      case If(e, a, b) =>
        MoreFuelExp(order, e, env, st, fuel, more);
        var r := EvalExp(order, e, env, st, fuel);
        if r.Value? {
          MoreFuelBlock(order, if IsTrue(r.v) then a else b, env, r.st, fuel, more);
        }
      case While(e, a) => MoreFuelWhile(order, e, a, env, st, fuel, more);
      case Repeat(a, e) => MoreFuelRepeat(order, a, e, env, st, fuel, more);
    }
  }

  lemma {:induction false} MoreFuelWhile(order: Order, e: Exp, a: Stat, env: Env, st: Store, fuel: nat, more: nat)
    requires env != [] && fuel <= more && !ExecStat(order, While(e, a), env, st, fuel).Expired?
    ensures ExecStat(order, While(e, a), env, st, more) == ExecStat(order, While(e, a), env, st, fuel)
    decreases fuel, While(e, a), 0
  {
    hide EvalExp, ExecBlock;
    MoreFuelExp(order, e, env, st, fuel, more);
    var r := EvalExp(order, e, env, st, fuel);
    if r.Value? && IsTrue(r.v) {
      MoreFuelBlock(order, a, env, r.st, fuel, more);
      var b := ExecBlock(order, a, env, r.st, fuel);
      if b.Normal? {
        MoreFuel(order, While(e, a), env, b.st, fuel - 1, more - 1);
      }
    }
  }

  lemma {:induction false} MoreFuelRepeat(order: Order, a: Stat, e: Exp, env: Env, st: Store, fuel: nat, more: nat)
    requires env != [] && fuel <= more && !ExecStat(order, Repeat(a, e), env, st, fuel).Expired?
    ensures ExecStat(order, Repeat(a, e), env, st, more) == ExecStat(order, Repeat(a, e), env, st, fuel)
    decreases fuel, Repeat(a, e), 0
  {
    hide EvalExp, ExecBlock;
    MoreFuel(order, a, env, st, fuel, more);
    var b := ExecStat(order, a, env, st, fuel);
    if b.Normal? {
      MoreFuelExp(order, e, b.env, b.st, fuel, more);
      var r := EvalExp(order, e, b.env, b.st, fuel);
      if r.Value? && !IsTrue(r.v) {
        MoreFuel(order, Repeat(a, e), env, r.st, fuel - 1, more - 1);
      }
    }
  }

  // ------------------------------------------------------------ loops and conditions

  /** What a loop around `r` makes of it: a break ends the loop alone. */
  function Caught(r: Executed, env: Env): Executed {
    match r
    case Broke(st) => Normal(env, st)
    case _ => r
  }

  /** Of all values only nil fails a test. */
  lemma Conditions(order: Order, n: int, param: Name, body: Stat, a: Stat, b: Stat, env: Env, st: Store, fuel: nat)
    requires env != []
    ensures ExecStat(order, If(Nil, a, b), env, st, fuel) == ExecStat(order, Do(b), env, st, fuel)
    ensures ExecStat(order, If(Num(n), a, b), env, st, fuel) == ExecStat(order, Do(a), env, st, fuel)
    ensures ExecStat(order, If(Function(param, body), a, b), env, st, fuel) == ExecStat(order, Do(a), env, st, fuel)
  {
  }

  /** Numbers are added, and nothing else is. */
  lemma Sums(order: Order, a: int, b: int, e: Exp, env: Env, st: Store, fuel: nat)
    ensures EvalExp(order, Exp.Add(Num(a), Num(b)), env, st, fuel) == Value(NumV(a + b), st)
    ensures !EvalExp(order, Exp.Add(Nil, e), env, st, fuel).Value?
    ensures !EvalExp(order, Exp.Add(Num(a), Nil), env, st, fuel).Value?
  {
  }

  /** A loop that ends is its condition, its body and the loop again. */
  lemma WhileUnfolds(order: Order, e: Exp, a: Stat, env: Env, st: Store, fuel: nat)
    requires env != [] && !ExecStat(order, While(e, a), env, st, fuel).Expired?
    ensures ExecStat(order, While(e, a), env, st, fuel)
         == Caught(ExecStat(order, If(e, Seq(Do(a), While(e, a)), Skip), env, st, fuel), env)
  {
    hide EvalExp;
    var r := EvalExp(order, e, env, st, fuel);
    if r.Value? && IsTrue(r.v) {
      InBlock(order, a, While(e, a), env, r.st, fuel);
      var b := ExecBlock(order, a, env, r.st, fuel);
      if b.Normal? {
        MoreFuel(order, While(e, a), env, b.st, fuel - 1, fuel);
        NoBreakOut(order, While(e, a), env, b.st, fuel);
        LoopEnv(order, e, a, env, b.st, fuel);
      }
    } else if r.Value? {
      assert ExecBlock(order, Skip, env, r.st, fuel) == Normal(env, r.st);
    }
  }

  /** A block in a block. */
  lemma InBlock(order: Order, a: Stat, s: Stat, env: Env, st: Store, fuel: nat)
    requires env != []
    ensures ExecBlock(order, Seq(Do(a), s), env, st, fuel) ==
      var b := ExecBlock(order, a, env, st, fuel);
      if b.Normal? then ExecBlock(order, s, env, b.st, fuel) else b
  {
    assert ExecStat(order, Do(a), env, st, fuel) == ExecBlock(order, a, env, st, fuel);
    if ExecBlock(order, a, env, st, fuel).Normal? {
      BlockEnv(order, a, env, st, fuel);
    }
  }

  lemma BlockEnv(order: Order, a: Stat, env: Env, st: Store, fuel: nat)
    requires env != [] && ExecBlock(order, a, env, st, fuel).Normal?
    ensures ExecBlock(order, a, env, st, fuel).env == env
  {
  }

  lemma {:induction false} LoopEnv(order: Order, e: Exp, a: Stat, env: Env, st: Store, fuel: nat)
    requires env != []
    ensures var r := ExecStat(order, While(e, a), env, st, fuel); r.Normal? ==> r.env == env
    decreases fuel
  {
    hide EvalExp, ExecBlock;
    var r := EvalExp(order, e, env, st, fuel);
    if r.Value? && IsTrue(r.v) && fuel > 0 && ExecBlock(order, a, env, r.st, fuel).Normal? {
      LoopEnv(order, e, a, env, ExecBlock(order, a, env, r.st, fuel).st, fuel - 1);
    }
  }

  /** No break leaves a loop. */
  lemma {:induction false} NoBreakOut(order: Order, s: Stat, env: Env, st: Store, fuel: nat)
    requires env != [] && (s.While? || s.Repeat?)
    ensures !ExecStat(order, s, env, st, fuel).Broke?
    decreases fuel
  {
    hide EvalExp, ExecBlock;
    if s.While? {
      var r := EvalExp(order, s.e, env, st, fuel);
      if r.Value? && IsTrue(r.v) && fuel > 0 {
        var b := ExecBlock(order, s.s, env, r.st, fuel);
        if b.Normal? { NoBreakOut(order, s, env, b.st, fuel - 1); }
      }
    } else {
      var b := ExecStat(order, s.s, env, st, fuel);
      if b.Normal? {
        var r := EvalExp(order, s.e, b.env, b.st, fuel);
        if r.Value? && !IsTrue(r.v) && fuel > 0 { NoBreakOut(order, s, env, r.st, fuel - 1); }
      }
    }
  }

  /** A repetition runs its body once before its condition ends it, and again while that is nil. */
  lemma {:induction false} Repetitions(order: Order, n: int, a: Stat, env: Env, st: Store, fuel: nat)
    requires env != []
    ensures ExecStat(order, Repeat(a, Num(n)), env, st, fuel) == Caught(ExecStat(order, Do(a), env, st, fuel), env)
    ensures ExecStat(order, Repeat(a, Nil), env, st, fuel) == ExecStat(order, While(Num(n), a), env, st, fuel)
    decreases fuel
  {
    var b := ExecStat(order, a, env, st, fuel);
    if b.Normal? && fuel > 0 {
      Repetitions(order, n, a, env, b.st, fuel - 1);
    }
  }

  // --------------------------------------------------------------------- variables

  /** A new variable hides those of its name; every other name means what it meant. */
  lemma Declares(order: Order, x: Name, e: Exp, y: Name, env: Env, st: Store, fuel: nat)
    requires env != [] && EvalExp(order, e, env, st, fuel).Value?
    requires EvalExp(order, Var(y), env, EvalExp(order, e, env, st, fuel).st, fuel).Value?
    ensures var r := EvalExp(order, e, env, st, fuel);
      var d := ExecStat(order, Stat.Local(x, e), env, st, fuel);
      && d.Normal?
      && EvalExp(order, Var(y), d.env, d.st, fuel)
         == Value(if y == x then r.v else EvalExp(order, Var(y), env, r.st, fuel).v, d.st)
  {
    hide EvalExp;
    var r := EvalExp(order, e, env, st, fuel);
    LookupDeclared(env, x, y, |r.st.cells|);
    VarReads(order, y, env, r.st, fuel);
    VarReads(order, y, Declare(env, x, |r.st.cells|), Alloc(r.st, r.v), fuel);
  }

  lemma LookupDeclared(env: Env, x: Name, y: Name, cell: nat)
    requires env != []
    ensures Lookup(Declare(env, x, cell), y) == if y == x then Cell(cell) else Lookup(env, y)
  {
    var top := env[|env| - 1];
    assert (top + [Binding(x, cell)])[..|top|] == top;
    assert Declare(env, x, cell)[..|env| - 1] == env[..|env| - 1];
  }

  lemma VarReads(order: Order, y: Name, env: Env, st: Store, fuel: nat)
    ensures EvalExp(order, Var(y), env, st, fuel) ==
      match Lookup(env, y)
      case NoCell => Value(if y in st.globals then st.globals[y] else NilV, st)
      case Cell(c) => if c < |st.cells| then Value(st.cells[c], st) else Failed
  {
  }

  /** What has been assigned to a name is read there. */
  lemma Assigned(order: Order, x: Name, e: Exp, env: Env, st: Store, fuel: nat)
    requires env != [] && ExecStat(order, Assign(x, e), env, st, fuel).Normal?
    ensures var d := ExecStat(order, Assign(x, e), env, st, fuel);
      && EvalExp(order, e, env, st, fuel).Value?
      && EvalExp(order, Var(x), d.env, d.st, fuel) == Value(EvalExp(order, e, env, st, fuel).v, d.st)
  {
    hide EvalExp, Write;
    var r := EvalExp(order, e, env, st, fuel);
    WriteReads(x, r.v, env, r.st);
    VarReads(order, x, env, ExecStat(order, Assign(x, e), env, st, fuel).st, fuel);
  }

  lemma WriteReads(x: Name, v: Value, env: Env, st: Store)
    ensures var w := Write(env, st, x, v); w.Normal? ==>
      && w.env == env
      && match Lookup(env, x)
         case NoCell => x in w.st.globals && w.st.globals[x] == v
         case Cell(c) => c < |w.st.cells| && w.st.cells[c] == v
  {
  }

  /** A function that returns its parameter returns its argument. */
  lemma Returns(order: Order, p: Name, arg: Exp, env: Env, st: Store, fuel: nat)
    requires fuel > 0 && EvalExp(order, arg, env, st, fuel).Value?
    ensures var r := EvalExp(order, Call(Function(p, Return(Var(p))), arg), env, st, fuel);
      r.Value? && r.v == EvalExp(order, arg, env, st, fuel).v
  {
    var body := Return(Var(p));
    var a := EvalExp(order, arg, env, st, fuel);
    var inner := env + [[Binding(p, |a.st.cells|)]];
    VarReads(order, p, inner, Alloc(a.st, a.v), fuel - 1);
    assert inner[..|env|] == env && LastIn([Binding(p, |a.st.cells|)], p) == 0;
    assert Lookup(inner, p) == Cell(|a.st.cells|);
    assert ExecStat(order, body, inner, Alloc(a.st, a.v), fuel - 1) == Returned(a.v, Alloc(a.st, a.v));
    assert Apply(order, FunV(p, body, env), a.v, a.st, fuel) == Value(a.v, Alloc(a.st, a.v));
    assert EvalExp(order, Function(p, body), env, st, fuel) == Value(FunV(p, body, env), st);
  }
}
