/**
A language of nested functions and blocks, with the lexical scoping of the
reference manual: every declaration makes a new variable, a name is the
innermost declaration around it, and functions share the variables they name.
*/
module ScopeLang {
  import opened Scopes

  datatype Exp =
    | Nil
    | Num(n: int)
    | Var(x: Name)
    | Add(l: Exp, r: Exp)
    | Function(param: Name, body: Stat)
    | Call(f: Exp, a: Exp)

  datatype Stat =
    | Skip
    | Seq(s: Stat, t: Stat)
    | Local(x: Name, e: Exp)
    | LocalFunction(x: Name, param: Name, body: Stat)
    | Assign(x: Name, e: Exp)
    | Eval(e: Exp)
    | Do(s: Stat)
    | If(e: Exp, s: Stat, t: Stat)
    | While(e: Exp, s: Stat)
    | Repeat(s: Stat, e: Exp)
    | Break
    | Return(e: Exp)

  /** A variable: its name and its cell. */
  datatype Binding = Binding(x: Name, cell: nat)

  /** The variables in scope, function by function, the outermost function and the first declaration first. */
  type Env = seq<seq<Binding>>

  datatype Value = NilV | NumV(n: int) | FunV(param: Name, body: Stat, env: Env)

  /** What the cells hold, and the global variables. */
  datatype Store = Store(cells: seq<Value>, globals: map<Name, Value>)

  /**
  When a sum reads its left operand: before the right one is evaluated, or, where it is a local variable of the
  running function, afterwards. The manual leaves this open; the code is of the second kind, because it lets the
  addition read the variable's own register.
  */
  datatype Order = LeftToRight | LocalsLast

  datatype Evaluated = Value(v: Value, st: Store) | Failed | TimedOut

  datatype Executed =
    | Normal(env: Env, st: Store)
    | Broke(st: Store)
    | Returned(v: Value, st: Store)
    | Wrong
    | Expired

  /** The last declaration of `x` in `b`, or -1. */
  function LastIn(b: seq<Binding>, x: Name): (i: int)
    ensures -1 <= i < |b|
    ensures i >= 0 ==> b[i].x == x && forall j :: i < j < |b| ==> b[j].x != x
    ensures i < 0 ==> forall j :: 0 <= j < |b| ==> b[j].x != x
  {
    if b == [] then -1
    else if b[|b| - 1].x == x then |b| - 1
    else LastIn(b[..|b| - 1], x)
  }

  datatype Cell = NoCell | Cell(c: nat)

  /** The innermost variable called `x`. */
  function Lookup(env: Env, x: Name): Cell {
    if env == [] then NoCell
    else
      var level := env[|env| - 1];
      var i := LastIn(level, x);
      if i >= 0 then Cell(level[i].cell) else Lookup(env[..|env| - 1], x)
  }

  function Declare(env: Env, x: Name, cell: nat): Env
    requires env != []
  {
    env[|env| - 1 := env[|env| - 1] + [Binding(x, cell)]]
  }

  function Alloc(st: Store, v: Value): Store {
    st.(cells := st.cells + [v])
  }

  /** Writes `v` to variable `x`; a name not declared is a global variable. */
  function Write(env: Env, st: Store, x: Name, v: Value): (r: Executed)
  {
    match Lookup(env, x)
    case NoCell => Normal(env, st.(globals := st.globals[x := v]))
    case Cell(c) => if c < |st.cells| then Normal(env, st.(cells := st.cells[c := v])) else Wrong
  }

  /** `x` is a variable of the running function itself. */
  predicate IsOwn(env: Env, x: Name) {
    env != [] && LastIn(env[|env| - 1], x) >= 0
  }

  /** The left operand of a sum is read after the right one has been evaluated. */
  predicate ReadLast(order: Order, l: Exp, env: Env) {
    order.LocalsLast? && l.Var? && IsOwn(env, l.x)
  }

  function Sum(v: Value, w: Value, st: Store): Evaluated {
    if v.NumV? && w.NumV? then Value(NumV(v.n + w.n), st) else Failed
  }

  function EvalExp(order: Order, e: Exp, env: Env, st: Store, fuel: nat): Evaluated
    decreases fuel, e, 0
  {
    match e
    case Nil => Value(NilV, st)
    case Num(n) => Value(NumV(n), st)
    case Var(x) =>
      (match Lookup(env, x)
       case NoCell => Value(if x in st.globals then st.globals[x] else NilV, st)
       case Cell(c) => if c < |st.cells| then Value(st.cells[c], st) else Failed)
    case Add(l, r) =>
      if ReadLast(order, l, env) then
        var b := EvalExp(order, r, env, st, fuel);
        if !b.Value? then b
        else
          var a := EvalExp(order, l, env, b.st, fuel);
          if !a.Value? then a else Sum(a.v, b.v, a.st)
      else
        var a := EvalExp(order, l, env, st, fuel);
        if !a.Value? then a
        else
          var b := EvalExp(order, r, env, a.st, fuel);
          if !b.Value? then b else Sum(a.v, b.v, b.st)
    case Function(param, body) => Value(FunV(param, body, env), st)
    case Call(f, arg) =>
      var a := EvalExp(order, f, env, st, fuel);
      if !a.Value? then a
      else
        var b := EvalExp(order, arg, env, a.st, fuel);
        if !b.Value? then b
        else if !a.v.FunV? then Failed
        else if fuel == 0 then TimedOut
        else Apply(order, a.v, b.v, b.st, fuel)
  }

  /** Calls a function: its parameter is a new variable. */
  function Apply(order: Order, f: Value, arg: Value, st: Store, fuel: nat): Evaluated
    requires f.FunV? && fuel > 0
    decreases fuel - 1, f, 0
  {
    var env := f.env + [[Binding(f.param, |st.cells|)]];
    match ExecStat(order, f.body, env, Alloc(st, arg), fuel - 1)
    case Normal(_, st2) => Value(NilV, st2)
    case Returned(v, st2) => Value(v, st2)
    case Broke(_) => Failed
    case Wrong => Failed
    case Expired => TimedOut
  }

  function Stopped(r: Evaluated): Executed
    requires !r.Value?
  {
    if r.Failed? then Wrong else Expired
  }

  function IsTrue(v: Value): bool {
    !v.NilV?
  }

  /** A block: what it declares is out of scope behind it. */
  function ExecBlock(order: Order, s: Stat, env: Env, st: Store, fuel: nat): Executed
    requires env != []
    decreases fuel, s, 1
  {
    match ExecStat(order, s, env, st, fuel)
    case Normal(_, st2) => Normal(env, st2)
    case r => r
  }

  function ExecStat(order: Order, s: Stat, env: Env, st: Store, fuel: nat): Executed
    requires env != []
    decreases fuel, s, 0
  {
    match s
    case Skip => Normal(env, st)
    case Seq(a, b) =>
      (match ExecStat(order, a, env, st, fuel)
       case Normal(env2, st2) => if env2 != [] then ExecStat(order, b, env2, st2, fuel) else Wrong
       case r => r)
    case Local(x, e) =>
      var r := EvalExp(order, e, env, st, fuel);
      if !r.Value? then Stopped(r) else Normal(Declare(env, x, |r.st.cells|), Alloc(r.st, r.v))
    case LocalFunction(x, param, body) =>
      var env2 := Declare(env, x, |st.cells|);
      Normal(env2, Alloc(st, FunV(param, body, env2)))
    case Assign(x, e) =>
      var r := EvalExp(order, e, env, st, fuel);
      if !r.Value? then Stopped(r) else Write(env, r.st, x, r.v)
    case Eval(e) =>
      var r := EvalExp(order, e, env, st, fuel);
      if !r.Value? then Stopped(r) else Normal(env, r.st)
    case Do(a) => ExecBlock(order, a, env, st, fuel)
    case If(e, a, b) =>
      var r := EvalExp(order, e, env, st, fuel);
      if !r.Value? then Stopped(r)
      else if IsTrue(r.v) then ExecBlock(order, a, env, r.st, fuel)
      else ExecBlock(order, b, env, r.st, fuel)
    case While(e, a) =>
      var r := EvalExp(order, e, env, st, fuel);
      if !r.Value? then Stopped(r)
      else if !IsTrue(r.v) then Normal(env, r.st)
      else
        (match ExecBlock(order, a, env, r.st, fuel)
         case Normal(_, st2) => if fuel == 0 then Expired else ExecStat(order, s, env, st2, fuel - 1)
         case Broke(st2) => Normal(env, st2)
         case r2 => r2)
    case Repeat(a, e) =>
      (match ExecStat(order, a, env, st, fuel)
       case Normal(env2, st2) =>
         var r := EvalExp(order, e, env2, st2, fuel);
         if !r.Value? then Stopped(r)
         else if IsTrue(r.v) then Normal(env, r.st)
         else if fuel == 0 then Expired else ExecStat(order, s, env, r.st, fuel - 1)
       case Broke(st2) => Normal(env, st2)
       case r2 => r2)
    case Break => Broke(st)
    case Return(e) =>
      var r := EvalExp(order, e, env, st, fuel);
      if !r.Value? then Stopped(r) else Returned(r.v, r.st)
  }

  /** A whole program: one function without variables, no globals. */
  function RunProgram(order: Order, s: Stat, fuel: nat): Executed {
    ExecStat(order, s, [[]], Store([], map[]), fuel)
  }
}
