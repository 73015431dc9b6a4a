/**
The instructions that boolean and jump code uses, what one step of
`luaV_execute` does with them, and the meaning of the expressions compiled.

Metamethods make loads, comparisons and arithmetic observable: each is an event
in the trace, and what it yields may depend on every event before it.
*/
module Bytecode {

  datatype Value = Nil | Bool(b: bool) | Data(n: int)

  /** `l_isfalse`. */
  predicate IsFalse(v: Value) {
    v.Nil? || v == Bool(false)
  }

  datatype Test = EQ | LT | LE

  datatype Operation = ADD | SUB | MUL | DIV | MOD | POW

  /** A variable that is not in a register. */
  datatype Source = Upvalue(index: nat) | Global(name: string)

  datatype Event =
    | Loaded(source: Source)
    | Compared(test: Test, x: Value, y: Value)
    | Computed(op: Operation, x: Value, y: Value)

  datatype Env = Env(
    load: (seq<Event>, Source) -> Value,
    compare: (seq<Event>, Test, Value, Value) -> bool,
    compute: (seq<Event>, Operation, Value, Value) -> Value)

  /** Instructions; `Other` stands for the opcodes no expression here emits. */
  datatype Instr =
    | Move(a: nat, b: nat)
    | LoadBool(a: nat, value: bool, skip: bool)
    | Load(a: nat, source: Source)
    | Invert(a: nat, b: nat)
    | Compute(op: Operation, a: nat, b: nat, c: nat)
    | Jmp(sbx: int)
    | Compare(test: Test, cond: bool, b: nat, c: nat)
    | TestOnly(a: nat, cond: bool)
    | TestSet(a: nat, b: nat, cond: bool)
    | Other(n: int)

  /** `testTMode`: the next instruction is the jump the test controls. */
  predicate IsTest(i: Instr) {
    i.Compare? || i.TestOnly? || i.TestSet?
  }

  datatype Machine = Machine(regs: seq<Value>, trace: seq<Event>)

  function Get(m: Machine, r: nat): Value {
    if r < |m.regs| then m.regs[r] else Nil
  }

  function Put(m: Machine, r: nat, v: Value): Machine {
    if r < |m.regs| then m.(regs := m.regs[r := v]) else m
  }

  // ------------------------------------------------------------ the machine

  datatype Config = At(pc: int, m: Machine) | Stopped

  /** A test was made at `pc`: take the jump that follows, or skip it. */
  function Branch(code: seq<Instr>, pc: nat, taken: bool, m: Machine): Config {
    if !taken then At(pc + 2, m)
    else if pc + 1 < |code| && code[pc + 1].Jmp? then At(pc + 2 + code[pc + 1].sbx, m)
    else Stopped
  }

  /** One round of the loop of `luaV_execute`. */
  function VmStep(env: Env, code: seq<Instr>, pc: int, m: Machine): Config {
    if !(0 <= pc < |code|) then Stopped
    else match code[pc]
      case Move(a, b) => At(pc + 1, Put(m, a, Get(m, b)))
      case LoadBool(a, value, skip) => At(if skip then pc + 2 else pc + 1, Put(m, a, Bool(value)))
      case Jmp(sbx) => At(pc + 1 + sbx, m)
      case Compare(test, cond, b, c) =>
        Branch(code, pc, env.compare(m.trace, test, Get(m, b), Get(m, c)) == cond,
               m.(trace := m.trace + [Compared(test, Get(m, b), Get(m, c))]))
      case TestOnly(a, cond) => Branch(code, pc, IsFalse(Get(m, a)) != cond, m)
      case TestSet(a, b, cond) =>
        var taken := IsFalse(Get(m, b)) != cond;
        Branch(code, pc, taken, if taken then Put(m, a, Get(m, b)) else m)
      case Other(_) => Stopped
      case i =>
        var (v, trace) := Yields(env, i, m);
        At(pc + 1, Put(m.(trace := trace), i.a, v))
  }

  /** Instructions that compute one value into their register `a`. */
  predicate Relocatable(i: Instr) {
    i.Load? || i.Invert? || i.Compute?
  }

  /** The value such an instruction computes, and the trace after it. */
  function Yields(env: Env, i: Instr, m: Machine): (Value, seq<Event>)
    requires Relocatable(i)
  {
    match i
    case Load(_, source) => (env.load(m.trace, source), m.trace + [Loaded(source)])
    case Invert(_, b) => (Bool(IsFalse(Get(m, b))), m.trace)
    case Compute(op, _, b, c) =>
      (env.compute(m.trace, op, Get(m, b), Get(m, c)), m.trace + [Computed(op, Get(m, b), Get(m, c))])
  }

  function VmRun(env: Env, code: seq<Instr>, from: Config, n: nat): Config
    decreases n
  {
    if n == 0 || from.Stopped? then from
    else VmRun(env, code, VmStep(env, code, from.pc, from.m), n - 1)
  }

  /** The machine gets from one configuration to the other. */
  ghost predicate Reaches(env: Env, code: seq<Instr>, from: Config, to: Config) {
    exists n: nat :: VmRun(env, code, from, n) == to
  }

  // ------------------------------------------------------------- expressions

  datatype Relation = Equal | NotEqual | Less | LessEqual | Greater | GreaterEqual

  datatype Expr =
    | Local(reg: nat)
    | Variable(source: Source)
    | Not(x: Expr)
    | And(x: Expr, y: Expr)
    | Or(x: Expr, y: Expr)
    | Related(rel: Relation, x: Expr, y: Expr)
    | Arith(op: Operation, x: Expr, y: Expr)

  /** The test made for a relation between values `x` and `y`, in the order its operands are given to the machine. */
  function TestOf(rel: Relation, x: Value, y: Value): (Test, Value, Value) {
    match rel
    case Equal => (EQ, x, y)
    case NotEqual => (EQ, x, y)
    case Less => (LT, x, y)
    case LessEqual => (LE, x, y)
    case Greater => (LT, y, x)
    case GreaterEqual => (LE, y, x)
  }

  /**
  The value of an expression and the trace after it: operands from left to
  right, the second operand of `and` and `or` only when it is needed.
  */
  function Eval(env: Env, e: Expr, regs: seq<Value>, trace: seq<Event>): (Value, seq<Event>) {
    match e
    case Local(r) => (if r < |regs| then regs[r] else Nil, trace)
    case Variable(source) => (env.load(trace, source), trace + [Loaded(source)])
    case Not(x) =>
      var (v, t) := Eval(env, x, regs, trace);
      (Bool(IsFalse(v)), t)
    case And(x, y) =>
      var (v, t) := Eval(env, x, regs, trace);
      if IsFalse(v) then (v, t) else Eval(env, y, regs, t)
    case Or(x, y) =>
      var (v, t) := Eval(env, x, regs, trace);
      if IsFalse(v) then Eval(env, y, regs, t) else (v, t)
    case Related(rel, x, y) =>
      var (v, t) := Eval(env, x, regs, trace);
      var (w, u) := Eval(env, y, regs, t);
      var (test, a, b) := TestOf(rel, v, w);
      (Bool(env.compare(u, test, a, b) != rel.NotEqual?), u + [Compared(test, a, b)])
    case Arith(op, x, y) =>
      var (v, t) := Eval(env, x, regs, trace);
      var (w, u) := Eval(env, y, regs, t);
      (env.compute(u, op, v, w), u + [Computed(op, v, w)])
  }

  /** Every local variable of the expression is an active one. */
  predicate LocalsBelow(e: Expr, n: nat) {
    match e
    case Local(r) => r < n
    case Variable(_) => true
    case Not(x) => LocalsBelow(x, n)
    case And(x, y) => LocalsBelow(x, n) && LocalsBelow(y, n)
    case Or(x, y) => LocalsBelow(x, n) && LocalsBelow(y, n)
    case Related(_, x, y) => LocalsBelow(x, n) && LocalsBelow(y, n)
    case Arith(_, x, y) => LocalsBelow(x, n) && LocalsBelow(y, n)
  }

  /** Evaluation looks at the registers of active local variables only. */
  lemma {:induction false} EvalLocals(env: Env, e: Expr, n: nat, r1: seq<Value>, r2: seq<Value>, trace: seq<Event>)
    requires LocalsBelow(e, n) && |r1| == |r2| && forall r :: 0 <= r < n && r < |r1| ==> r1[r] == r2[r]
    ensures Eval(env, e, r1, trace) == Eval(env, e, r2, trace)
  {
    match e
    case Local(_) =>
    case Variable(_) =>
    case Not(x) => EvalLocals(env, x, n, r1, r2, trace);
    case And(x, y) =>
      EvalLocals(env, x, n, r1, r2, trace);
      EvalLocals(env, y, n, r1, r2, Eval(env, x, r1, trace).1);
    case Or(x, y) =>
      EvalLocals(env, x, n, r1, r2, trace);
      EvalLocals(env, y, n, r1, r2, Eval(env, x, r1, trace).1);
    case Related(_, x, y) =>
      EvalLocals(env, x, n, r1, r2, trace);
      EvalLocals(env, y, n, r1, r2, Eval(env, x, r1, trace).1);
    case Arith(_, x, y) =>
      EvalLocals(env, x, n, r1, r2, trace);
      EvalLocals(env, y, n, r1, r2, Eval(env, x, r1, trace).1);
  }

  // ------------------------------------------------------------------ its laws

  /** `not` turns the connectives into one another; of all values nil and false are the false ones. */
  lemma Connectives(env: Env, x: Expr, y: Expr, regs: seq<Value>, trace: seq<Event>)
    ensures Eval(env, Not(And(x, y)), regs, trace) == Eval(env, Or(Not(x), Not(y)), regs, trace)
    ensures Eval(env, Not(Or(x, y)), regs, trace) == Eval(env, And(Not(x), Not(y)), regs, trace)
    ensures Eval(env, Not(x), regs, trace).0 == Bool(Eval(env, x, regs, trace).0 in {Nil, Bool(false)})
    ensures var v := Eval(env, x, regs, trace).0;
      && (v in {Nil, Bool(false)} ==> Eval(env, And(x, y), regs, trace) == Eval(env, x, regs, trace))
      && (v !in {Nil, Bool(false)} ==> Eval(env, Or(x, y), regs, trace) == Eval(env, x, regs, trace))
  {
  }

  /** The relations that have no instruction, by those that have one. */
  lemma Relations(env: Env, x: Expr, y: Expr, a: nat, b: nat, regs: seq<Value>, trace: seq<Event>)
    ensures Eval(env, Related(NotEqual, x, y), regs, trace) == Eval(env, Not(Related(Equal, x, y)), regs, trace)
    ensures Eval(env, Related(Greater, Local(a), Local(b)), regs, trace)
         == Eval(env, Related(Less, Local(b), Local(a)), regs, trace)
    ensures Eval(env, Related(GreaterEqual, Local(a), Local(b)), regs, trace)
         == Eval(env, Related(LessEqual, Local(b), Local(a)), regs, trace)
  {
  }
}
