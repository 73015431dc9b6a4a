/**
Running resolved code: registers on a stack, closures with flat lists of
upvalues, and upvalues that point into the stack until they are closed.
*/
module ScopeVm {
  import opened Scopes
  import opened ScopeCode

  datatype Value = NilV | NumV(n: int) | FunV(p: Proto, upvals: seq<nat>)

  /** An upvalue object: it points at a register while it is open and holds its value afterwards. */
  datatype UpVal = Open(slot: nat) | Closed(v: Value)

  datatype Vm = Vm(stack: seq<Value>, ups: seq<UpVal>, globals: map<Name, Value>)

  datatype Evaluated = Value(v: Value, vm: Vm) | Failed | TimedOut

  datatype Executed =
    | Normal(vm: Vm)
    | Broke(vm: Vm)
    | Returned(v: Value, vm: Vm)
    | Wrong
    | Expired

  // ------------------------------------------------------------- upvalues

  /** The open upvalue for register `slot`, or -1. */
  function FindOpen(ups: seq<UpVal>, slot: nat): (k: int)
    ensures -1 <= k < |ups|
    ensures k >= 0 ==> ups[k] == Open(slot)
    ensures k < 0 ==> Open(slot) !in ups
  {
    if ups == [] then -1
    else if ups[|ups| - 1] == Open(slot) then |ups| - 1
    else FindOpen(ups[..|ups| - 1], slot)
  }

  /** `luaF_findupval`. */
  function FindUpval(vm: Vm, slot: nat): (nat, Vm) {
    var k := FindOpen(vm.ups, slot);
    if k >= 0 then (k, vm) else (|vm.ups|, vm.(ups := vm.ups + [Open(slot)]))
  }

  function CloseUpval(u: UpVal, stack: seq<Value>, level: nat): UpVal {
    if u.Open? && level <= u.slot < |stack| then Closed(stack[u.slot]) else u
  }

  /** `luaF_close`. */
  function CloseUpvals(ups: seq<UpVal>, stack: seq<Value>, level: nat): (r: seq<UpVal>)
    ensures |r| == |ups|
    ensures forall k :: 0 <= k < |ups| ==> r[k] == CloseUpval(ups[k], stack, level)
  {
    seq(|ups|, i requires 0 <= i < |ups| => CloseUpval(ups[i], stack, level))
  }

  /** Gives up the registers from `level` on, after an OP_CLOSE if `close`. */
  function Leave(vm: Vm, level: nat, close: bool): Vm {
    vm.(ups := if close then CloseUpvals(vm.ups, vm.stack, level) else vm.ups,
        stack := if level <= |vm.stack| then vm.stack[..level] else vm.stack)
  }

  /** What the upvalue reads, if its register exists. */
  predicate Readable(vm: Vm, id: nat) {
    id < |vm.ups| && (vm.ups[id].Open? ==> vm.ups[id].slot < |vm.stack|)
  }

  function ReadUpval(vm: Vm, id: nat): Value
    requires Readable(vm, id)
  {
    match vm.ups[id]
    case Open(slot) => vm.stack[slot]
    case Closed(v) => v
  }

  function WriteUpval(vm: Vm, id: nat, v: Value): Vm
    requires Readable(vm, id)
  {
    match vm.ups[id]
    case Open(slot) => vm.(stack := vm.stack[slot := v])
    case Closed(_) => vm.(ups := vm.ups[id := Closed(v)])
  }

  // ------------------------------------------------------------- OP_CLOSURE

  datatype Captured = Got(ids: seq<nat>, vm: Vm) | Stuck

  /** The loop of OP_CLOSURE over the instructions that follow it. */
  function Capture(captures: seq<UpvalDesc>, base: nat, upvals: seq<nat>, vm: Vm): Captured {
    if captures == [] then Got([], vm)
    else
      match Capture(captures[..|captures| - 1], base, upvals, vm)
      case Stuck => Stuck
      case Got(ids, vm2) =>
        var u := captures[|captures| - 1];
        if u.fromLocal then
          if base + u.info < |vm2.stack| then
            var (id, vm3) := FindUpval(vm2, base + u.info);
            Got(ids + [id], vm3)
          else Stuck
        else if u.info < |upvals| then Got(ids + [upvals[u.info]], vm2)
        else Stuck
  }

  function MakeClosure(p: Proto, base: nat, upvals: seq<nat>, vm: Vm): Evaluated {
    match Capture(p.captures, base, upvals, vm)
    case Stuck => Failed
    case Got(ids, vm2) => Value(FunV(p, ids), vm2)
  }

  // -------------------------------------------------------------- execution

  function Sum(v: Value, w: Value, vm: Vm): Evaluated {
    if v.NumV? && w.NumV? then Value(NumV(v.n + w.n), vm) else Failed
  }

  /** Expressions. OP_ADD reads a local variable on its left in place, after the right operand has been evaluated. */
  function EvalCode(e: Code, base: nat, upvals: seq<nat>, vm: Vm, fuel: nat): Evaluated
    decreases fuel, e, 0
  {
    match e
    case Nil => Value(NilV, vm)
    case Num(n) => Value(NumV(n), vm)
    case GetLocal(slot) => if base + slot < |vm.stack| then Value(vm.stack[base + slot], vm) else Failed
    case GetUpval(k) =>
      if k < |upvals| && Readable(vm, upvals[k]) then Value(ReadUpval(vm, upvals[k]), vm) else Failed
    case GetGlobal(x) => Value(if x in vm.globals then vm.globals[x] else NilV, vm)
    case Add(l, r) =>
      if l.GetLocal? then
        var b := EvalCode(r, base, upvals, vm, fuel);
        if !b.Value? then b
        else if base + l.slot < |b.vm.stack| then Sum(b.vm.stack[base + l.slot], b.v, b.vm)
        else Failed
      else
        var a := EvalCode(l, base, upvals, vm, fuel);
        if !a.Value? then a
        else
          var b := EvalCode(r, base, upvals, a.vm, fuel);
          if !b.Value? then b else Sum(a.v, b.v, b.vm)
    case Closure(p) => MakeClosure(p, base, upvals, vm)
    case Call(f, arg) =>
      var a := EvalCode(f, base, upvals, vm, fuel);
      if !a.Value? then a
      else
        var b := EvalCode(arg, base, upvals, a.vm, fuel);
        if !b.Value? then b
        else if !a.v.FunV? then Failed
        else if fuel == 0 then TimedOut
        else Apply(a.v, b.v, b.vm, fuel)
  }

  /** Calls a function: its registers begin behind those in use, and OP_RETURN closes what points at them. */
  function Apply(f: Value, arg: Value, vm: Vm, fuel: nat): Evaluated
    requires f.FunV? && fuel > 0
    decreases fuel - 1, f, 0
  {
    var base := |vm.stack|;
    match ExecStmt(f.p.body, base, f.upvals, vm.(stack := vm.stack + [arg]), fuel - 1)
    case Normal(vm2) => Value(NilV, Leave(vm2, base, true))
    case Returned(v, vm2) => Value(v, Leave(vm2, base, true))
    case Broke(_) => Failed
    case Wrong => Failed
    case Expired => TimedOut
  }

  function Stopped(r: Evaluated): Executed
    requires !r.Value?
  {
    if r.Failed? then Wrong else Expired
  }

  function IsTrue(v: Value): bool {
    !v.NilV?
  }

  function StoreTo(target: Target, base: nat, upvals: seq<nat>, vm: Vm, v: Value): Executed {
    match target
    case ToLocal(slot) => if base + slot < |vm.stack| then Normal(vm.(stack := vm.stack[base + slot := v])) else Wrong
    case ToUpval(k) => if k < |upvals| && Readable(vm, upvals[k]) then Normal(WriteUpval(vm, upvals[k], v)) else Wrong
    case ToGlobal(x) => Normal(vm.(globals := vm.globals[x := v]))
  }

  /** A new local function: its register is there before its closure is made. */
  function PushClosure(p: Proto, base: nat, upvals: seq<nat>, vm: Vm): Executed {
    var slot := |vm.stack|;
    var r := MakeClosure(p, base, upvals, vm.(stack := vm.stack + [NilV]));
    if r.Value? && slot < |r.vm.stack| then Normal(r.vm.(stack := r.vm.stack[slot := r.v])) else Wrong
  }

  function ExecStmt(s: Stmt, base: nat, upvals: seq<nat>, vm: Vm, fuel: nat): Executed
    decreases fuel, s, 0
  {
    match s
    case Skip => Normal(vm)
    case Seq(a, b) =>
      (match ExecStmt(a, base, upvals, vm, fuel)
       case Normal(vm2) => ExecStmt(b, base, upvals, vm2, fuel)
       case r => r)
    case Push(e) =>
      var r := EvalCode(e, base, upvals, vm, fuel);
      if !r.Value? then Stopped(r) else Normal(r.vm.(stack := r.vm.stack + [r.v]))
    case PushFunction(p) => PushClosure(p, base, upvals, vm)
    case Store(target, e) =>
      var r := EvalCode(e, base, upvals, vm, fuel);
      if !r.Value? then Stopped(r) else StoreTo(target, base, upvals, r.vm, r.v)
    case Eval(e) =>
      var r := EvalCode(e, base, upvals, vm, fuel);
      if !r.Value? then Stopped(r) else Normal(r.vm)
    case Block(a, level, close) =>
      (match ExecStmt(a, base, upvals, vm, fuel)
       case Normal(vm2) => Normal(Leave(vm2, base + level, close))
       case r => r)
    case If(e, a, b) =>
      var r := EvalCode(e, base, upvals, vm, fuel);
      if !r.Value? then Stopped(r)
      else if IsTrue(r.v) then ExecStmt(a, base, upvals, r.vm, fuel)
      else ExecStmt(b, base, upvals, r.vm, fuel)
    case While(e, a) =>
      var r := EvalCode(e, base, upvals, vm, fuel);
      if !r.Value? then Stopped(r)
      else if !IsTrue(r.v) then Normal(r.vm)
      else
        (match ExecStmt(a, base, upvals, r.vm, fuel)
         case Normal(vm2) => if fuel == 0 then Expired else ExecStmt(s, base, upvals, vm2, fuel - 1)
         case Broke(vm2) => Normal(vm2)
         case r2 => r2)
    case Repeat(a, e, level, close) =>
      (match ExecStmt(a, base, upvals, vm, fuel)
       case Normal(vm2) =>
         var r := EvalCode(e, base, upvals, vm2, fuel);
         if !r.Value? then Stopped(r)
         else if IsTrue(r.v) then Normal(Leave(r.vm, base + level, close))
         else if fuel == 0 then Expired
         else ExecStmt(s, base, upvals, Leave(r.vm, base + level, close), fuel - 1)
       case Broke(vm2) => Normal(vm2)
       case r2 => r2)
    case Break(level, close) => Broke(Leave(vm, base + level, close))
    case Return(e) =>
      var r := EvalCode(e, base, upvals, vm, fuel);
      if !r.Value? then Stopped(r) else Returned(r.v, r.vm)
  }

  /** A whole program: the main function, without parameters or upvalues. */
  function RunCode(s: Stmt, fuel: nat): Executed {
    ExecStmt(s, 0, [], Vm([], [], map[]), fuel)
  }
}
