/**
Compiled programs do what the language says: the machine's run follows the
run of the program, step for step, for every program that compiles.
*/
module ScopeSim {
  import opened Scopes
  import opened ScopeCode
  import opened ScopeStatic
  import opened ScopeVm
  import opened ScopeRel
  import opened ScopeSteps
  import L = ScopeLang

  // ------------------------------------------------------------- agreement

  /** The machine's evaluation ends as the language's does. */
  ghost predicate ExpAgrees(
      r: L.Evaluated, r2: Evaluated, chain2: seq<Func>, fr: Frame, w: World, w2: World, vm: Vm, later: seq<bool>)
    requires chain2 != []
  {
    match r
    case Value(v, st2) =>
      && r2.Value? && ValueRel(v, r2.v, w2.cellOf) && StoreRel(st2, r2.vm, w2)
      && Keeps(w, w2, vm, r2.vm, fr.base) && OpenOk(later, Top(chain2).blocks, r2.vm, fr.base)
    case Failed => r2.Failed?
    case TimedOut => r2.TimedOut?
  }

  ghost predicate LaterAt(later: seq<bool>, u: UpVal, base: nat) {
    u.Open? && u.slot >= base ==> u.slot - base < |later| && later[u.slot - base]
  }

  ghost predicate AllLater(later: seq<bool>, vm: Vm, base: nat) {
    forall id :: 0 <= id < |vm.ups| ==> LaterAt(later, vm.ups[id], base)
  }

  /** Behind a `break`: the variables declared in the loop are gone, and closed where they were captured. */
  ghost predicate BrokeOk(st2: L.Store, vm2: Vm, fr: Frame, w: World, w2: World, vm: Vm, later: seq<bool>) {
    && StoreRel(st2, vm2, w2) && fr.base + |later| <= |w.cellAt|
    && w2.cellAt == w.cellAt[..fr.base + |later|] && w.cellOf <= w2.cellOf
    && OpenBelow(vm, vm2, fr.base) && AllLater(later, vm2, fr.base)
  }

  ghost predicate ReturnedOk(v: L.Value, y: Value, st2: L.Store, vm2: Vm, base: nat, w: World, w2: World, vm: Vm) {
    && StoreRel(st2, vm2, w2) && ValueRel(v, y, w2.cellOf)
    && base <= |w.cellAt| && base <= |w2.cellAt| && w2.cellAt[..base] == w.cellAt[..base] && w.cellOf <= w2.cellOf
    && OpenBelow(vm, vm2, base)
  }

  ghost predicate NormalOk(
      env2: L.Env, st2: L.Store, vm2: Vm, chain2: seq<Func>, fr: Frame, w: World, w2: World, vm: Vm, later: seq<bool>)
  {
    && Ready(chain2, env2, fr, st2, vm2, w2, later)
    && w.cellAt <= w2.cellAt && w.cellOf <= w2.cellOf && OpenBelow(vm, vm2, fr.base)
  }

  /** The machine's execution ends as the language's does. */
  ghost predicate StatAgrees(
      r: L.Executed, r2: Executed, chain2: seq<Func>, fr: Frame, w: World, w2: World, vm: Vm, later: seq<bool>)
  {
    match r
    case Normal(env2, st2) => r2.Normal? && NormalOk(env2, st2, r2.vm, chain2, fr, w, w2, vm, later)
    case Broke(st2) => r2.Broke? && BrokeOk(st2, r2.vm, fr, w, w2, vm, later)
    case Returned(v, st2) => r2.Returned? && ReturnedOk(v, r2.v, st2, r2.vm, fr.base, w, w2, vm)
    case Wrong => r2.Wrong?
    case Expired => r2.Expired?
  }

  // ------------------------------------------------------- keeping ready

  lemma FrameGrows(chain: seq<Func>, chain2: seq<Func>, env: L.Env, fr: Frame, w: World, w2: World)
    requires FrameRel(chain, env, fr, w) && SameScope(chain, chain2) && w2.cellAt == w.cellAt && w.cellOf <= w2.cellOf
    ensures FrameRel(chain2, env, fr, w2)
  {
    BoundGrows(env[..|env| - 1], fr.full, fr.ids, w.cellOf, w2.cellOf);
    forall d | 0 <= d < |env| ensures LevelIs(env[d], chain2[d].actvar) {
      assert LevelIs(env[d], chain[d].actvar);
    }
  }

  /** The same variables are active. */
  ghost predicate SameScope(a: seq<Func>, b: seq<Func>) {
    |a| == |b| && forall d :: 0 <= d < |a| ==> a[d].actvar == b[d].actvar
  }

  lemma GrowsScope(a: seq<Func>, b: seq<Func>)
    requires Grows(a, b)
    ensures SameScope(a, b)
  {
    forall d | 0 <= d < |a| ensures a[d].actvar == b[d].actvar {
      assert FuncGrows(a[d], b[d]);
    }
  }

  /** Ready again after an expression. */
  lemma ReadyAfter(
      chain: seq<Func>, chain2: seq<Func>, env: L.Env, fr: Frame, st: L.Store, vm: Vm, w: World, st2: L.Store,
      vm2: Vm, w2: World, later: seq<bool>)
    requires Ready(chain, env, fr, st, vm, w, later) && Grows(chain, chain2)
    requires chain2 != [] && StoreRel(st2, vm2, w2) && w2.cellAt == w.cellAt && w.cellOf <= w2.cellOf
    requires OpenOk(later, Top(chain2).blocks, vm2, fr.base)
    ensures Ready(chain2, env, fr, st2, vm2, w2, later)
  {
    hide StoreRel, OpenOk, FrameRel, Grows;
    GrowsScope(chain, chain2);
    FrameGrows(chain, chain2, env, fr, w, w2);
  }

  lemma ReadyGrows(
      chain: seq<Func>, chain2: seq<Func>, env: L.Env, fr: Frame, st: L.Store, vm: Vm, w: World, later: seq<bool>)
    requires chain != [] && Ready(chain, env, fr, st, vm, w, later) && Grows(chain, chain2)
    ensures Ready(chain2, env, fr, st, vm, w, later)
  {
    GrownOpen(chain, chain2, vm, later, fr.base);
    ReadyAfter(chain, chain2, env, fr, st, vm, w, st, vm, w, later);
  }

  lemma WithinBefore(chain: seq<Func>, chain2: seq<Func>, fr: Frame, later: seq<bool>)
    requires Continues(chain, chain2) && Within(chain2, fr, later)
    ensures Within(chain, fr, later)
  {
    LaterOkShrinks(later, Top(chain).blocks, Top(chain2).blocks);
    forall d | 0 <= d < |chain| ensures chain[d].upvalues <= fr.full[d].upvalues {
      assert chain[d].upvalues <= chain2[d].upvalues by {
        if d < |chain| - 1 {
          assert FuncGrows(chain[d], chain2[d]);
        }
      }
    }
  }

  lemma WithinGrown(chain: seq<Func>, chain2: seq<Func>, fr: Frame, later: seq<bool>)
    requires chain != [] && Grows(chain, chain2) && Within(chain2, fr, later)
    ensures Within(chain, fr, later)
  {
    GrowsContinues(chain, chain2);
    WithinBefore(chain, chain2, fr, later);
  }

  lemma KeepsTrans(w: World, w1: World, w2: World, vm: Vm, vm1: Vm, vm2: Vm, base: nat)
    requires Keeps(w, w1, vm, vm1, base) && Keeps(w1, w2, vm1, vm2, base)
    ensures Keeps(w, w2, vm, vm2, base)
  {
    OpenBelowTrans(vm, vm1, vm2, base);
  }

  lemma ExpTrans(
      r: L.Evaluated, r2: Evaluated, chain2: seq<Func>, fr: Frame, w: World, w1: World, w2: World, vm: Vm, vm1: Vm,
      later: seq<bool>)
    requires chain2 != [] && Keeps(w, w1, vm, vm1, fr.base) && ExpAgrees(r, r2, chain2, fr, w1, w2, vm1, later)
    ensures ExpAgrees(r, r2, chain2, fr, w, w2, vm, later)
  {
    hide Keeps;
    if r.Value? {
      KeepsTrans(w, w1, w2, vm, vm1, r2.vm, fr.base);
    }
  }

  lemma StatTrans(
      r: L.Executed, r2: Executed, chain2: seq<Func>, fr: Frame, w: World, w1: World, w2: World, vm: Vm, vm1: Vm,
      later: seq<bool>)
    requires w.cellAt <= w1.cellAt && w.cellOf <= w1.cellOf && OpenBelow(vm, vm1, fr.base)
        && fr.base + |later| <= |w.cellAt|
    requires StatAgrees(r, r2, chain2, fr, w1, w2, vm1, later)
    ensures StatAgrees(r, r2, chain2, fr, w, w2, vm, later)
  {
    hide Ready, StoreRel, OpenBelow, AllLater;
    match r {
      case Normal(_, _) => OpenBelowTrans(vm, vm1, r2.vm, fr.base);
      case Broke(_) => OpenBelowTrans(vm, vm1, r2.vm, fr.base);
      case Returned(_, _) => OpenBelowTrans(vm, vm1, r2.vm, fr.base);
      case Wrong =>
      case Expired =>
    }
  }

  /** The registers in use, of which the variables outside the loop are the first. */
  lemma ReadySizes(chain: seq<Func>, env: L.Env, fr: Frame, st: L.Store, vm: Vm, w: World, later: seq<bool>)
    requires Ready(chain, env, fr, st, vm, w, later)
    ensures chain != [] && |env| == |chain| && |vm.stack| == |w.cellAt| == fr.base + |env[|env| - 1]|
    ensures |env[|env| - 1]| == |Top(chain).actvar| && fr.base + |later| <= |w.cellAt|
  {
    assert LevelIs(env[|env| - 1], chain[|env| - 1].actvar);
  }

  // ------------------------------------------------------------- expressions

  lemma CompileVarSim(
      x: Name, chain: seq<Func>, env: L.Env, fr: Frame, st: L.Store, vm: Vm, w: World, later: seq<bool>, fuel: nat)
    requires chain != [] && StaticOk(chain) && Ready(chain, env, fr, st, vm, w, later)
    requires CompileVar(x, chain).Done? && Within(CompileVar(x, chain).chain, fr, later)
    ensures var c := CompileVar(x, chain);
      ExpAgrees(L.EvalExp(L.LocalsLast, L.Exp.Var(x), env, st, fuel), EvalCode(c.code, fr.base, fr.ids, vm, fuel),
        c.chain, fr, w, w, vm, later)
  {
    hide StoreRel, FrameRel, StaticOk, Grows, OpenOk, OpenBelow;
    var c := CompileVar(x, chain);
    VarSim(x, chain, env, fr, w);
    OpenBelowRefl(vm, vm, fr.base);
    GrownOpen(chain, c.chain, vm, later, fr.base);
    match SingleVarAux(chain, x, true).found {
      case Global => GlobalSim(x, st, vm, w);
      case Local(i) => ReadSlotSim(st, vm, w, fr.base + i);
      case Upvalue(k) => ReadUpvalSim(st, vm, w, fr.ids[k]);
      case TooManyUpvalues =>
    }
  }

  lemma GlobalSim(x: Name, st: L.Store, vm: Vm, w: World)
    requires StoreRel(st, vm, w)
    ensures ValueRel(if x in st.globals then st.globals[x] else L.NilV,
        if x in vm.globals then vm.globals[x] else NilV, w.cellOf)
  {
  }

  /** Two operands, from left to right. */
  ghost predicate OperandsAgree(
      a: L.Evaluated, a2: Evaluated, b: L.Evaluated, b2: Evaluated, chain1: seq<Func>, chain2: seq<Func>, fr: Frame,
      w: World, w1: World, w2: World, vm: Vm, later: seq<bool>)
    requires chain1 != [] && chain2 != []
  {
    && ExpAgrees(a, a2, chain1, fr, w, w1, vm, later)
    && (a.Value? ==> a2.Value? && ExpAgrees(b, b2, chain2, fr, w1, w2, a2.vm, later))
  }

  function Then(a: L.Evaluated, r: L.Exp, env: L.Env, fuel: nat): L.Evaluated {
    if a.Value? then L.EvalExp(L.LocalsLast, r, env, a.st, fuel) else a
  }

  function ThenCode(a: Evaluated, r: Code, base: nat, ids: seq<nat>, fuel: nat): Evaluated {
    if a.Value? then EvalCode(r, base, ids, a.vm, fuel) else a
  }

  lemma {:induction false} SimOperands(
      e: L.Exp, l: L.Exp, r: L.Exp, chain: seq<Func>, env: L.Env, fr: Frame, st: L.Store, vm: Vm, w: World,
      later: seq<bool>, fuel: nat)
    returns (w1: World, w2: World)
    requires e == L.Exp.Add(l, r) || e == L.Exp.Call(l, r)
    requires chain != [] && StaticOk(chain) && Ready(chain, env, fr, st, vm, w, later)
    requires var c := CompileExp(l, chain);
      c.Done? && var d := CompileExp(r, c.chain); d.Done? && Within(d.chain, fr, later)
    ensures var c := CompileExp(l, chain);
      var d := CompileExp(r, c.chain);
      var a, a2 := L.EvalExp(L.LocalsLast, l, env, st, fuel), EvalCode(c.code, fr.base, fr.ids, vm, fuel);
      OperandsAgree(a, a2, Then(a, r, env, fuel), ThenCode(a2, d.code, fr.base, fr.ids, fuel), c.chain, d.chain, fr,
        w, w1, w2, vm, later)
    decreases fuel, e, 0
  {
    hide Ready, StoreRel, StaticOk, Grows, OpenOk, Within, Keeps;
    var c := CompileExp(l, chain);
    var d := CompileExp(r, c.chain);
    WithinGrown(c.chain, d.chain, fr, later);
    w1 := SimExp(l, chain, env, fr, st, vm, w, later, fuel);
    var a, a2 := L.EvalExp(L.LocalsLast, l, env, st, fuel), EvalCode(c.code, fr.base, fr.ids, vm, fuel);
    w2 := w1;
    if a.Value? {
      CompileExpOk(l, chain);
      KeepsReady(chain, c.chain, env, fr, st, vm, w, a.st, a2.vm, w1, later);
      w2 := SimExp(r, c.chain, env, fr, a.st, a2.vm, w1, later, fuel);
    }
  }

  lemma KeepsReady(
      chain: seq<Func>, chain2: seq<Func>, env: L.Env, fr: Frame, st: L.Store, vm: Vm, w: World, st2: L.Store,
      vm2: Vm, w2: World, later: seq<bool>)
    requires Ready(chain, env, fr, st, vm, w, later) && Grows(chain, chain2)
    requires chain2 != [] && StoreRel(st2, vm2, w2) && Keeps(w, w2, vm, vm2, fr.base)
    requires OpenOk(later, Top(chain2).blocks, vm2, fr.base)
    ensures Ready(chain2, env, fr, st2, vm2, w2, later)
  {
    ReadyAfter(chain, chain2, env, fr, st, vm, w, st2, vm2, w2, later);
  }

  /** A call left the caller's registers as they were, and captured none of them. */
  ghost predicate ApplyAgrees(r: L.Evaluated, r2: Evaluated, w: World, w2: World, vm: Vm) {
    match r
    case Value(v, st2) =>
      && r2.Value? && ValueRel(v, r2.v, w2.cellOf) && StoreRel(st2, r2.vm, w2) && Keeps(w, w2, vm, r2.vm, |vm.stack|)
    case Failed => r2.Failed?
    case TimedOut => r2.TimedOut?
  }

  lemma NothingOpened(
      later: seq<bool>, blocks: seq<Scopes.Block>, st2: L.Store, vm: Vm, vm2: Vm, w: World, w2: World, base: nat)
    requires StoreRel(st2, vm2, w2) && Keeps(w, w2, vm, vm2, |vm.stack|) && |w.cellAt| == |vm.stack|
        && base <= |vm.stack|
    requires OpenOk(later, blocks, vm, base)
    ensures OpenOk(later, blocks, vm2, base) && Keeps(w, w2, vm, vm2, base)
  {
    forall id | 0 <= id < |vm2.ups|
      ensures OpenAtOk(later, blocks, vm2.ups[id], base) && StillOpen(vm, vm2, base, id)
    {
      assert UpvalOk(st2, vm2, w2, id);
      assert StillOpen(vm, vm2, |vm.stack|, id);
      if id < |vm.ups| {
        assert OpenAtOk(later, blocks, vm.ups[id], base);
      }
    }
  }

  /** The parser finds a local exactly where the name is a variable of the running function itself. */
  lemma OwnIsLocal(x: Name, chain: seq<Func>, env: L.Env)
    requires chain != [] && EnvIs(env, chain)
    ensures L.IsOwn(env, x) == SingleVarAux(chain, x, true).found.Local?
    ensures L.IsOwn(env, x) ==> SingleVarAux(chain, x, true).chain == chain
  {
    var n := |chain| - 1;
    assert LevelIs(env[n], chain[n].actvar);
    LastInIs(env[n], chain[n].actvar, x);
  }

  /** Which sums read their left operand last: the machine goes by the code, the language by the name. */
  lemma ReadLastIs(l: L.Exp, chain: seq<Func>, env: L.Env)
    requires chain != [] && EnvIs(env, chain) && CompileExp(l, chain).Done?
    ensures L.ReadLast(L.LocalsLast, l, env) == CompileExp(l, chain).code.GetLocal?
  {
    hide Grows;
    if l.Var? {
      OwnIsLocal(l.x, chain, env);
    }
  }

  lemma SumAgrees(
      v: L.Value, x: L.Value, st: L.Store, y: Value, z: Value, chain2: seq<Func>, fr: Frame, w: World, w2: World,
      vm: Vm, vm2: Vm, later: seq<bool>)
    requires chain2 != [] && ValueRel(v, y, w2.cellOf) && ValueRel(x, z, w2.cellOf) && StoreRel(st, vm2, w2)
    requires Keeps(w, w2, vm, vm2, fr.base) && OpenOk(later, Top(chain2).blocks, vm2, fr.base)
    ensures ExpAgrees(L.Sum(v, x, st), Sum(y, z, vm2), chain2, fr, w, w2, vm, later)
  {
    hide StoreRel, Keeps, OpenOk;
  }

  /** A sum whose left operand is a variable of the running function: its register is read last. */
  lemma {:induction false} SimAddLate(
      x: Name, r: L.Exp, chain: seq<Func>, env: L.Env, fr: Frame, st: L.Store, vm: Vm, w: World, later: seq<bool>,
      fuel: nat)
    returns (w2: World)
    requires var e := L.Exp.Add(L.Exp.Var(x), r);
      && chain != [] && StaticOk(chain) && Ready(chain, env, fr, st, vm, w, later) && L.IsOwn(env, x)
      && CompileExp(e, chain).Done? && Within(CompileExp(e, chain).chain, fr, later)
    ensures var e := L.Exp.Add(L.Exp.Var(x), r);
      var c := CompileExp(e, chain);
      ExpAgrees(L.EvalExp(L.LocalsLast, e, env, st, fuel), EvalCode(c.code, fr.base, fr.ids, vm, fuel), c.chain, fr,
        w, w2, vm, later)
    decreases fuel, L.Exp.Add(L.Exp.Var(x), r), 1
  {
    hide StoreRel, FrameRel, StaticOk, Grows, OpenOk, Within, OpenBelow, ValueRel, SingleVarAux, L.Lookup, L.Sum, Sum;
    OwnIsLocal(x, chain, env) by {
      ReadyEnv(chain, env, fr, st, vm, w, later);
    }
    var found := SingleVarAux(chain, x, true).found;
    var d := CompileExp(r, chain);
    WithinKept(d.chain, fr, later);
    UpvaluesBefore(chain, d.chain, fr);
    VarSim(x, chain, env, fr, w);
    w2 := SimExp(r, chain, env, fr, st, vm, w, later, fuel);
    var b, b2 := L.EvalExp(L.LocalsLast, r, env, st, fuel), EvalCode(d.code, fr.base, fr.ids, vm, fuel);
    if b.Value? {
      PlacedGrows(found, x, env, fr, w, w2);
      ReadSlotSim(b.st, b2.vm, w2, fr.base + found.slot);
      SumAgrees(b.st.cells[w2.cellAt[fr.base + found.slot]], b.v, b.st, b2.vm.stack[fr.base + found.slot], b2.v,
        d.chain, fr, w, w2, vm, b2.vm, later);
    }
  }

  lemma ReadyEnv(chain: seq<Func>, env: L.Env, fr: Frame, st: L.Store, vm: Vm, w: World, later: seq<bool>)
    requires Ready(chain, env, fr, st, vm, w, later)
    ensures chain != [] && EnvIs(env, chain)
  {
  }

  lemma UpvaluesBefore(chain: seq<Func>, chain2: seq<Func>, fr: Frame)
    requires chain != [] && Grows(chain, chain2) && UpvaluesKept(chain2, fr.full)
    ensures UpvaluesKept(chain, fr.full)
  {
    forall d | 0 <= d < |chain| ensures chain[d].upvalues <= fr.full[d].upvalues {
      assert FuncGrows(chain[d], chain2[d]);
    }
  }

  /** A sum of anything else: its operands are evaluated from left to right. */
  lemma {:induction false} SimAddEarly(
      l: L.Exp, r: L.Exp, chain: seq<Func>, env: L.Env, fr: Frame, st: L.Store, vm: Vm, w: World, later: seq<bool>,
      fuel: nat)
    returns (w2: World)
    requires var e := L.Exp.Add(l, r);
      && chain != [] && StaticOk(chain) && Ready(chain, env, fr, st, vm, w, later) && !L.ReadLast(L.LocalsLast, l, env)
      && CompileExp(e, chain).Done? && Within(CompileExp(e, chain).chain, fr, later)
    ensures var e := L.Exp.Add(l, r);
      var c := CompileExp(e, chain);
      ExpAgrees(L.EvalExp(L.LocalsLast, e, env, st, fuel), EvalCode(c.code, fr.base, fr.ids, vm, fuel), c.chain, fr,
        w, w2, vm, later)
    decreases fuel, L.Exp.Add(l, r), 1
  {
    hide Ready, StoreRel, StaticOk, Grows, OpenOk, Within, Keeps, ValueRel, L.Sum, Sum, L.ReadLast;
    ReadyEnv(chain, env, fr, st, vm, w, later);
    ReadLastIs(l, chain, env);
    var w1;
    w1, w2 := SimOperands(L.Exp.Add(l, r), l, r, chain, env, fr, st, vm, w, later, fuel);
    var c := CompileExp(l, chain);
    var d := CompileExp(r, c.chain);
    var a, a2 := L.EvalExp(L.LocalsLast, l, env, st, fuel), EvalCode(c.code, fr.base, fr.ids, vm, fuel);
    if a.Value? {
      var b, b2 := Then(a, r, env, fuel), ThenCode(a2, d.code, fr.base, fr.ids, fuel);
      ExpTrans(b, b2, d.chain, fr, w, w1, w2, vm, a2.vm, later);
      if b.Value? {
        KeptValue(a.v, a2.v, w1, w2, a2.vm, b2.vm, fr.base);
        SumAgrees(a.v, b.v, b.st, a2.v, b2.v, d.chain, fr, w, w2, vm, b2.vm, later);
      }
    }
  }

  lemma KeptValue(v: L.Value, y: Value, w: World, w2: World, vm: Vm, vm2: Vm, base: nat)
    requires ValueRel(v, y, w.cellOf) && Keeps(w, w2, vm, vm2, base)
    ensures ValueRel(v, y, w2.cellOf)
  {
    ValueGrows(v, y, w.cellOf, w2.cellOf);
  }

  lemma {:induction false} SimCall(
      f: L.Exp, arg: L.Exp, chain: seq<Func>, env: L.Env, fr: Frame, st: L.Store, vm: Vm, w: World, later: seq<bool>,
      fuel: nat)
    returns (w2: World)
    requires var e := L.Exp.Call(f, arg);
      && chain != [] && StaticOk(chain) && Ready(chain, env, fr, st, vm, w, later)
      && CompileExp(e, chain).Done? && Within(CompileExp(e, chain).chain, fr, later)
    ensures var e := L.Exp.Call(f, arg);
      var c := CompileExp(e, chain);
      ExpAgrees(L.EvalExp(L.LocalsLast, e, env, st, fuel), EvalCode(c.code, fr.base, fr.ids, vm, fuel),
        c.chain, fr, w, w2, vm, later)
    decreases fuel, L.Exp.Call(f, arg), 1
  {
    hide ValueRel, ExecStmt, L.ExecStat, StoreRel, FrameRel, StaticOk, Grows, OpenOk, Within, L.Apply, Apply, OpenBelow;
    ReadySizes(chain, env, fr, st, vm, w, later);
    var w1;
    w1, w2 := SimOperands(L.Exp.Call(f, arg), f, arg, chain, env, fr, st, vm, w, later, fuel);
    var c := CompileExp(f, chain);
    var d := CompileExp(arg, c.chain);
    var a, a2 := L.EvalExp(L.LocalsLast, f, env, st, fuel), EvalCode(c.code, fr.base, fr.ids, vm, fuel);
    if a.Value? {
      var b, b2 := Then(a, arg, env, fuel), ThenCode(a2, d.code, fr.base, fr.ids, fuel);
      ExpTrans(b, b2, d.chain, fr, w, w1, w2, vm, a2.vm, later);
      SameKind(a.v, a2.v, w1.cellOf);
      if b.Value? && a.v.FunV? && fuel > 0 {
        ValueGrows(a.v, a2.v, w1.cellOf, w2.cellOf);
        StoreSizes(b.st, b2.vm, w2);
        var w3 := ApplySim(a.v, a2.v, b.v, b2.v, b.st, b2.vm, w2, fuel);
        CallAgrees(L.Apply(L.LocalsLast, a.v, b.v, b.st, fuel), Apply(a2.v, b2.v, b2.vm, fuel), d.chain, fr, w, w2,
          w3, vm, b2.vm, later);
        w2 := w3;
      }
    }
  }

  lemma SameKind(v: L.Value, y: Value, cellOf: seq<nat>)
    requires ValueRel(v, y, cellOf)
    ensures v.FunV? == y.FunV?
  {
  }

  lemma CallAgrees(
      r: L.Evaluated, r2: Evaluated, chain2: seq<Func>, fr: Frame, w: World, w1: World, w2: World, vm: Vm, vm1: Vm,
      later: seq<bool>)
    requires chain2 != [] && ApplyAgrees(r, r2, w1, w2, vm1) && Keeps(w, w1, vm, vm1, fr.base)
    requires |w1.cellAt| == |vm1.stack| && fr.base <= |vm1.stack| && OpenOk(later, Top(chain2).blocks, vm1, fr.base)
    ensures ExpAgrees(r, r2, chain2, fr, w, w2, vm, later)
  {
    hide StoreRel, OpenOk, OpenBelow;
    if r.Value? {
      NothingOpened(later, Top(chain2).blocks, r.st, vm1, r2.vm, w1, w2, fr.base);
      KeepsTrans(w, w1, w2, vm, vm1, r2.vm, fr.base);
    }
  }

  /** Evaluating an expression. */
  lemma {:induction false} SimExp(
      e: L.Exp, chain: seq<Func>, env: L.Env, fr: Frame, st: L.Store, vm: Vm, w: World, later: seq<bool>, fuel: nat)
    returns (w2: World)
    requires chain != [] && StaticOk(chain) && Ready(chain, env, fr, st, vm, w, later)
    requires CompileExp(e, chain).Done? && Within(CompileExp(e, chain).chain, fr, later)
    ensures var c := CompileExp(e, chain);
      ExpAgrees(L.EvalExp(L.LocalsLast, e, env, st, fuel), EvalCode(c.code, fr.base, fr.ids, vm, fuel),
        c.chain, fr, w, w2, vm, later)
    decreases fuel, e, 2
  {
    hide StoreRel, FrameRel, StaticOk, OpenOk, Within, OpenBelow, Grows, CompileVar, CompileFunction;
    w2 := w;
    match e {
      case Nil => OpenBelowRefl(vm, vm, fr.base);
      case Num(_) => OpenBelowRefl(vm, vm, fr.base);
      case Var(x) => CompileVarSim(x, chain, env, fr, st, vm, w, later, fuel);
      case Add(l, r) =>
        if L.ReadLast(L.LocalsLast, l, env) {
          w2 := SimAddLate(l.x, r, chain, env, fr, st, vm, w, later, fuel);
        } else {
          w2 := SimAddEarly(l, r, chain, env, fr, st, vm, w, later, fuel);
        }
      case Function(param, body) => w2 := ClosureSim(param, body, chain, env, fr, st, vm, w, later);
      case Call(f, a) => w2 := SimCall(f, a, chain, env, fr, st, vm, w, later, fuel);
    }
  }

  // ------------------------------------------------------------- calls

  /** The machine ready to run a function's body: its parameter in the first register. */
  lemma EnterFunction(chain: seq<Func>, f: L.Value, g: Value, arg: L.Value, y: Value, st: L.Store, vm: Vm, w: World)
    requires f.FunV? && g.FunV? && FunRel(chain, f, g.p, g.upvals, w.cellOf)
    requires StoreRel(st, vm, w) && ValueRel(arg, y, w.cellOf)
    ensures StaticOk(OpenFunc(chain, f.param))
    ensures var full := CompileBody(f.param, f.body, chain).chain;
      var fr := Frame(|vm.stack|, g.upvals, full);
      && Ready(OpenFunc(chain, f.param), f.env + [[L.Binding(f.param, |st.cells|)]], fr, L.Alloc(st, arg),
               vm.(stack := vm.stack + [y]), Pushed(w, st), [])
      && Within(full, fr, [])
  {
    hide StoreRel, ValueRel, StaticOk, CompileBody, Bound;
    OpenFuncOk(chain, f.param);
    PushSim(st, vm, w, arg, y);
    StoreSizes(st, vm, w);
    var env := f.env + [[L.Binding(f.param, |st.cells|)]];
    var chain2 := OpenFunc(chain, f.param);
    forall d | 0 <= d < |env| ensures LevelIs(env[d], chain2[d].actvar) {
      if d < |f.env| {
        assert LevelIs(f.env[d], chain[d].actvar);
      }
    }
    assert env[..|env| - 1] == f.env;
    forall id | 0 <= id < |vm.ups| ensures OpenAtOk([], Top(chain2).blocks, vm.ups[id], |vm.stack|) {
    }
  }

  /** Leaving a function: its registers are closed and given up, and its caller's are as they were. */
  lemma LeaveFunction(st2: L.Store, vm: Vm, vm2: Vm, w: World, w2: World)
    requires StoreRel(st2, vm2, w2) && |w.cellAt| == |vm.stack| <= |w2.cellAt|
    requires w2.cellAt[..|vm.stack|] == w.cellAt && w.cellOf <= w2.cellOf && OpenBelow(vm, vm2, |vm.stack|)
    ensures var vm3 := Leave(vm2, |vm.stack|, true);
      StoreRel(st2, vm3, World(w.cellAt, w2.cellOf)) && Keeps(w, World(w.cellAt, w2.cellOf), vm, vm3, |vm.stack|)
  {
    hide ValueRel, Leave;
    var base := |vm.stack|;
    StoreSizes(st2, vm2, w2);
    LeaveSim(st2, vm2, w2, base, true);
    LeaveBelow(vm2, base, base);
    OpenBelowTrans(vm, vm2, Leave(vm2, base, true), base);
  }

  lemma LeaveBelow(vm: Vm, level: nat, base: nat)
    ensures OpenBelow(vm, Leave(vm, level, true), base)
  {
    var vm2 := Leave(vm, level, true);
    forall id | 0 <= id < |vm2.ups| ensures StillOpen(vm, vm2, base, id) {
    }
  }

  /** Calling a closure does what calling the function does. */
  lemma {:induction false} ApplySim(
      f: L.Value, g: Value, arg: L.Value, y: Value, st: L.Store, vm: Vm, w: World, fuel: nat)
    returns (w2: World)
    requires fuel > 0 && f.FunV? && ValueRel(f, g, w.cellOf) && ValueRel(arg, y, w.cellOf) && StoreRel(st, vm, w)
    ensures g.FunV? && ApplyAgrees(L.Apply(L.LocalsLast, f, arg, st, fuel), Apply(g, y, vm, fuel), w, w2, vm)
    decreases fuel - 1, f, 0
  {
    hide StoreRel, Ready, StaticOk, Within, CompileStat, OpenBelow, Leave;
    var chain :| FunRel(chain, f, g.p, g.upvals, w.cellOf);
    EnterFunction(chain, f, g, arg, y, st, vm, w);
    StoreSizes(st, vm, w);
    var fr := Frame(|vm.stack|, g.upvals, CompileBody(f.param, f.body, chain).chain);
    var env, w1 := f.env + [[L.Binding(f.param, |st.cells|)]], Pushed(w, st);
    var vm1 := vm.(stack := vm.stack + [y]);
    var chain1 := OpenFunc(chain, f.param);
    var w3 := SimStat(f.body, chain1, env, fr, L.Alloc(st, arg), vm1, w1, [], fuel - 1);
    var r := L.ExecStat(L.LocalsLast, f.body, env, L.Alloc(st, arg), fuel - 1);
    var r2 := ExecStmt(g.p.body, fr.base, g.upvals, vm1, fuel - 1);
    w2 := World(w.cellAt, w3.cellOf);
    BodyAgrees(r, r2, fr, st, vm, vm1, w, w1, w3);
  }

  lemma BodyAgrees(r: L.Executed, r2: Executed, fr: Frame, st: L.Store, vm: Vm, vm1: Vm, w: World, w1: World, w3: World)
    requires StatAgrees(r, r2, fr.full, fr, w1, w3, vm1, [])
    requires fr.base == |vm.stack| == |w.cellAt| && w1 == Pushed(w, st) && vm1.ups == vm.ups
    ensures match r
      case Normal(_, st2) =>
        && r2.Normal? && StoreRel(st2, Leave(r2.vm, fr.base, true), World(w.cellAt, w3.cellOf))
        && Keeps(w, World(w.cellAt, w3.cellOf), vm, Leave(r2.vm, fr.base, true), |vm.stack|)
      case Returned(v, st2) =>
        && r2.Returned? && StoreRel(st2, Leave(r2.vm, fr.base, true), World(w.cellAt, w3.cellOf))
        && ValueRel(v, r2.v, w3.cellOf)
        && Keeps(w, World(w.cellAt, w3.cellOf), vm, Leave(r2.vm, fr.base, true), |vm.stack|)
      case Broke(_) => r2.Broke?
      case Wrong => r2.Wrong?
      case Expired => r2.Expired?
  {
    hide StoreRel, FrameRel, OpenOk, OpenBelow, Leave;
    OpenBelowRefl(vm, vm1, fr.base);
    match r {
      case Normal(_, st2) =>
        OpenBelowTrans(vm, vm1, r2.vm, fr.base);
        LeaveFunction(st2, vm, r2.vm, w, w3);
      case Returned(_, st2) =>
        OpenBelowTrans(vm, vm1, r2.vm, fr.base);
        LeaveFunction(st2, vm, r2.vm, w, w3);
      case Broke(_) =>
      case Wrong =>
      case Expired =>
    }
  }

  // ------------------------------------------------------------- blocks

  /** The number of variables outside the innermost loop. */
  function LoopLevel(blocks: seq<Scopes.Block>): nat {
    match BreakOut(blocks)
    case NoLoop => 0
    case Exit(level, _) => level
  }

  lemma {:induction false} LoopLevelGrows(a: seq<Scopes.Block>, b: seq<Scopes.Block>)
    requires BlocksGrow(a, b)
    ensures LoopLevel(a) == LoopLevel(b) && BreakOut(a).NoLoop? == BreakOut(b).NoLoop?
  {
    if a != [] {
      var t := |a| - 1;
      assert a[t].isBreakable == b[t].isBreakable;
      LoopLevelGrows(a[..t], b[..t]);
    }
  }

  lemma MarkedBelow(blocks: seq<Scopes.Block>, bl: Scopes.Block, i: nat)
    ensures i < bl.nactvar ==> Marked(blocks + [bl], i) == Marked(blocks, i)
    ensures i >= bl.nactvar ==> Marked(blocks + [bl], i) == bl.upval
  {
    assert (blocks + [bl])[..|blocks|] == blocks;
  }

  lemma EnterScope(chain: seq<Func>, isBreakable: bool)
    requires chain != []
    ensures SameScope(chain, EnterBlock(chain, isBreakable))
  {
  }

  /** Entering a block changes nothing for the machine. */
  lemma EnterReady(
      chain: seq<Func>, isBreakable: bool, env: L.Env, fr: Frame, st: L.Store, vm: Vm, w: World, later: seq<bool>)
    requires chain != [] && Ready(chain, env, fr, st, vm, w, later)
    ensures Ready(EnterBlock(chain, isBreakable), env, fr, st, vm, w, later)
  {
    hide StoreRel, FrameRel, Marked;
    var chain2 := EnterBlock(chain, isBreakable);
    EnterScope(chain, isBreakable);
    FrameGrows(chain, chain2, env, fr, w, w);
    ReadySizes(chain, env, fr, st, vm, w, later);
    forall id | 0 <= id < |vm.ups| ensures OpenAtOk(later, Top(chain2).blocks, vm.ups[id], fr.base) {
      var u := vm.ups[id];
      assert OpenAtOk(later, Top(chain).blocks, u, fr.base);
      if u.Open? && u.slot >= fr.base {
        OpenSlot(st, vm, w, id);
        MarkedBelow(Top(chain).blocks, Scopes.Block(|Top(chain).actvar|, false, isBreakable), u.slot - fr.base);
      }
    }
  }

  lemma OpenSlot(st: L.Store, vm: Vm, w: World, id: nat)
    requires StoreRel(st, vm, w) && id < |vm.ups| && vm.ups[id].Open?
    ensures vm.ups[id].slot < |vm.stack|
  {
    assert UpvalOk(st, vm, w, id);
  }

  /** What is in time behind a block is in time in it. */
  lemma WithinInner(inner: seq<Func>, fr: Frame, later: seq<bool>)
    requires inner != [] && Top(inner).blocks != [] && |later| <= Innermost(inner).nactvar <= |Top(inner).actvar|
    requires Within(LeaveBlock(inner), fr, later)
    ensures Within(inner, fr, later)
  {
    hide Marked;
    var chain2 := LeaveBlock(inner);
    var b := Top(inner).blocks;
    assert b == Top(chain2).blocks + [Innermost(inner)];
    forall i | 0 <= i < |later| && Marked(b, i) ensures later[i] {
      MarkedBelow(Top(chain2).blocks, Innermost(inner), i);
    }
    forall d | 0 <= d < |inner| ensures inner[d].upvalues <= fr.full[d].upvalues {
      assert chain2[d].upvalues <= fr.full[d].upvalues;
    }
  }

  /** The variables of a block that is left unclosed have not been captured. */
  lemma UnmarkedNotOpen(later: seq<bool>, blocks: seq<Scopes.Block>, bl: Scopes.Block, vm: Vm, base: nat)
    requires OpenOk(later, blocks + [bl], vm, base) && |later| <= bl.nactvar && !bl.upval
    ensures NoneOpen(vm, base + bl.nactvar)
  {
    hide Marked;
    forall id | 0 <= id < |vm.ups| ensures !OpenFrom(vm.ups[id], base + bl.nactvar) {
      var u := vm.ups[id];
      assert OpenAtOk(later, blocks + [bl], u, base);
      if u.Open? && u.slot >= base {
        MarkedBelow(blocks, bl, u.slot - base);
      }
    }
  }

  lemma OpenOutside(later: seq<bool>, blocks: seq<Scopes.Block>, bl: Scopes.Block, vm: Vm, base: nat)
    requires OpenOk(later, blocks + [bl], vm, base) && NoneOpen(vm, base + bl.nactvar)
    ensures OpenOk(later, blocks, vm, base)
  {
    hide Marked;
    forall id | 0 <= id < |vm.ups| ensures OpenAtOk(later, blocks, vm.ups[id], base) {
      var u := vm.ups[id];
      assert OpenAtOk(later, blocks + [bl], u, base) && !OpenFrom(u, base + bl.nactvar);
      if u.Open? && u.slot >= base {
        MarkedBelow(blocks, bl, u.slot - base);
      }
    }
  }

  /** Leaving a block, with an OP_CLOSE exactly if the parser has marked it. */
  lemma BlockLeave(
      chain: seq<Func>, isBreakable: bool, inner: seq<Func>, env: L.Env, fr: Frame, st: L.Store, vm: Vm, w: World,
      env1: L.Env, st1: L.Store, vm1: Vm, w1: World, later: seq<bool>)
    requires chain != [] && Ready(chain, env, fr, st, vm, w, later) && Continues(EnterBlock(chain, isBreakable), inner)
    requires inner != [] && NormalOk(env1, st1, vm1, inner, fr, w, w1, vm, later)
    ensures Top(inner).blocks != [] && Innermost(inner).nactvar == |Top(chain).actvar| <= |Top(inner).actvar|
    ensures var bl := Innermost(inner);
      NormalOk(env, st1, Leave(vm1, fr.base + bl.nactvar, bl.upval), LeaveBlock(inner), fr, w,
        World(w.cellAt, w1.cellOf), vm, later)
  {
    hide StoreRel, FrameRel, OpenOk, NoneOpen, Continues, OpenBelow, Leave, Grows;
    BlockContinues(chain, isBreakable, inner);
    var bl := Innermost(inner);
    var level := fr.base + bl.nactvar;
    var vm2, w2 := Leave(vm1, level, bl.upval), World(w.cellAt, w1.cellOf);
    var blocks := Top(LeaveBlock(inner)).blocks;
    assert Top(inner).blocks == blocks + [bl];
    ReadySizes(chain, env, fr, st, vm, w, later);
    StoreSizes(st1, vm1, w1);
    assert w1.cellAt[..level] == w.cellAt;
    if !bl.upval {
      UnmarkedNotOpen(later, blocks, bl, vm1, fr.base);
    }
    LeaveSim(st1, vm1, w1, level, bl.upval);
    LeaveOpen(later, Top(inner).blocks, vm1, fr.base, level, bl.upval);
    OpenOutside(later, blocks, bl, vm2, fr.base);
    OpenBelowTrans(vm, vm1, vm2, fr.base);
    GrowsScope(chain, LeaveBlock(inner));
    FrameGrows(chain, LeaveBlock(inner), env, fr, w, w2);
  }

  lemma {:induction false} SimBlock(
      s: L.Stat, chain: seq<Func>, env: L.Env, fr: Frame, st: L.Store, vm: Vm, w: World, later: seq<bool>, fuel: nat)
    returns (w2: World)
    requires chain != [] && StaticOk(EnterBlock(chain, false)) && Ready(chain, env, fr, st, vm, w, later)
    requires CompileBlock(s, chain).Done? && Within(CompileBlock(s, chain).chain, fr, later)
    requires |later| == LoopLevel(Top(chain).blocks)
    ensures env != []
    ensures var c := CompileBlock(s, chain);
      StatAgrees(L.ExecBlock(L.LocalsLast, s, env, st, fuel), ExecStmt(c.code, fr.base, fr.ids, vm, fuel), c.chain,
        fr, w, w2, vm, later)
    decreases fuel, s, 5
  {
    hide StoreRel, Ready, StaticOk, Within, Continues, CompileStat, LeaveBlock, Leave, OpenBelow;
    var chain1 := EnterBlock(chain, false);
    var c := CompileStat(s, chain1);
    BlockContinues(chain, false, c.chain);
    EnterReady(chain, false, env, fr, st, vm, w, later);
    ReadySizes(chain, env, fr, st, vm, w, later);
    LaterFits(chain, env, fr, st, vm, w, later);
    WithinInner(c.chain, fr, later);
    assert Top(chain1).blocks[..|Top(chain).blocks|] == Top(chain).blocks;
    w2 := SimStat(s, chain1, env, fr, st, vm, w, later, fuel);
    var r, r2 := L.ExecStat(L.LocalsLast, s, env, st, fuel), ExecStmt(c.code, fr.base, fr.ids, vm, fuel);
    if r.Normal? {
      BlockLeave(chain, false, c.chain, env, fr, st, vm, w, r.env, r.st, r2.vm, w2, later);
      w2 := World(w.cellAt, w2.cellOf);
    }
  }

  lemma LaterFits(chain: seq<Func>, env: L.Env, fr: Frame, st: L.Store, vm: Vm, w: World, later: seq<bool>)
    requires Ready(chain, env, fr, st, vm, w, later)
    ensures chain != [] && |later| <= |Top(chain).actvar|
  {
  }

  // ------------------------------------------------------------- loops

  /** Which variables outside a loop will be closed: those outside the loop around it, and those marked by its end. */
  ghost function LaterFor(later: seq<bool>, blocks: seq<Scopes.Block>, n: nat): (r: seq<bool>)
    ensures |r| == n && forall i :: 0 <= i < n ==> r[i] == WillClose(later, blocks, i)
  {
    seq(n, i requires 0 <= i < n => WillClose(later, blocks, i))
  }

  /** In a loop, whatever is captured outside of it will be closed. */
  lemma LoopEnter(
      chain: seq<Func>, chain2: seq<Func>, env: L.Env, fr: Frame, st: L.Store, vm: Vm, w: World, later: seq<bool>)
    requires chain != [] && Ready(chain, env, fr, st, vm, w, later) && Grows(chain, chain2) && Within(chain2, fr, later)
    ensures var later2 := LaterFor(later, Top(chain2).blocks, |Top(chain).actvar|);
      Ready(chain, env, fr, st, vm, w, later2) && Within(chain2, fr, later2)
  {
    hide StoreRel, FrameRel, Marked;
    ReadySizes(chain, env, fr, st, vm, w, later);
    GrownOpen(chain, chain2, vm, later, fr.base);
    var later2 := LaterFor(later, Top(chain2).blocks, |Top(chain).actvar|);
    forall id | 0 <= id < |vm.ups| ensures OpenAtOk(later2, Top(chain).blocks, vm.ups[id], fr.base) {
      assert OpenAtOk(later, Top(chain2).blocks, vm.ups[id], fr.base);
      if vm.ups[id].Open? {
        OpenSlot(st, vm, w, id);
      }
    }
  }

  lemma LoopLeave(chain2: seq<Func>, env: L.Env, fr: Frame, st: L.Store, vm: Vm, w: World, later: seq<bool>, n: nat)
    requires chain2 != [] && |later| <= n && Ready(chain2, env, fr, st, vm, w, LaterFor(later, Top(chain2).blocks, n))
    ensures Ready(chain2, env, fr, st, vm, w, later)
  {
    hide StoreRel, FrameRel, Marked;
    var later2 := LaterFor(later, Top(chain2).blocks, n);
    forall id | 0 <= id < |vm.ups| ensures OpenAtOk(later, Top(chain2).blocks, vm.ups[id], fr.base) {
      assert OpenAtOk(later2, Top(chain2).blocks, vm.ups[id], fr.base);
    }
  }

  /** Where all active variables are outside the loop, it does not matter which blocks are open. */
  lemma LoopReady(
      chain: seq<Func>, chain2: seq<Func>, env: L.Env, fr: Frame, st: L.Store, vm: Vm, w: World, later: seq<bool>)
    requires Ready(chain, env, fr, st, vm, w, later) && SameScope(chain, chain2) && |later| == |Top(chain).actvar|
    ensures Ready(chain2, env, fr, st, vm, w, later)
  {
    hide StoreRel, FrameRel;
    FrameGrows(chain, chain2, env, fr, w, w);
    ReadySizes(chain, env, fr, st, vm, w, later);
    forall id | 0 <= id < |vm.ups| ensures OpenAtOk(later, Top(chain2).blocks, vm.ups[id], fr.base) {
      assert OpenAtOk(later, Top(chain).blocks, vm.ups[id], fr.base);
      if vm.ups[id].Open? {
        OpenSlot(st, vm, w, id);
      }
    }
  }

  /** Behind a `break` the machine is as ready as before the loop. */
  lemma BrokeReady(
      chain: seq<Func>, chain2: seq<Func>, env: L.Env, fr: Frame, st: L.Store, vm: Vm, w: World, st2: L.Store,
      vm2: Vm, w1: World, w2: World, later: seq<bool>)
    requires Ready(chain, env, fr, st, vm, w, later) && SameScope(chain, chain2) && |later| == |Top(chain).actvar|
    requires BrokeOk(st2, vm2, fr, w1, w2, vm, later) && w1.cellAt == w.cellAt && w.cellOf <= w1.cellOf
    ensures Ready(chain2, env, fr, st2, vm2, w2, later) && w2.cellAt == w.cellAt
  {
    hide StoreRel, FrameRel;
    ReadySizes(chain, env, fr, st, vm, w, later);
    FrameGrows(chain, chain2, env, fr, w, w2);
    forall id | 0 <= id < |vm2.ups| ensures OpenAtOk(later, Top(chain2).blocks, vm2.ups[id], fr.base) {
      assert LaterAt(later, vm2.ups[id], fr.base);
    }
  }

  /** The parser's states through a `while` loop. */
  lemma WhileStates(e: L.Exp, a: L.Stat, chain: seq<Func>)
    requires chain != [] && StaticOk(chain) && CompileWhile(e, a, chain).Done?
    ensures var c := CompileExp(e, chain);
      var loop := EnterBlock(c.chain, true);
      var d := CompileBlock(a, loop);
      && c.Done? && d.Done? && StaticOk(EnterBlock(loop, false))
      && Top(d.chain).blocks != [] && Innermost(d.chain).nactvar == |Top(c.chain).actvar| <= |Top(d.chain).actvar|
      && CompileWhile(e, a, chain) == Done(Stmt.While(c.code, d.code), LeaveBlock(d.chain))
      && Grows(chain, c.chain) && Grows(c.chain, LeaveBlock(d.chain)) && Grows(chain, LeaveBlock(d.chain))
      && SameScope(c.chain, LeaveBlock(d.chain)) && SameScope(d.chain, chain) && LeaveBlock(d.chain) != []
      && |Top(chain).actvar| == |Top(c.chain).actvar| == |Top(d.chain).actvar|
      && LoopLevel(Top(loop).blocks) == |Top(chain).actvar|
  {
    hide StaticOk;
    var c := CompileExp(e, chain);
    CompileExpOk(e, chain);
    EnterLoopOk(c.chain);
    var loop := EnterBlock(c.chain, true);
    var d := CompileBlock(a, loop);
    GrowsContinues(loop, d.chain);
    BlockContinues(c.chain, true, d.chain);
    GrowsTrans(chain, c.chain, LeaveBlock(d.chain));
    GrowsScope(chain, c.chain);
    GrowsScope(c.chain, LeaveBlock(d.chain));
    GrowsScope(loop, d.chain);
    EnterScope(c.chain, true);
  }

  lemma {:induction false} SimWhile(
      e: L.Exp, a: L.Stat, chain: seq<Func>, env: L.Env, fr: Frame, st: L.Store, vm: Vm, w: World, later: seq<bool>,
      fuel: nat)
    returns (w2: World)
    requires chain != [] && StaticOk(chain) && Ready(chain, env, fr, st, vm, w, later)
    requires CompileWhile(e, a, chain).Done? && Within(CompileWhile(e, a, chain).chain, fr, later)
    requires |later| == |Top(chain).actvar|
    ensures env != [] && !L.ExecStat(L.LocalsLast, L.Stat.While(e, a), env, st, fuel).Broke?
    ensures var c := CompileWhile(e, a, chain);
      StatAgrees(L.ExecStat(L.LocalsLast, L.Stat.While(e, a), env, st, fuel),
        ExecStmt(c.code, fr.base, fr.ids, vm, fuel), c.chain, fr, w, w2, vm, later)
    decreases fuel, L.Stat.While(e, a), 1
  {
    hide StoreRel, Ready, StaticOk, Within, CompileBlock, CompileExp, OpenBelow, LeaveBlock, Grows, SameScope, OpenOk,
      AllLater, CompileWhile, L.ExecBlock, LoopLevel;
    WhileStates(e, a, chain);
    var c := CompileExp(e, chain);
    var loop := EnterBlock(c.chain, true);
    var d := CompileBlock(a, loop);
    var chain2 := LeaveBlock(d.chain);
    WithinGrown(c.chain, chain2, fr, later);
    ReadySizes(chain, env, fr, st, vm, w, later);
    w2 := SimExp(e, chain, env, fr, st, vm, w, later, fuel);
    var r, r2 := L.EvalExp(L.LocalsLast, e, env, st, fuel), EvalCode(c.code, fr.base, fr.ids, vm, fuel);
    if r.Value? {
      var w1 := w2;
      KeepsReady(chain, c.chain, env, fr, st, vm, w, r.st, r2.vm, w1, later);
      if !L.IsTrue(r.v) {
        ReadyGrows(c.chain, chain2, env, fr, r.st, r2.vm, w1, later);
      } else {
        w2 := SimWhileBody(e, a, chain, env, fr, r.st, r2.vm, w1, later, fuel);
        StatTrans(WhileRest(e, a, env, r.st, fuel), WhileRestCode(c.code, d.code, fr.base, fr.ids, r2.vm, fuel),
          chain2, fr, w, w1, w2, vm, r2.vm, later);
      }
    }
  }

  /** A `while` loop whose condition has been found true. */
  function WhileRest(e: L.Exp, a: L.Stat, env: L.Env, st: L.Store, fuel: nat): L.Executed
    requires env != []
  {
    match L.ExecBlock(L.LocalsLast, a, env, st, fuel)
    case Normal(_, st2) =>
      if fuel == 0 then L.Expired else L.ExecStat(L.LocalsLast, L.Stat.While(e, a), env, st2, fuel - 1)
    case Broke(st2) => L.Normal(env, st2)
    case r2 => r2
  }

  function WhileRestCode(e: Code, a: Stmt, base: nat, ids: seq<nat>, vm: Vm, fuel: nat): Executed {
    match ExecStmt(a, base, ids, vm, fuel)
    case Normal(vm2) => if fuel == 0 then Expired else ExecStmt(Stmt.While(e, a), base, ids, vm2, fuel - 1)
    case Broke(vm2) => Normal(vm2)
    case r2 => r2
  }

  lemma {:induction false} SimWhileBody(
      e: L.Exp, a: L.Stat, chain: seq<Func>, env: L.Env, fr: Frame, st: L.Store, vm: Vm, w: World, later: seq<bool>,
      fuel: nat)
    returns (w2: World)
    requires chain != [] && StaticOk(chain) && |later| == |Top(chain).actvar|
    requires CompileWhile(e, a, chain).Done? && Within(CompileWhile(e, a, chain).chain, fr, later)
    requires CompileExp(e, chain).Done? && CompileBlock(a, EnterBlock(CompileExp(e, chain).chain, true)).Done?
    requires Ready(CompileExp(e, chain).chain, env, fr, st, vm, w, later)
    ensures env != [] && !WhileRest(e, a, env, st, fuel).Broke?
    ensures var c := CompileExp(e, chain);
      var d := CompileBlock(a, EnterBlock(c.chain, true));
      StatAgrees(WhileRest(e, a, env, st, fuel), WhileRestCode(c.code, d.code, fr.base, fr.ids, vm, fuel),
        CompileWhile(e, a, chain).chain, fr, w, w2, vm, later)
    decreases fuel, a, 6
  {
    hide StoreRel, Ready, StaticOk, Within, CompileBlock, CompileExp, OpenBelow, LeaveBlock, Grows, SameScope, OpenOk,
      AllLater, CompileWhile, L.ExecBlock, LoopLevel, L.ExecStat, ExecStmt;
    WhileStates(e, a, chain);
    var c := CompileExp(e, chain);
    var loop := EnterBlock(c.chain, true);
    var d := CompileBlock(a, loop);
    var chain2 := LeaveBlock(d.chain);
    EnterReady(c.chain, true, env, fr, st, vm, w, later);
    WithinInner(d.chain, fr, later);
    w2 := SimBlock(a, loop, env, fr, st, vm, w, later, fuel);
    var x, y := L.ExecBlock(L.LocalsLast, a, env, st, fuel), ExecStmt(d.code, fr.base, fr.ids, vm, fuel);
    match x {
      case Normal(_, st2) =>
        BlockEnv(a, env, st, fuel);
        if fuel > 0 {
          var w1 := w2;
          LoopReady(d.chain, chain, env, fr, st2, y.vm, w1, later);
          w2 := SimWhile(e, a, chain, env, fr, st2, y.vm, w1, later, fuel - 1);
          ReadySizes(c.chain, env, fr, st, vm, w, later);
          StatTrans(L.ExecStat(L.LocalsLast, L.Stat.While(e, a), env, st2, fuel - 1),
            ExecStmt(Stmt.While(c.code, d.code), fr.base, fr.ids, y.vm, fuel - 1), chain2, fr, w, w1, w2, vm, y.vm,
            later);
        }
      case Broke(st2) =>
        BrokeReady(c.chain, chain2, env, fr, st, vm, w, st2, y.vm, w, w2, later);
      case Returned(_, _) =>
      case Wrong =>
      case Expired =>
    }
  }

  lemma BlockEnv(s: L.Stat, env: L.Env, st: L.Store, fuel: nat)
    requires env != []
    ensures var r := L.ExecBlock(L.LocalsLast, s, env, st, fuel); r.Normal? ==> r.env == env
  {
  }

  /** The parser's states through a `repeat` loop. */
  lemma RepeatStates(a: L.Stat, e: L.Exp, chain: seq<Func>)
    requires chain != [] && StaticOk(chain) && CompileRepeat(a, e, chain).Done?
    ensures var c := CompileStat(a, EnterLoop(chain));
      var d := CompileExp(e, c.chain);
      && EnterLoop(chain) != [] && c.Done? && d.Done? && StaticOk(EnterLoop(chain)) && StaticOk(c.chain)
      && Continues(EnterBlock(EnterBlock(chain, true), false), d.chain) && Grows(c.chain, d.chain)
      && Top(d.chain).blocks != [] && Innermost(d.chain).nactvar == |Top(chain).actvar| <= |Top(d.chain).actvar|
    ensures var c := CompileStat(a, EnterLoop(chain));
      var d := CompileExp(e, c.chain);
      var bl := Innermost(d.chain);
      var out := LeaveBlock(d.chain);
      && out != [] && Top(out).blocks != [] && Innermost(out).nactvar == |Top(chain).actvar| <= |Top(out).actvar|
      && CompileRepeat(a, e, chain) == Done(Stmt.Repeat(c.code, d.code, bl.nactvar, bl.upval), LeaveBlock(out))
      && SameScope(out, chain) && SameScope(out, LeaveBlock(out)) && Grows(chain, LeaveBlock(out))
      && LoopLevel(Top(EnterLoop(chain)).blocks) == |Top(chain).actvar|
  {
    hide StaticOk, Grows, Continues, CompileStat, CompileExp, LoopLevel;
    var loop := EnterBlock(chain, true);
    EnterLoopOk(chain);
    CompileLoopOk(a, chain);
    var c := CompileStat(a, EnterLoop(chain));
    var d := CompileExp(e, c.chain);
    GrowsContinues(c.chain, d.chain);
    ContinuesTrans(EnterLoop(chain), c.chain, d.chain);
    RepeatContinues(chain, c.chain, d.chain);
    var out := LeaveBlock(d.chain);
    BlockContinues(loop, false, d.chain);
    GrowsContinues(loop, out);
    BlockContinues(chain, true, out);
    GrowsScope(loop, out);
    GrowsScope(chain, LeaveBlock(out));
    LoopLevelInner(chain);
  }

  lemma LoopLevelInner(chain: seq<Func>)
    requires chain != []
    ensures EnterLoop(chain) != [] && LoopLevel(Top(EnterLoop(chain)).blocks) == |Top(chain).actvar|
  {
    var b := Top(EnterBlock(chain, true)).blocks;
    assert BreakOut(b) == Exit(|Top(chain).actvar|, false);
    assert Top(EnterLoop(chain)).blocks[..|b|] == b;
  }

  /** A `repeat` loop whose body has run to its end: the condition sees the body's variables. */
  function RepeatRest(a: L.Stat, e: L.Exp, env: L.Env, env1: L.Env, st: L.Store, fuel: nat): L.Executed
    requires env != []
  {
    var r := L.EvalExp(L.LocalsLast, e, env1, st, fuel);
    if !r.Value? then L.Stopped(r)
    else if L.IsTrue(r.v) then L.Normal(env, r.st)
    else if fuel == 0 then L.Expired else L.ExecStat(L.LocalsLast, L.Stat.Repeat(a, e), env, r.st, fuel - 1)
  }

  function RepeatRestCode(s: Stmt, base: nat, ids: seq<nat>, vm: Vm, fuel: nat): Executed
    requires s.Repeat?
  {
    var r := EvalCode(s.e, base, ids, vm, fuel);
    if !r.Value? then Stopped(r)
    else if IsTrue(r.v) then Normal(Leave(r.vm, base + s.level, s.close))
    else if fuel == 0 then Expired
    else ExecStmt(s, base, ids, Leave(r.vm, base + s.level, s.close), fuel - 1)
  }

  lemma {:induction false} SimRepeat(
      a: L.Stat, e: L.Exp, chain: seq<Func>, env: L.Env, fr: Frame, st: L.Store, vm: Vm, w: World, later: seq<bool>,
      fuel: nat)
    returns (w2: World)
    requires chain != [] && StaticOk(chain) && Ready(chain, env, fr, st, vm, w, later)
    requires CompileRepeat(a, e, chain).Done? && Within(CompileRepeat(a, e, chain).chain, fr, later)
    requires |later| == |Top(chain).actvar|
    ensures env != [] && !L.ExecStat(L.LocalsLast, L.Stat.Repeat(a, e), env, st, fuel).Broke?
    ensures var c := CompileRepeat(a, e, chain);
      StatAgrees(L.ExecStat(L.LocalsLast, L.Stat.Repeat(a, e), env, st, fuel),
        ExecStmt(c.code, fr.base, fr.ids, vm, fuel), c.chain, fr, w, w2, vm, later)
    decreases fuel, L.Stat.Repeat(a, e), 1
  {
    hide L.EvalExp, EvalCode, StoreRel, Ready, StaticOk, Within, Continues, CompileStat, CompileExp, OpenBelow,
      LeaveBlock, Grows, SameScope, OpenOk, AllLater, CompileRepeat, LoopLevel, EnterLoop;
    RepeatStates(a, e, chain);
    var chain1 := EnterLoop(chain);
    var c := CompileStat(a, chain1);
    var d := CompileExp(e, c.chain);
    RepeatWithin(a, e, chain, fr, later);
    ReadySizes(chain, env, fr, st, vm, w, later);
    LoopBodyReady(chain, env, fr, st, vm, w, later);
    w2 := SimStat(a, chain1, env, fr, st, vm, w, later, fuel);
    var x, y := L.ExecStat(L.LocalsLast, a, env, st, fuel), ExecStmt(c.code, fr.base, fr.ids, vm, fuel);
    var chain2 := CompileRepeat(a, e, chain).chain;
    match x {
      case Normal(env1, st1) =>
        w2 := SimRepeatEnd(a, e, chain, env, fr, st, vm, w, env1, st1, y.vm, w2, later, fuel);
      case Broke(st2) =>
        GrowsScope(chain, chain2);
        BrokeReady(chain, chain2, env, fr, st, vm, w, st2, y.vm, w, w2, later);
      case Returned(_, _) =>
      case Wrong =>
      case Expired =>
    }
  }

  lemma LoopBodyReady(chain: seq<Func>, env: L.Env, fr: Frame, st: L.Store, vm: Vm, w: World, later: seq<bool>)
    requires chain != [] && Ready(chain, env, fr, st, vm, w, later)
    ensures Ready(EnterBlock(chain, true), env, fr, st, vm, w, later)
    ensures Ready(EnterLoop(chain), env, fr, st, vm, w, later)
  {
    hide Ready;
    EnterReady(chain, true, env, fr, st, vm, w, later);
    EnterReady(EnterBlock(chain, true), false, env, fr, st, vm, w, later);
  }

  lemma RepeatWithin(a: L.Stat, e: L.Exp, chain: seq<Func>, fr: Frame, later: seq<bool>)
    requires chain != [] && StaticOk(chain) && CompileRepeat(a, e, chain).Done? && |later| == |Top(chain).actvar|
    requires Within(CompileRepeat(a, e, chain).chain, fr, later)
    ensures var c := CompileStat(a, EnterLoop(chain));
      c.Done? && Within(c.chain, fr, later) && var d := CompileExp(e, c.chain); d.Done? && Within(d.chain, fr, later)
  {
    hide StaticOk, Within, Continues, Grows, SameScope, LeaveBlock, CompileRepeat;
    RepeatStates(a, e, chain);
    var c := CompileStat(a, EnterLoop(chain));
    var d := CompileExp(e, c.chain);
    WithinInner(LeaveBlock(d.chain), fr, later);
    WithinInner(d.chain, fr, later);
    WithinGrown(c.chain, d.chain, fr, later);
  }

  lemma {:induction false} SimRepeatEnd(
      a: L.Stat, e: L.Exp, chain: seq<Func>, env: L.Env, fr: Frame, st: L.Store, vm: Vm, w: World, env1: L.Env,
      st1: L.Store, vm1: Vm, w1: World, later: seq<bool>, fuel: nat)
    returns (w2: World)
    requires chain != [] && StaticOk(chain) && Ready(chain, env, fr, st, vm, w, later)
    requires CompileRepeat(a, e, chain).Done? && Within(CompileRepeat(a, e, chain).chain, fr, later)
    requires |later| == |Top(chain).actvar|
    requires CompileStat(a, EnterLoop(chain)).Done?
    requires NormalOk(env1, st1, vm1, CompileStat(a, EnterLoop(chain)).chain, fr, w, w1, vm, later)
    ensures env != [] && !RepeatRest(a, e, env, env1, st1, fuel).Broke?
    ensures CompileRepeat(a, e, chain).code.Repeat?
    ensures var c := CompileRepeat(a, e, chain);
      StatAgrees(RepeatRest(a, e, env, env1, st1, fuel), RepeatRestCode(c.code, fr.base, fr.ids, vm1, fuel), c.chain,
        fr, w, w2, vm, later)
    decreases fuel, L.Stat.Repeat(a, e), 0
  {
    hide L.EvalExp, EvalCode, L.ExecStat, ExecStmt, StoreRel, Ready, StaticOk, Within, Continues, CompileStat,
      CompileExp, OpenBelow, LeaveBlock, Grows, SameScope, OpenOk, AllLater, CompileRepeat, LoopLevel, EnterLoop, Leave;
    RepeatStates(a, e, chain);
    var c := CompileStat(a, EnterLoop(chain));
    var d := CompileExp(e, c.chain);
    var bl := Innermost(d.chain);
    var out := LeaveBlock(d.chain);
    RepeatWithin(a, e, chain, fr, later);
    ReadySizes(chain, env, fr, st, vm, w, later);
    w2 := SimExp(e, c.chain, env1, fr, st1, vm1, w1, later, fuel);
    var r, r2 := L.EvalExp(L.LocalsLast, e, env1, st1, fuel), EvalCode(d.code, fr.base, fr.ids, vm1, fuel);
    if r.Value? {
      KeepsReady(c.chain, d.chain, env1, fr, st1, vm1, w1, r.st, r2.vm, w2, later);
      OpenBelowTrans(vm, vm1, r2.vm, fr.base);
      EnterReady(chain, true, env, fr, st, vm, w, later);
      BlockLeave(EnterBlock(chain, true), false, d.chain, env, fr, st, vm, w, env1, r.st, r2.vm, w2, later);
      var vm3, w3 := Leave(r2.vm, fr.base + bl.nactvar, bl.upval), World(w.cellAt, w2.cellOf);
      SameTop(out, chain);
      w2 := w3;
      if L.IsTrue(r.v) {
        LoopReady(out, LeaveBlock(out), env, fr, r.st, vm3, w3, later);
      } else if fuel > 0 {
        LoopReady(out, chain, env, fr, r.st, vm3, w3, later);
        w2 := SimRepeat(a, e, chain, env, fr, r.st, vm3, w3, later, fuel - 1);
        StatTrans(L.ExecStat(L.LocalsLast, L.Stat.Repeat(a, e), env, r.st, fuel - 1),
          ExecStmt(CompileRepeat(a, e, chain).code, fr.base, fr.ids, vm3, fuel - 1), LeaveBlock(out), fr, w, w3, w2,
          vm, vm3, later);
      }
    }
  }

  lemma SameTop(a: seq<Func>, b: seq<Func>)
    requires a != [] && SameScope(a, b)
    ensures b != [] && Top(a).actvar == Top(b).actvar
  {
  }

  // ------------------------------------------------------------- break

  /** Where `break` emits no OP_CLOSE, none of the variables it leaves belongs to a marked block. */
  lemma {:induction false} BreakUnmarked(blocks: seq<Scopes.Block>, level: nat, i: nat)
    requires forall j :: 0 <= j < |blocks| && blocks[j].isBreakable ==> !blocks[j].upval
    requires BreakOut(blocks) == Exit(level, false) && i >= level
    ensures !Marked(blocks, i)
  {
    var t := |blocks| - 1;
    if !blocks[t].isBreakable {
      BreakUnmarked(blocks[..t], level, i);
    }
  }

  lemma SimBreak(chain: seq<Func>, env: L.Env, fr: Frame, st: L.Store, vm: Vm, w: World, later: seq<bool>)
    requires chain != [] && StaticOk(chain) && Ready(chain, env, fr, st, vm, w, later)
    requires |later| == LoopLevel(Top(chain).blocks) && BreakOut(Top(chain).blocks).Exit?
    ensures var x := BreakOut(Top(chain).blocks);
      BrokeOk(st, Leave(vm, fr.base + x.level, x.close), fr, w, w.(cellAt := w.cellAt[..fr.base + |later|]), vm, later)
  {
    hide StoreRel, Marked, Leave, ChainOk;
    var blocks := Top(chain).blocks;
    var x := BreakOut(blocks);
    var level := fr.base + x.level;
    ReadySizes(chain, env, fr, st, vm, w, later);
    if !x.close {
      assert LoopsOk(blocks);
      forall j | 0 <= j < |blocks| && blocks[j].isBreakable ensures !blocks[j].upval {
        assert LoopAt(blocks, j);
      }
      forall id | 0 <= id < |vm.ups| ensures !OpenFrom(vm.ups[id], level) {
        assert OpenAtOk(later, blocks, vm.ups[id], fr.base);
        if OpenFrom(vm.ups[id], level) {
          BreakUnmarked(blocks, x.level, vm.ups[id].slot - fr.base);
        }
      }
    }
    LeaveSim(st, vm, w, level, x.close);
    LeaveOpen(later, blocks, vm, fr.base, level, x.close);
    var vm2 := Leave(vm, level, x.close);
    forall id | 0 <= id < |vm2.ups| ensures LaterAt(later, vm2.ups[id], fr.base) {
      assert OpenAtOk(later, blocks, vm2.ups[id], fr.base) && !OpenFrom(vm2.ups[id], level);
    }
  }

  // ------------------------------------------------------------- other statements

  lemma {:induction false} SimIf(
      e: L.Exp, a: L.Stat, b: L.Stat, chain: seq<Func>, env: L.Env, fr: Frame, st: L.Store, vm: Vm, w: World,
      later: seq<bool>, fuel: nat)
    returns (w2: World)
    requires chain != [] && StaticOk(chain) && Ready(chain, env, fr, st, vm, w, later)
    requires CompileIf(e, a, b, chain).Done? && Within(CompileIf(e, a, b, chain).chain, fr, later)
    requires |later| == LoopLevel(Top(chain).blocks)
    ensures env != []
    ensures var c := CompileIf(e, a, b, chain);
      StatAgrees(L.ExecStat(L.LocalsLast, L.Stat.If(e, a, b), env, st, fuel),
        ExecStmt(c.code, fr.base, fr.ids, vm, fuel), c.chain, fr, w, w2, vm, later)
    decreases fuel, L.Stat.If(e, a, b), 0
  {
    hide StoreRel, Ready, StaticOk, Within, CompileBlock, CompileExp, OpenBelow, Grows, OpenOk, AllLater, LoopLevel,
      L.ExecBlock;
    IfStates(e, a, b, chain, fr, later);
    ReadySizes(chain, env, fr, st, vm, w, later);
    var c := CompileExp(e, chain);
    var d := CompileBlock(a, c.chain);
    var f := CompileBlock(b, d.chain);
    w2 := SimExp(e, chain, env, fr, st, vm, w, later, fuel);
    var r, r2 := L.EvalExp(L.LocalsLast, e, env, st, fuel), EvalCode(c.code, fr.base, fr.ids, vm, fuel);
    if r.Value? {
      var w1 := w2;
      KeepsReady(chain, c.chain, env, fr, st, vm, w, r.st, r2.vm, w1, later);
      if L.IsTrue(r.v) {
        w2 := SimBlock(a, c.chain, env, fr, r.st, r2.vm, w1, later, fuel);
        var x, y := L.ExecBlock(L.LocalsLast, a, env, r.st, fuel), ExecStmt(d.code, fr.base, fr.ids, r2.vm, fuel);
        AgreesGrows(x, y, d.chain, f.chain, fr, w1, w2, r2.vm, later);
        StatTrans(x, y, f.chain, fr, w, w1, w2, vm, r2.vm, later);
      } else {
        ReadyGrows(c.chain, d.chain, env, fr, r.st, r2.vm, w1, later);
        w2 := SimBlock(b, d.chain, env, fr, r.st, r2.vm, w1, later, fuel);
        var x, y := L.ExecBlock(L.LocalsLast, b, env, r.st, fuel), ExecStmt(f.code, fr.base, fr.ids, r2.vm, fuel);
        StatTrans(x, y, f.chain, fr, w, w1, w2, vm, r2.vm, later);
      }
    }
  }

  lemma AgreesGrows(
      r: L.Executed, r2: Executed, chain: seq<Func>, chain2: seq<Func>, fr: Frame, w: World, w2: World, vm: Vm,
      later: seq<bool>)
    requires chain != [] && Grows(chain, chain2) && StatAgrees(r, r2, chain, fr, w, w2, vm, later)
    ensures StatAgrees(r, r2, chain2, fr, w, w2, vm, later)
  {
    hide Ready, Grows;
    if r.Normal? {
      ReadyGrows(chain, chain2, r.env, fr, r.st, r2.vm, w2, later);
    }
  }

  lemma IfStates(e: L.Exp, a: L.Stat, b: L.Stat, chain: seq<Func>, fr: Frame, later: seq<bool>)
    requires chain != [] && StaticOk(chain) && CompileIf(e, a, b, chain).Done?
    requires Within(CompileIf(e, a, b, chain).chain, fr, later)
    ensures var c := CompileExp(e, chain);
      && c.Done? && Grows(chain, c.chain) && Within(c.chain, fr, later) && StaticOk(EnterBlock(c.chain, false))
      && LoopLevel(Top(c.chain).blocks) == LoopLevel(Top(chain).blocks)
      && var d := CompileBlock(a, c.chain);
      && d.Done? && Grows(c.chain, d.chain) && Within(d.chain, fr, later) && StaticOk(EnterBlock(d.chain, false))
      && LoopLevel(Top(d.chain).blocks) == LoopLevel(Top(chain).blocks)
      && var f := CompileBlock(b, d.chain);
      f.Done? && Grows(d.chain, f.chain) && CompileIf(e, a, b, chain) == Done(Stmt.If(c.code, d.code, f.code), f.chain)
  {
    hide StaticOk, Within, Grows, LoopLevel, EnterBlock;
    var c := CompileExp(e, chain);
    var d := CompileBlock(a, c.chain);
    var f := CompileBlock(b, d.chain);
    CompileExpOk(e, chain);
    EnterBlockOk(c.chain);
    CompileBlockOk(a, c.chain);
    EnterBlockOk(d.chain);
    WithinGrown(d.chain, f.chain, fr, later);
    WithinGrown(c.chain, d.chain, fr, later);
    TopLevelGrows(chain, c.chain);
    TopLevelGrows(c.chain, d.chain);
  }

  lemma TopLevelGrows(chain: seq<Func>, chain2: seq<Func>)
    requires chain != [] && Grows(chain, chain2)
    ensures chain2 != [] && LoopLevel(Top(chain2).blocks) == LoopLevel(Top(chain).blocks)
  {
    assert FuncGrows(Top(chain), Top(chain2));
    LoopLevelGrows(Top(chain).blocks, Top(chain2).blocks);
  }

  /** A local variable: its value is computed before it is in scope. */
  lemma {:induction false} SimLocal(
      x: Name, e: L.Exp, chain: seq<Func>, env: L.Env, fr: Frame, st: L.Store, vm: Vm, w: World, later: seq<bool>,
      fuel: nat)
    returns (w2: World)
    requires chain != [] && StaticOk(chain) && Ready(chain, env, fr, st, vm, w, later)
    requires CompileLocal(x, e, chain).Done? && Within(CompileLocal(x, e, chain).chain, fr, later)
    ensures env != []
    ensures var c := CompileLocal(x, e, chain);
      StatAgrees(L.ExecStat(L.LocalsLast, L.Stat.Local(x, e), env, st, fuel),
        ExecStmt(c.code, fr.base, fr.ids, vm, fuel), c.chain, fr, w, w2, vm, later)
    decreases fuel, L.Stat.Local(x, e), 0
  {
    hide StoreRel, Ready, StaticOk, Within, Continues, CompileExp, OpenBelow, Grows, OpenOk, NewLocal;
    ReadySizes(chain, env, fr, st, vm, w, later);
    var c := CompileExp(e, chain);
    NewLocalContinues(c.chain, x);
    WithinBefore(c.chain, NewLocal(c.chain, x), fr, later);
    w2 := SimExp(e, chain, env, fr, st, vm, w, later, fuel);
    var r, r2 := L.EvalExp(L.LocalsLast, e, env, st, fuel), EvalCode(c.code, fr.base, fr.ids, vm, fuel);
    if r.Value? {
      KeepsReady(chain, c.chain, env, fr, st, vm, w, r.st, r2.vm, w2, later);
      PushReady(x, c.chain, env, fr, r.st, r2.vm, w2, later, r.v, r2.v);
      var vm2 := r2.vm.(stack := r2.vm.stack + [r2.v]);
      OpenBelowRefl(r2.vm, vm2, fr.base);
      OpenBelowTrans(vm, r2.vm, vm2, fr.base);
      w2 := Pushed(w2, r.st);
    }
  }

  /** A local function: it may capture the variable that will hold it. */
  lemma SimLocalFunction(
      x: Name, param: Name, body: L.Stat, chain: seq<Func>, env: L.Env, fr: Frame, st: L.Store, vm: Vm, w: World,
      later: seq<bool>, fuel: nat)
    returns (w2: World)
    requires chain != [] && StaticOk(chain) && Ready(chain, env, fr, st, vm, w, later)
    requires CompileLocalFunction(x, param, body, chain).Done?
    requires Within(CompileLocalFunction(x, param, body, chain).chain, fr, later)
    ensures env != []
    ensures var c := CompileLocalFunction(x, param, body, chain);
      StatAgrees(L.ExecStat(L.LocalsLast, L.Stat.LocalFunction(x, param, body), env, st, fuel),
        ExecStmt(c.code, fr.base, fr.ids, vm, fuel), c.chain, fr, w, w2, vm, later)
  {
    hide StoreRel, Ready, StaticOk, Within, Continues, CompileFunction, OpenBelow, Grows, OpenOk, NewLocal, MakeClosure;
    ReadySizes(chain, env, fr, st, vm, w, later);
    NewLocalOk(chain, x);
    var chain1, env1, st1 := NewLocal(chain, x), L.Declare(env, x, |st.cells|), L.Alloc(st, L.NilV);
    var vm1, w1 := vm.(stack := vm.stack + [NilV]), Pushed(w, st);
    PushReady(x, chain, env, fr, st, vm, w, later, L.NilV, NilV);
    w2 := ClosureSim(param, body, chain1, env1, fr, st1, vm1, w1, later);
    var c := CompileFunction(param, body, chain1);
    var r := MakeClosure(c.code, fr.base, fr.ids, vm1);
    var slot := |vm.stack|;
    var v := L.FunV(param, body, env1);
    WriteSlotSim(st1, r.vm, w2, slot, v, r.v);
    assert st1.cells[|st.cells| := v] == st.cells + [v];
    var vm2 := r.vm.(stack := r.vm.stack[slot := r.v]);
    SameOpenKeeps(later, Top(c.chain).blocks, r.vm, vm2, fr.base);
    OpenBelowRefl(vm, vm1, fr.base);
    OpenBelowTrans(vm, vm1, r.vm, fr.base);
    OpenBelowTrans(vm, r.vm, vm2, fr.base);
    ReadyAfter(chain1, c.chain, env1, fr, st1, vm1, w1, L.Alloc(st, v), vm2, w2, later);
  }

  lemma PlacedGrows(found: Found, x: Name, env: L.Env, fr: Frame, w: World, w2: World)
    requires Placed(found, x, env, fr, w) && w2.cellAt == w.cellAt && w.cellOf <= w2.cellOf
    ensures Placed(found, x, env, fr, w2)
  {
  }

  lemma {:induction false} SimAssign(
      x: Name, e: L.Exp, chain: seq<Func>, env: L.Env, fr: Frame, st: L.Store, vm: Vm, w: World, later: seq<bool>,
      fuel: nat)
    returns (w2: World)
    requires chain != [] && StaticOk(chain) && Ready(chain, env, fr, st, vm, w, later)
    requires CompileAssign(x, e, chain).Done? && Within(CompileAssign(x, e, chain).chain, fr, later)
    ensures env != []
    ensures var c := CompileAssign(x, e, chain);
      StatAgrees(L.ExecStat(L.LocalsLast, L.Stat.Assign(x, e), env, st, fuel),
        ExecStmt(c.code, fr.base, fr.ids, vm, fuel), c.chain, fr, w, w2, vm, later)
    decreases fuel, L.Stat.Assign(x, e), 0
  {
    hide StoreRel, FrameRel, StaticOk, Within, CompileExp, OpenBelow, Grows, OpenOk, SingleVarAux, L.Write, StoreTo,
      Placed, SameOpen;
    ReadySizes(chain, env, fr, st, vm, w, later);
    var found := SingleVarAux(chain, x, true).found;
    var t := CompileTarget(x, chain);
    var c := CompileExp(e, t.chain);
    WithinGrown(t.chain, c.chain, fr, later);
    WithinKept(t.chain, fr, later);
    VarSim(x, chain, env, fr, w);
    VarOk(chain, x);
    ReadyGrows(chain, t.chain, env, fr, st, vm, w, later);
    w2 := SimExp(e, t.chain, env, fr, st, vm, w, later, fuel);
    var r, r2 := L.EvalExp(L.LocalsLast, e, env, st, fuel), EvalCode(c.code, fr.base, fr.ids, vm, fuel);
    if r.Value? {
      PlacedGrows(found, x, env, fr, w, w2);
      StoreSim(x, found, t.code, env, fr, r.st, r2.vm, w2, r.v, r2.v);
      var y, y2 := L.Write(env, r.st, x, r.v), StoreTo(t.code, fr.base, fr.ids, r2.vm, r2.v);
      SameOpenKeeps(later, Top(c.chain).blocks, r2.vm, y2.vm, fr.base);
      OpenBelowTrans(vm, r2.vm, y2.vm, fr.base);
      ReadyAfter(t.chain, c.chain, env, fr, st, vm, w, y.st, y2.vm, w2, later);
    }
  }

  lemma WithinKept(chain: seq<Func>, fr: Frame, later: seq<bool>)
    requires Within(chain, fr, later)
    ensures UpvaluesKept(chain, fr.full)
  {
  }

  lemma {:induction false} SimSeq(
      a: L.Stat, b: L.Stat, chain: seq<Func>, env: L.Env, fr: Frame, st: L.Store, vm: Vm, w: World, later: seq<bool>,
      fuel: nat)
    returns (w2: World)
    requires var s := L.Stat.Seq(a, b);
      && chain != [] && StaticOk(chain) && Ready(chain, env, fr, st, vm, w, later)
      && CompileStat(s, chain).Done? && Within(CompileStat(s, chain).chain, fr, later)
    requires |later| == LoopLevel(Top(chain).blocks)
    ensures env != []
    ensures var s := L.Stat.Seq(a, b);
      var c := CompileStat(s, chain);
      StatAgrees(L.ExecStat(L.LocalsLast, s, env, st, fuel), ExecStmt(c.code, fr.base, fr.ids, vm, fuel), c.chain, fr,
        w, w2, vm, later)
    decreases fuel, L.Stat.Seq(a, b), 0
  {
    hide StoreRel, Ready, StaticOk, Within, Continues, OpenBelow, AllLater, LoopLevel;
    ReadySizes(chain, env, fr, st, vm, w, later);
    var c := CompileStat(a, chain);
    var d := CompileStat(b, c.chain);
    WithinBefore(c.chain, d.chain, fr, later);
    w2 := SimStat(a, chain, env, fr, st, vm, w, later, fuel);
    var x, y := L.ExecStat(L.LocalsLast, a, env, st, fuel), ExecStmt(c.code, fr.base, fr.ids, vm, fuel);
    if x.Normal? {
      var w1 := w2;
      CompileStatOk(a, chain);
      ContinuesLevel(chain, c.chain);
      w2 := SimStat(b, c.chain, x.env, fr, x.st, y.vm, w1, later, fuel);
      StatTrans(L.ExecStat(L.LocalsLast, b, x.env, x.st, fuel), ExecStmt(d.code, fr.base, fr.ids, y.vm, fuel),
        d.chain, fr, w, w1, w2, vm, y.vm, later);
    }
  }

  lemma ContinuesLevel(chain: seq<Func>, chain2: seq<Func>)
    requires Continues(chain, chain2)
    ensures LoopLevel(Top(chain2).blocks) == LoopLevel(Top(chain).blocks)
  {
    LoopLevelGrows(Top(chain).blocks, Top(chain2).blocks);
  }

  /** A loop within whatever is around it. */
  lemma {:induction false} SimLoop(
      s: L.Stat, chain: seq<Func>, env: L.Env, fr: Frame, st: L.Store, vm: Vm, w: World, later: seq<bool>, fuel: nat)
    returns (w2: World)
    requires s.While? || s.Repeat?
    requires chain != [] && StaticOk(chain) && Ready(chain, env, fr, st, vm, w, later)
    requires CompileStat(s, chain).Done? && Within(CompileStat(s, chain).chain, fr, later)
    ensures env != []
    ensures var c := CompileStat(s, chain);
      StatAgrees(L.ExecStat(L.LocalsLast, s, env, st, fuel), ExecStmt(c.code, fr.base, fr.ids, vm, fuel), c.chain, fr,
        w, w2, vm, later)
    decreases fuel, s, 2
  {
    hide StoreRel, Ready, StaticOk, Within, Grows, OpenBelow, CompileWhile, CompileRepeat, L.ExecStat, ExecStmt;
    var chain2 := CompileStat(s, chain).chain;
    LoopEnter(chain, chain2, env, fr, st, vm, w, later);
    LaterFits(chain, env, fr, st, vm, w, later);
    var later2 := LaterFor(later, Top(chain2).blocks, |Top(chain).actvar|);
    if s.While? {
      w2 := SimWhile(s.e, s.s, chain, env, fr, st, vm, w, later2, fuel);
    } else {
      w2 := SimRepeat(s.s, s.e, chain, env, fr, st, vm, w, later2, fuel);
    }
    var r := L.ExecStat(L.LocalsLast, s, env, st, fuel);
    if r.Normal? {
      var r2 := ExecStmt(CompileStat(s, chain).code, fr.base, fr.ids, vm, fuel);
      LoopLeave(chain2, r.env, fr, r.st, r2.vm, w2, later, |Top(chain).actvar|);
    }
  }

  /** Statements that only evaluate an expression. */
  lemma {:induction false} SimEval(
      s: L.Stat, chain: seq<Func>, env: L.Env, fr: Frame, st: L.Store, vm: Vm, w: World, later: seq<bool>, fuel: nat)
    returns (w2: World)
    requires s.Eval? || s.Return?
    requires chain != [] && StaticOk(chain) && Ready(chain, env, fr, st, vm, w, later)
    requires CompileStat(s, chain).Done? && Within(CompileStat(s, chain).chain, fr, later)
    ensures env != []
    ensures var c := CompileStat(s, chain);
      StatAgrees(L.ExecStat(L.LocalsLast, s, env, st, fuel), ExecStmt(c.code, fr.base, fr.ids, vm, fuel), c.chain, fr,
        w, w2, vm, later)
    decreases fuel, s, 2
  {
    hide StoreRel, Ready, StaticOk, Within, Grows, OpenBelow, OpenOk, CompileExp;
    ReadySizes(chain, env, fr, st, vm, w, later);
    var c := CompileExp(s.e, chain);
    w2 := SimExp(s.e, chain, env, fr, st, vm, w, later, fuel);
    var r, r2 := L.EvalExp(L.LocalsLast, s.e, env, st, fuel), EvalCode(c.code, fr.base, fr.ids, vm, fuel);
    if r.Value? {
      KeepsReady(chain, c.chain, env, fr, st, vm, w, r.st, r2.vm, w2, later);
    }
  }

  /** Executing a statement. */
  lemma {:induction false} SimStat(
      s: L.Stat, chain: seq<Func>, env: L.Env, fr: Frame, st: L.Store, vm: Vm, w: World, later: seq<bool>, fuel: nat)
    returns (w2: World)
    requires chain != [] && StaticOk(chain) && Ready(chain, env, fr, st, vm, w, later)
    requires CompileStat(s, chain).Done? && Within(CompileStat(s, chain).chain, fr, later)
    requires |later| == LoopLevel(Top(chain).blocks)
    ensures env != []
    ensures var c := CompileStat(s, chain);
      StatAgrees(L.ExecStat(L.LocalsLast, s, env, st, fuel), ExecStmt(c.code, fr.base, fr.ids, vm, fuel), c.chain, fr,
        w, w2, vm, later)
    decreases fuel, s, 4
  {
    hide StoreRel, Ready, StaticOk, Within, Grows, Continues, OpenBelow, CompileLocal, CompileLocalFunction,
      CompileAssign, CompileIf, CompileWhile, CompileRepeat, CompileExp, CompileBlock, LoopLevel, BrokeOk;
    ReadySizes(chain, env, fr, st, vm, w, later);
    w2 := w;
    match s {
      case Skip => OpenBelowRefl(vm, vm, fr.base);
      case Seq(a, b) => w2 := SimSeq(a, b, chain, env, fr, st, vm, w, later, fuel);
      case Local(x, e) => w2 := SimLocal(x, e, chain, env, fr, st, vm, w, later, fuel);
      case LocalFunction(x, param, body) =>
        w2 := SimLocalFunction(x, param, body, chain, env, fr, st, vm, w, later, fuel);
      case Assign(x, e) => w2 := SimAssign(x, e, chain, env, fr, st, vm, w, later, fuel);
      case Eval(_) => w2 := SimEval(s, chain, env, fr, st, vm, w, later, fuel);
      case Do(a) =>
        EnterBlockOk(chain);
        w2 := SimBlock(a, chain, env, fr, st, vm, w, later, fuel);
      case If(e, a, b) => w2 := SimIf(e, a, b, chain, env, fr, st, vm, w, later, fuel);
      case While(_, _) => w2 := SimLoop(s, chain, env, fr, st, vm, w, later, fuel);
      case Repeat(_, _) => w2 := SimLoop(s, chain, env, fr, st, vm, w, later, fuel);
      case Break =>
        w2 := w.(cellAt := w.cellAt[..fr.base + |later|]);
        SimBreak(chain, env, fr, st, vm, w, later);
      case Return(_) => w2 := SimEval(s, chain, env, fr, st, vm, w, later, fuel);
    }
  }

  // ------------------------------------------------------------- whole programs

  /** A loop does not pass a `break` on. */
  lemma {:induction false} LoopsCatch(s: L.Stat, env: L.Env, st: L.Store, fuel: nat)
    requires (s.While? || s.Repeat?) && env != []
    ensures !L.ExecStat(L.LocalsLast, s, env, st, fuel).Broke?
    decreases fuel
  {
    if fuel > 0 {
      match s {
        case While(e, a) =>
          var r := L.EvalExp(L.LocalsLast, e, env, st, fuel);
          if r.Value? && L.IsTrue(r.v) && L.ExecBlock(L.LocalsLast, a, env, r.st, fuel).Normal? {
            LoopsCatch(s, env, L.ExecBlock(L.LocalsLast, a, env, r.st, fuel).st, fuel - 1);
          }
        case Repeat(a, e) =>
          var x := L.ExecStat(L.LocalsLast, a, env, st, fuel);
          if x.Normal? {
            var r := L.EvalExp(L.LocalsLast, e, x.env, x.st, fuel);
            if r.Value? && !L.IsTrue(r.v) {
              LoopsCatch(s, env, r.st, fuel - 1);
            }
          }
      }
    }
  }

  /** What compiles outside of any loop does not break out of one. */
  lemma {:induction false} NoStrayBreak(s: L.Stat, chain: seq<Func>, env: L.Env, st: L.Store, fuel: nat)
    requires chain != [] && env != [] && CompileStat(s, chain).Done? && BreakOut(Top(chain).blocks).NoLoop?
    ensures !L.ExecStat(L.LocalsLast, s, env, st, fuel).Broke?
    decreases s, 0
  {
    hide Continues, Grows, CompileExp, CompileLocal, CompileLocalFunction, CompileAssign, CompileWhile, CompileRepeat;
    match s {
      case Seq(a, b) =>
        NoStrayBreak(a, chain, env, st, fuel);
        var x := L.ExecStat(L.LocalsLast, a, env, st, fuel);
        var c := CompileStat(a, chain);
        ContinuesNoLoop(chain, c.chain);
        if x.Normal? && x.env != [] {
          NoStrayBreak(b, c.chain, x.env, x.st, fuel);
        }
      case Do(a) => NoStrayInBlock(a, chain, env, st, fuel);
      case If(e, a, b) =>
        var r := L.EvalExp(L.LocalsLast, e, env, st, fuel);
        if r.Value? {
          var c := CompileExp(e, chain);
          GrowsContinues(chain, c.chain);
          ContinuesNoLoop(chain, c.chain);
          NoStrayInBlock(a, c.chain, env, r.st, fuel);
          var d := CompileBlock(a, c.chain);
          GrowsContinues(c.chain, d.chain);
          ContinuesNoLoop(c.chain, d.chain);
          NoStrayInBlock(b, d.chain, env, r.st, fuel);
        }
      case While(_, _) => LoopsCatch(s, env, st, fuel);
      case Repeat(_, _) => LoopsCatch(s, env, st, fuel);
      case _ =>
    }
  }

  lemma {:induction false} NoStrayInBlock(s: L.Stat, chain: seq<Func>, env: L.Env, st: L.Store, fuel: nat)
    requires chain != [] && env != [] && CompileBlock(s, chain).Done? && BreakOut(Top(chain).blocks).NoLoop?
    ensures !L.ExecBlock(L.LocalsLast, s, env, st, fuel).Broke?
    decreases s, 1
  {
    var chain1 := EnterBlock(chain, false);
    assert Top(chain1).blocks[..|Top(chain).blocks|] == Top(chain).blocks;
    NoStrayBreak(s, chain1, env, st, fuel);
  }

  lemma ContinuesNoLoop(chain: seq<Func>, chain2: seq<Func>)
    requires Continues(chain, chain2)
    ensures BreakOut(Top(chain2).blocks).NoLoop? == BreakOut(Top(chain).blocks).NoLoop?
  {
    LoopLevelGrows(Top(chain).blocks, Top(chain2).blocks);
  }

  /** What a user sees of a value: nil, the number, or that it is a function. */
  predicate Looks(v: L.Value, y: Value) {
    match v
    case NilV => y.NilV?
    case NumV(n) => y == NumV(n)
    case FunV(_, _, _) => y.FunV?
  }

  ghost predicate GlobalsLook(a: map<Name, L.Value>, b: map<Name, Value>) {
    a.Keys == b.Keys && forall x :: x in a ==> Looks(a[x], b[x])
  }

  ghost predicate SameOutcome(r: L.Executed, r2: Executed) {
    match r
    case Normal(_, st) => r2.Normal? && GlobalsLook(st.globals, r2.vm.globals)
    case Returned(v, st) => r2.Returned? && Looks(v, r2.v) && GlobalsLook(st.globals, r2.vm.globals)
    case Broke(_) => false
    case Wrong => r2.Wrong?
    case Expired => r2.Expired?
  }

  lemma StoreLooks(st: L.Store, vm: Vm, w: World)
    requires StoreRel(st, vm, w)
    ensures GlobalsLook(st.globals, vm.globals)
  {
  }

  lemma HasElement<T>(s: seq<T>)
    ensures s == [] || exists x :: x in s
  {
    if s != [] {
      assert s[0] in s;
    }
  }

  lemma StartReady(full: seq<Func>)
    requires |full| == 1 && StaticOk(full) && Continues(START, full)
    ensures Ready(START, [[]], Frame(0, [], full), L.Store([], map[]), Vm([], [], map[]), World([], []), [])
        && Within(full, Frame(0, [], full), [])
  {
    assert FuncLinked(full, 0);
    var ups := Top(full).upvalues;
    forall u ensures u !in ups {
      assert !DescOk(full, 0, u);
    }
    HasElement(ups);
  }

  /**
  Every program that compiles runs as the language says: for every amount of fuel the machine ends the same way, with
  the same result and the same global variables. Names, captured variables, closures and blocks mean what they say.
  */
  lemma CompiledRuns(s: L.Stat, calls: nat, fuel: nat)
    requires CompileProgram(s, calls).Done?
    ensures SameOutcome(L.RunProgram(L.LocalsLast, s, fuel), RunCode(CompileProgram(s, calls).code, fuel))
  {
    hide StoreRel, Ready, StaticOk, Within, Continues;
    var c := CompileProgram(s, calls);
    StartOk();
    CompileStatOk(s, START);
    StartReady(c.chain);
    var env: L.Env := [[]];
    var fr := Frame(0, [], c.chain);
    var w := SimStat(s, START, env, fr, L.Store([], map[]), Vm([], [], map[]), World([], []), [], fuel);
    var r, r2 := L.RunProgram(L.LocalsLast, s, fuel), RunCode(c.code, fuel);
    NoStrayBreak(s, START, env, L.Store([], map[]), fuel);
    if r.Normal? {
      ReadyStore(c.chain, r.env, fr, r.st, r2.vm, w, []);
      StoreLooks(r.st, r2.vm, w);
    } else if r.Returned? {
      StoreLooks(r.st, r2.vm, w);
    }
  }

  lemma ReadyStore(chain: seq<Func>, env: L.Env, fr: Frame, st: L.Store, vm: Vm, w: World, later: seq<bool>)
    requires Ready(chain, env, fr, st, vm, w, later)
    ensures StoreRel(st, vm, w)
  {
  }
}
