/**
The primitive steps of the machine: making closures, reading and writing
variables, new variables, and leaving blocks, each against what it means for
the variables of the language.
*/
module ScopeSteps {
  import opened Scopes
  import opened ScopeCode
  import opened ScopeStatic
  import opened ScopeVm
  import opened ScopeRel
  import L = ScopeLang

  // ------------------------------------------------------------ OP_CLOSURE

  /** The running function `fr` can make a closure of the function compiled last in `full`. */
  ghost predicate CanCapture(full: seq<Func>, env: L.Env, fr: Frame, w: World) {
    && env != [] && |full| == |env| + 1 && Linked(full) && Linked(full[..|env|])
    && UpvaluesKept(full[..|env|], fr.full)
    && Bound(env[..|env| - 1], fr.full, fr.ids, w.cellOf)
    && LocalsAt(env[|env| - 1], fr.base, w.cellAt)
    && |full[|env| - 1].actvar| == |env[|env| - 1]|
  }

  /** The captured variables of the running function are all in blocks that will close them. */
  ghost predicate CapturesClose(full: seq<Func>, later: seq<bool>)
    requires |full| > 1
  {
    forall u :: u in Top(full).upvalues && u.fromLocal ==> WillClose(later, full[|full| - 2].blocks, u.info)
  }

  /** Descriptor `k` leads to the cell of the variable it stands for. */
  lemma DescCell(full: seq<Func>, env: L.Env, fr: Frame, w: World, k: nat)
    requires CanCapture(full, env, fr, w) && k < |Top(full).upvalues|
    ensures var u := Top(full).upvalues[k];
      var v := Denote(full, |env|, k);
      && v.0 < |env| && v.1 < |env[v.0]|
      && (if u.fromLocal then
            fr.base + u.info < |w.cellAt| && w.cellAt[fr.base + u.info] == CellAt(env, v)
          else
            u.info < |fr.ids| && fr.ids[u.info] < |w.cellOf| && w.cellOf[fr.ids[u.info]] == CellAt(env, v))
  {
    var n := |env|;
    var u := Top(full).upvalues[k];
    assert FuncLinked(full, n) && DescOk(full, n, u);
    if !u.fromLocal {
      var outer := full[..n];
      DenoteStable(outer, full, n - 1, u.info);
      DenoteStable(outer, fr.full, n - 1, u.info);
      assert BoundAt(env[..n - 1], fr.full, fr.ids, w.cellOf, u.info);
    }
  }

  lemma OpenedOk(later: seq<bool>, blocks: seq<Scopes.Block>, vm: Vm, base: nat, i: nat)
    requires OpenOk(later, blocks, vm, base) && WillClose(later, blocks, i)
    ensures var vm2 := FindUpval(vm, base + i).1;
      OpenOk(later, blocks, vm2, base) && OpenBelow(vm, vm2, base)
  {
    var vm2 := FindUpval(vm, base + i).1;
    forall id | 0 <= id < |vm2.ups|
      ensures OpenAtOk(later, blocks, vm2.ups[id], base) && StillOpen(vm, vm2, base, id)
    {
      if id < |vm.ups| {
        assert OpenAtOk(later, blocks, vm.ups[id], base);
      }
    }
  }

  /** The first `n` captures bind the variables that the parser meant. */
  ghost predicate CapturedOk(
      full: seq<Func>, env: L.Env, fr: Frame, st: L.Store, vm: Vm, w: World, later: seq<bool>, n: nat, r: Captured,
      w2: World)
    requires env != [] && |full| == |env| + 1 && Linked(full) && n <= |Top(full).upvalues|
  {
    && r.Got? && |r.ids| == n
    && w2.cellAt == w.cellAt && w.cellOf <= w2.cellOf
    && r.vm.stack == vm.stack && StoreRel(st, r.vm, w2)
    && (forall k :: 0 <= k < n ==> BoundAt(env, full, r.ids, w2.cellOf, k))
    && OpenOk(later, full[|env| - 1].blocks, r.vm, fr.base) && OpenBelow(vm, r.vm, fr.base)
  }

  lemma {:induction false} CaptureSim(
      full: seq<Func>, env: L.Env, fr: Frame, st: L.Store, vm: Vm, w: World, later: seq<bool>, n: nat)
    returns (w2: World)
    requires CanCapture(full, env, fr, w) && StoreRel(st, vm, w)
    requires OpenOk(later, full[|env| - 1].blocks, vm, fr.base) && CapturesClose(full, later)
    requires n <= |Top(full).upvalues|
    ensures CapturedOk(full, env, fr, st, vm, w, later, n, Capture(Top(full).upvalues[..n], fr.base, fr.ids, vm), w2)
    decreases n
  {
    var ups := Top(full).upvalues;
    if n == 0 {
      w2 := w;
      OpenBelowRefl(vm, vm, fr.base);
    } else {
      var w1 := CaptureSim(full, env, fr, st, vm, w, later, n - 1);
      assert ups[..n][..n - 1] == ups[..n - 1];
      var r := Capture(ups[..n - 1], fr.base, fr.ids, vm);
      w2 := CaptureOneSim(full, env, fr, st, vm, w, later, n, r, w1);
    }
  }

  lemma CaptureOneSim(
      full: seq<Func>, env: L.Env, fr: Frame, st: L.Store, vm: Vm, w: World, later: seq<bool>, n: nat, r: Captured,
      w1: World)
    returns (w2: World)
    requires CanCapture(full, env, fr, w) && CapturesClose(full, later)
    requires 0 < n <= |Top(full).upvalues| && CapturedOk(full, env, fr, st, vm, w, later, n - 1, r, w1)
    requires r == Capture(Top(full).upvalues[..n - 1], fr.base, fr.ids, vm)
    ensures CapturedOk(full, env, fr, st, vm, w, later, n, Capture(Top(full).upvalues[..n], fr.base, fr.ids, vm), w2)
  {
    hide StoreRel, Bound, FindUpval, OpenOk, OpenBelow, WillClose;
    var ups := Top(full).upvalues;
    var u := ups[n - 1];
    assert ups[..n][..n - 1] == ups[..n - 1] && ups[..n][n - 1] == u;
    DescCell(full, env, fr, w, n - 1);
    StoreSizes(st, r.vm, w1);
    if u.fromLocal {
      w2 := FindUpvalSim(st, r.vm, w1, fr.base + u.info);
      OpenedOk(later, full[|env| - 1].blocks, r.vm, fr.base, u.info);
      OpenBelowTrans(vm, r.vm, FindUpval(r.vm, fr.base + u.info).1, fr.base);
    } else {
      w2 := w1;
    }
    var r2 := Capture(ups[..n], fr.base, fr.ids, vm);
    forall k | 0 <= k < n ensures BoundAt(env, full, r2.ids, w2.cellOf, k) {
      if k < n - 1 {
        assert BoundAt(env, full, r.ids, w1.cellOf, k);
      }
    }
  }

  lemma StoreSizes(st: L.Store, vm: Vm, w: World)
    requires StoreRel(st, vm, w)
    ensures |w.cellAt| == |vm.stack| && |w.cellOf| == |vm.ups|
  {
  }

  // ------------------------------------------------------ the state of a run

  /** The machine is ready for code compiled where `chain` stands. */
  ghost predicate Ready(chain: seq<Func>, env: L.Env, fr: Frame, st: L.Store, vm: Vm, w: World, later: seq<bool>) {
    && FrameRel(chain, env, fr, w) && StoreRel(st, vm, w)
    && |later| <= |Top(chain).actvar| && OpenOk(later, Top(chain).blocks, vm, fr.base)
  }

  /** What is compiled up to `chain` is part of the running function, and marks its variables in time. */
  ghost predicate Within(chain: seq<Func>, fr: Frame, later: seq<bool>) {
    chain != [] && UpvaluesKept(chain, fr.full) && LaterOk(later, Top(chain).blocks)
  }

  /** What a step leaves unchanged: registers keep their variables, and closures their upvalues. */
  ghost predicate Keeps(w: World, w2: World, vm: Vm, vm2: Vm, base: nat) {
    w2.cellAt == w.cellAt && w.cellOf <= w2.cellOf && OpenBelow(vm, vm2, base)
  }

  /** A function expression makes a closure of the variables in scope. */
  lemma ClosureSim(
      param: Name, body: L.Stat, chain: seq<Func>, env: L.Env, fr: Frame, st: L.Store, vm: Vm, w: World,
      later: seq<bool>)
    returns (w2: World)
    requires chain != [] && StaticOk(chain) && Ready(chain, env, fr, st, vm, w, later)
    requires var c := CompileFunction(param, body, chain); c.Done? && Within(c.chain, fr, later)
    ensures var c := CompileFunction(param, body, chain);
      var r := MakeClosure(c.code, fr.base, fr.ids, vm);
      && r.Value? && ValueRel(L.FunV(param, body, env), r.v, w2.cellOf)
      && Keeps(w, w2, vm, r.vm, fr.base) && StoreRel(st, r.vm, w2) && r.vm.stack == vm.stack
      && OpenOk(later, Top(c.chain).blocks, r.vm, fr.base)
  {
    hide StoreRel, OpenOk, StaticOk, Bound, OpenBelow;
    var c := CompileFunction(param, body, chain);
    var full := CompileBody(param, body, chain).chain;
    ClosureReady(param, body, chain, env, fr, w, later);
    GrownOpen(chain, c.chain, vm, later, fr.base);
    w2 := CaptureSim(full, env, fr, st, vm, w, later, |Top(full).upvalues|);
    var ups := Top(full).upvalues;
    assert ups[..|ups|] == ups;
    var r := MakeClosure(c.code, fr.base, fr.ids, vm);
    ClosureValue(param, body, chain, env, w2, r.v);
  }

  lemma GrownOpen(chain: seq<Func>, chain2: seq<Func>, vm: Vm, later: seq<bool>, base: nat)
    requires chain != [] && Grows(chain, chain2) && OpenOk(later, Top(chain).blocks, vm, base)
    ensures OpenOk(later, Top(chain2).blocks, vm, base)
  {
    assert FuncGrows(Top(chain), Top(chain2));
    OpenOkGrows(later, Top(chain).blocks, Top(chain2).blocks, vm, base);
  }

  lemma ClosureReady(param: Name, body: L.Stat, chain: seq<Func>, env: L.Env, fr: Frame, w: World, later: seq<bool>)
    requires chain != [] && StaticOk(chain) && FrameRel(chain, env, fr, w)
    requires var c := CompileFunction(param, body, chain); c.Done? && Within(c.chain, fr, later)
    ensures var full := CompileBody(param, body, chain).chain;
      CanCapture(full, env, fr, w) && CapturesClose(full, later)
  {
    hide CompileBody;
    var c := CompileFunction(param, body, chain);
    var full := CompileBody(param, body, chain).chain;
    CompileFunctionOk(param, body, chain);
    var n := |env|;
    assert full[..n] == c.chain && full[n - 1] == c.chain[n - 1];
    assert FuncGrows(chain[n - 1], c.chain[n - 1]);
    assert LevelIs(env[n - 1], chain[n - 1].actvar);
    assert CapturesMarked(full, n - 1);
    forall u | u in Top(full).upvalues && u.fromLocal ensures WillClose(later, full[n - 1].blocks, u.info) {
      assert Marked(full[n - 1].blocks, u.info);
    }
  }

  lemma ClosureValue(param: Name, body: L.Stat, chain: seq<Func>, env: L.Env, w: World, v: Value)
    requires chain != [] && StaticOk(chain) && EnvIs(env, chain)
    requires var c := CompileFunction(param, body, chain); c.Done? && v.FunV? && v.p == c.code
    requires Bound(env, CompileBody(param, body, chain).chain, v.upvals, w.cellOf)
    ensures ValueRel(L.FunV(param, body, env), v, w.cellOf)
  {
    assert FunRel(chain, L.FunV(param, body, env), v.p, v.upvals, w.cellOf);
  }

  // ------------------------------------------------------ finding variables

  /** What the parser found is where the variable is. */
  ghost predicate Placed(found: Found, x: Name, env: L.Env, fr: Frame, w: World) {
    match found
    case Global => L.Lookup(env, x) == L.NoCell
    case Local(i) => fr.base + i < |w.cellAt| && L.Lookup(env, x) == L.Cell(w.cellAt[fr.base + i])
    case Upvalue(k) =>
      k < |fr.ids| && fr.ids[k] < |w.cellOf| && L.Lookup(env, x) == L.Cell(w.cellOf[fr.ids[k]])
    case TooManyUpvalues => true
  }

  /** A resolved name leads to the variable that the name means. */
  lemma VarSim(x: Name, chain: seq<Func>, env: L.Env, fr: Frame, w: World)
    requires chain != [] && StaticOk(chain) && FrameRel(chain, env, fr, w)
    requires var r := SingleVarAux(chain, x, true); r.found.TooManyUpvalues? || UpvaluesKept(r.chain, fr.full)
    ensures Placed(SingleVarAux(chain, x, true).found, x, env, fr, w)
  {
    hide SingleVarAux, ChainOk;
    var r := SingleVarAux(chain, x, true);
    SingleVarAuxMeans(chain, x, true);
    var n := |env| - 1;
    match r.found {
      case Global => LookupUndeclared(env, chain, x);
      case Local(i) => LookupVisible(env, chain, x, n, i);
      case Upvalue(k) =>
        var v := Denote(r.chain, n, k);
        LookupVisible(env, chain, x, v.0, v.1);
        DenoteStable(r.chain, fr.full, n, k);
        assert BoundAt(env[..n], fr.full, fr.ids, w.cellOf, k);
      case TooManyUpvalues =>
    }
  }

  lemma ReadUpvalSim(st: L.Store, vm: Vm, w: World, id: nat)
    requires StoreRel(st, vm, w) && id < |w.cellOf|
    ensures Readable(vm, id) && w.cellOf[id] < |st.cells|
    ensures ValueRel(st.cells[w.cellOf[id]], ReadUpval(vm, id), w.cellOf)
  {
    assert UpvalOk(st, vm, w, id);
    if vm.ups[id].Open? {
      assert SlotOk(st, vm, w, vm.ups[id].slot);
    }
  }

  lemma ReadSlotSim(st: L.Store, vm: Vm, w: World, s: nat)
    requires StoreRel(st, vm, w) && s < |w.cellAt|
    ensures s < |vm.stack| && w.cellAt[s] < |st.cells|
    ensures ValueRel(st.cells[w.cellAt[s]], vm.stack[s], w.cellOf)
  {
    assert SlotOk(st, vm, w, s);
  }

  // ------------------------------------------------------ writing variables

  /** Registers and upvalues of other cells do not change when one cell and its place do. */
  lemma WriteSlotSim(st: L.Store, vm: Vm, w: World, s: nat, v: L.Value, x: Value)
    requires StoreRel(st, vm, w) && s < |w.cellAt| && ValueRel(v, x, w.cellOf)
    ensures s < |vm.stack| && w.cellAt[s] < |st.cells|
    ensures StoreRel(st.(cells := st.cells[w.cellAt[s] := v]), vm.(stack := vm.stack[s := x]), w)
  {
    hide ValueRel;
    ReadSlotSim(st, vm, w, s);
    var c := w.cellAt[s];
    var st2, vm2 := st.(cells := st.cells[c := v]), vm.(stack := vm.stack[s := x]);
    forall i | 0 <= i < |vm2.stack| ensures SlotOk(st2, vm2, w, i) {
      assert SlotOk(st, vm, w, i);
      assert i != s ==> w.cellAt[i] != c;
    }
    forall id | 0 <= id < |vm2.ups| ensures UpvalOk(st2, vm2, w, id) {
      assert UpvalOk(st, vm, w, id);
      if vm.ups[id].Closed? {
        assert w.cellAt[s] in w.cellAt;
      }
    }
  }

  lemma WriteClosedSim(st: L.Store, vm: Vm, w: World, id: nat, v: L.Value, x: Value)
    requires StoreRel(st, vm, w) && id < |w.cellOf| && vm.ups[id].Closed? && ValueRel(v, x, w.cellOf)
    ensures w.cellOf[id] < |st.cells|
    ensures StoreRel(st.(cells := st.cells[w.cellOf[id] := v]), vm.(ups := vm.ups[id := Closed(x)]), w)
  {
    hide ValueRel;
    assert UpvalOk(st, vm, w, id);
    var c := w.cellOf[id];
    var st2, vm2 := st.(cells := st.cells[c := v]), vm.(ups := vm.ups[id := Closed(x)]);
    forall i | 0 <= i < |vm2.stack| ensures SlotOk(st2, vm2, w, i) {
      assert SlotOk(st, vm, w, i);
      assert w.cellAt[i] in w.cellAt;
    }
    forall k | 0 <= k < |vm2.ups| ensures UpvalOk(st2, vm2, w, k) {
      assert UpvalOk(st, vm, w, k);
      assert k != id ==> w.cellOf[k] != c;
    }
  }

  /** The same upvalues are open, on the same registers. */
  ghost predicate SameOpen(vm: Vm, vm2: Vm) {
    && |vm.ups| == |vm2.ups|
    && forall id :: 0 <= id < |vm.ups| ==> vm.ups[id] == vm2.ups[id] || (vm.ups[id].Closed? && vm2.ups[id].Closed?)
  }

  lemma SameOpenKeeps(later: seq<bool>, blocks: seq<Scopes.Block>, vm: Vm, vm2: Vm, base: nat)
    requires SameOpen(vm, vm2) && OpenOk(later, blocks, vm, base)
    ensures OpenOk(later, blocks, vm2, base) && OpenBelow(vm, vm2, base)
  {
    forall id | 0 <= id < |vm2.ups|
      ensures OpenAtOk(later, blocks, vm2.ups[id], base) && StillOpen(vm, vm2, base, id)
    {
      assert OpenAtOk(later, blocks, vm.ups[id], base);
    }
  }

  lemma WriteUpvalSim(st: L.Store, vm: Vm, w: World, id: nat, v: L.Value, x: Value)
    requires StoreRel(st, vm, w) && id < |w.cellOf| && ValueRel(v, x, w.cellOf)
    ensures Readable(vm, id) && w.cellOf[id] < |st.cells|
    ensures StoreRel(st.(cells := st.cells[w.cellOf[id] := v]), WriteUpval(vm, id, x), w)
    ensures SameOpen(vm, WriteUpval(vm, id, x))
  {
    ReadUpvalSim(st, vm, w, id);
    assert UpvalOk(st, vm, w, id);
    match vm.ups[id] {
      case Open(s) => WriteSlotSim(st, vm, w, s, v, x);
      case Closed(_) => WriteClosedSim(st, vm, w, id, v, x);
    }
  }

  lemma WriteGlobalSim(st: L.Store, vm: Vm, w: World, n: Name, v: L.Value, x: Value)
    requires StoreRel(st, vm, w) && ValueRel(v, x, w.cellOf)
    ensures StoreRel(st.(globals := st.globals[n := v]), vm.(globals := vm.globals[n := x]), w)
  {
    hide ValueRel;
    var st2, vm2 := st.(globals := st.globals[n := v]), vm.(globals := vm.globals[n := x]);
    forall s | 0 <= s < |vm2.stack| ensures SlotOk(st2, vm2, w, s) {
      assert SlotOk(st, vm, w, s);
    }
    forall id | 0 <= id < |vm2.ups| ensures UpvalOk(st2, vm2, w, id) {
      assert UpvalOk(st, vm, w, id);
    }
  }

  /** An assignment writes to the variable that the name means. */
  lemma StoreSim(
      x: Name, found: Found, target: Target, env: L.Env, fr: Frame, st: L.Store, vm: Vm, w: World, v: L.Value,
      y: Value)
    requires StoreRel(st, vm, w) && ValueRel(v, y, w.cellOf) && Placed(found, x, env, fr, w)
    requires target == match found
                       case Local(i) => ToLocal(i)
                       case Upvalue(k) => ToUpval(k)
                       case _ => ToGlobal(x)
    requires !found.TooManyUpvalues?
    ensures var r, r2 := L.Write(env, st, x, v), StoreTo(target, fr.base, fr.ids, vm, y);
      r.Normal? && r.env == env && r2.Normal? && StoreRel(r.st, r2.vm, w) && SameOpen(vm, r2.vm)
  {
    hide StoreRel, ValueRel, WriteUpval;
    match found {
      case Global => WriteGlobalSim(st, vm, w, x, v, y);
      case Local(i) =>
        WriteSlotSim(st, vm, w, fr.base + i, v, y);
      case Upvalue(k) => WriteUpvalSim(st, vm, w, fr.ids[k], v, y);
    }
  }

  // ------------------------------------------------------ declaring variables

  /** A new variable in a new register. */
  function Pushed(w: World, st: L.Store): World {
    w.(cellAt := w.cellAt + [|st.cells|])
  }

  lemma PushSim(st: L.Store, vm: Vm, w: World, v: L.Value, x: Value)
    requires StoreRel(st, vm, w) && ValueRel(v, x, w.cellOf)
    ensures StoreRel(L.Alloc(st, v), vm.(stack := vm.stack + [x]), Pushed(w, st))
  {
    hide ValueRel;
    var st2, vm2, w2 := L.Alloc(st, v), vm.(stack := vm.stack + [x]), Pushed(w, st);
    forall s | 0 <= s < |vm2.stack| ensures SlotOk(st2, vm2, w2, s) {
      if s < |vm.stack| {
        assert SlotOk(st, vm, w, s);
      }
    }
    forall id | 0 <= id < |vm2.ups| ensures UpvalOk(st2, vm2, w2, id) {
      assert UpvalOk(st, vm, w, id);
    }
    forall i, j | 0 <= i < j < |w2.cellAt| ensures w2.cellAt[i] != w2.cellAt[j] {
      assert SlotOk(st, vm, w, i);
    }
  }

  lemma PushFrame(x: Name, chain: seq<Func>, env: L.Env, fr: Frame, st: L.Store, w: World)
    requires FrameRel(chain, env, fr, w)
    ensures FrameRel(NewLocal(chain, x), L.Declare(env, x, |st.cells|), fr, Pushed(w, st))
  {
    var chain2, env2 := NewLocal(chain, x), L.Declare(env, x, |st.cells|);
    forall d | 0 <= d < |env2| ensures LevelIs(env2[d], chain2[d].actvar) {
      assert LevelIs(env[d], chain[d].actvar);
    }
    assert env2[..|env2| - 1] == env[..|env| - 1];
  }

  /** After a declaration everything is as before, with one more variable. */
  lemma PushReady(
      x: Name, chain: seq<Func>, env: L.Env, fr: Frame, st: L.Store, vm: Vm, w: World, later: seq<bool>, v: L.Value,
      y: Value)
    requires chain != [] && Ready(chain, env, fr, st, vm, w, later) && ValueRel(v, y, w.cellOf)
    ensures Ready(
              NewLocal(chain, x), L.Declare(env, x, |st.cells|), fr, L.Alloc(st, v), vm.(stack := vm.stack + [y]),
              Pushed(w, st), later)
  {
    hide StoreRel, FrameRel;
    PushSim(st, vm, w, v, y);
    PushFrame(x, chain, env, fr, st, w);
    assert OpenOk(later, Top(NewLocal(chain, x)).blocks, vm.(stack := vm.stack + [y]), fr.base) by {
      forall id | 0 <= id < |vm.ups| ensures OpenAtOk(later, Top(NewLocal(chain, x)).blocks, vm.ups[id], fr.base) {
        assert OpenAtOk(later, Top(chain).blocks, vm.ups[id], fr.base);
      }
    }
  }

  // ------------------------------------------------------ leaving variables

  /** No upvalue points at a register from `level` on. */
  ghost predicate NoneOpen(vm: Vm, level: nat) {
    forall id :: 0 <= id < |vm.ups| ==> !OpenFrom(vm.ups[id], level)
  }

  ghost predicate OpenFrom(u: UpVal, level: nat) {
    u.Open? && u.slot >= level
  }

  /**
  Giving up registers loses no variable that a closure still has: they have been closed, or none of them was captured.
  */
  lemma LeaveSim(st: L.Store, vm: Vm, w: World, level: nat, close: bool)
    requires StoreRel(st, vm, w) && level <= |vm.stack| && (close || NoneOpen(vm, level))
    ensures var vm2 := Leave(vm, level, close);
      StoreRel(st, vm2, w.(cellAt := w.cellAt[..level])) && NoneOpen(vm2, level) && |vm2.stack| == level
  {
    hide ValueRel;
    var vm2, w2 := Leave(vm, level, close), w.(cellAt := w.cellAt[..level]);
    forall s | 0 <= s < |vm2.stack| ensures SlotOk(st, vm2, w2, s) {
      assert SlotOk(st, vm, w, s);
    }
    forall id | 0 <= id < |vm2.ups| ensures UpvalOk(st, vm2, w2, id) && !OpenFrom(vm2.ups[id], level) {
      LeaveUpval(st, vm, w, level, close, id);
    }
  }

  lemma LeaveUpval(st: L.Store, vm: Vm, w: World, level: nat, close: bool, id: nat)
    requires StoreRel(st, vm, w) && level <= |vm.stack| && (close || NoneOpen(vm, level)) && id < |vm.ups|
    ensures var vm2 := Leave(vm, level, close);
      UpvalOk(st, vm2, w.(cellAt := w.cellAt[..level]), id) && !OpenFrom(vm2.ups[id], level)
  {
    hide ValueRel;
    var u := vm.ups[id];
    assert UpvalOk(st, vm, w, id) && (close || !OpenFrom(u, level));
    if u.Open? && u.slot >= level {
      assert SlotOk(st, vm, w, u.slot);
      forall s | 0 <= s < level ensures w.cellAt[s] != w.cellOf[id] {
        assert w.cellAt[s] != w.cellAt[u.slot];
      }
    }
  }

  lemma LeaveOpen(later: seq<bool>, blocks: seq<Scopes.Block>, vm: Vm, base: nat, level: nat, close: bool)
    requires OpenOk(later, blocks, vm, base)
    ensures OpenOk(later, blocks, Leave(vm, level, close), base)
    ensures OpenBelow(vm, Leave(vm, level, close), base)
  {
    var vm2 := Leave(vm, level, close);
    forall id | 0 <= id < |vm2.ups|
      ensures OpenAtOk(later, blocks, vm2.ups[id], base) && StillOpen(vm, vm2, base, id)
    {
      assert OpenAtOk(later, blocks, vm.ups[id], base);
    }
  }
}
