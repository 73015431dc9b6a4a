/**
How the registers and upvalues of the machine stand for the variables of the
language, and that each primitive step of the machine keeps them so.
*/
module ScopeRel {
  import opened Scopes
  import opened ScopeCode
  import opened ScopeStatic
  import opened ScopeVm
  import L = ScopeLang

  /** The cell each register holds, and the cell each upvalue object holds. */
  datatype World = World(cellAt: seq<nat>, cellOf: seq<nat>)

  /** A running function: its first register, its closure's upvalues, and the functions around it when compiled. */
  datatype Frame = Frame(base: nat, ids: seq<nat>, full: seq<Func>)

  // ------------------------------------------------------------- scopes

  ghost predicate LevelIs(b: seq<L.Binding>, vars: seq<Name>) {
    |b| == |vars| && forall i :: 0 <= i < |b| ==> b[i].x == vars[i]
  }

  /** The variables in scope are the active variables the parser knows. */
  ghost predicate EnvIs(env: L.Env, chain: seq<Func>) {
    |env| == |chain| && forall d :: 0 <= d < |env| ==> LevelIs(env[d], chain[d].actvar)
  }

  /** Searching the bindings of a function and searching its active variables is the same. */
  lemma {:induction false} LastInIs(b: seq<L.Binding>, vars: seq<Name>, x: Name)
    requires LevelIs(b, vars)
    ensures L.LastIn(b, x) == SearchVar(vars, x)
  {
    if b != [] {
      assert b[|b| - 1].x == vars[|b| - 1];
      LastInIs(b[..|b| - 1], vars[..|b| - 1], x);
    }
  }

  lemma {:induction false} LookupUndeclared(env: L.Env, chain: seq<Func>, x: Name)
    requires EnvIs(env, chain) && Undeclared(chain, x)
    ensures L.Lookup(env, x) == L.NoCell
  {
    if env != [] {
      var top := |env| - 1;
      assert LevelIs(env[top], chain[top].actvar);
      LastInIs(env[top], chain[top].actvar, x);
      LookupUndeclared(env[..top], chain[..top], x);
    }
  }

  lemma SearchVisible(vars: seq<Name>, x: Name, i: nat)
    requires i < |vars| && vars[i] == x && x !in vars[i + 1..]
    ensures SearchVar(vars, x) == i
  {
    var v := SearchVar(vars, x);
    forall j | i < j < |vars| ensures vars[j] != x {
      assert vars[j] in vars[i + 1..];
    }
    forall j | v < j < |vars| ensures vars[j] != x {
      if v >= 0 {
        assert vars[j] in vars[v + 1..];
      }
    }
  }

  lemma {:induction false} LookupVisible(env: L.Env, chain: seq<Func>, x: Name, d: nat, i: nat)
    requires EnvIs(env, chain) && Visible(chain, x, d, i)
    ensures i < |env[d]| && L.Lookup(env, x) == L.Cell(env[d][i].cell)
  {
    var top := |env| - 1;
    assert LevelIs(env[d], chain[d].actvar) && LevelIs(env[top], chain[top].actvar);
    LastInIs(env[top], chain[top].actvar, x);
    if d == top {
      SearchVisible(chain[top].actvar, x, i);
    } else {
      LookupVisible(env[..top], chain[..top], x, d, i);
    }
  }

  // ------------------------------------------------------------- values

  function CellAt(env: L.Env, v: (nat, nat)): nat
    requires v.0 < |env| && v.1 < |env[v.0]|
  {
    env[v.0][v.1].cell
  }

  /** Upvalue `k` of a closure is the variable that the parser meant by it. */
  ghost predicate BoundAt(env: L.Env, full: seq<Func>, ids: seq<nat>, cellOf: seq<nat>, k: nat)
    requires Linked(full) && |full| == |env| + 1 && k < |Top(full).upvalues|
  {
    var v := Denote(full, |env|, k);
    && k < |ids| && ids[k] < |cellOf|
    && v.1 < |env[v.0]| && cellOf[ids[k]] == CellAt(env, v)
  }

  ghost predicate Bound(env: L.Env, full: seq<Func>, ids: seq<nat>, cellOf: seq<nat>) {
    && |full| == |env| + 1 && Linked(full) && |ids| == |Top(full).upvalues|
    && forall k :: 0 <= k < |ids| ==> BoundAt(env, full, ids, cellOf, k)
  }

  /** Closure (`p`, `ids`) is the function `param`, `body` in the scope `env`, compiled where `chain` stood. */
  ghost predicate FunRel(chain: seq<Func>, f: L.Value, p: Proto, ids: seq<nat>, cellOf: seq<nat>)
    requires f.FunV?
  {
    && chain != [] && StaticOk(chain) && EnvIs(f.env, chain)
    && CompileFunction(f.param, f.body, chain).Done? && CompileFunction(f.param, f.body, chain).code == p
    && Bound(f.env, CompileBody(f.param, f.body, chain).chain, ids, cellOf)
  }

  ghost predicate ValueRel(v: L.Value, w: Value, cellOf: seq<nat>) {
    match v
    case NilV => w.NilV?
    case NumV(n) => w == NumV(n)
    case FunV(_, _, _) => w.FunV? && exists chain :: FunRel(chain, v, w.p, w.upvals, cellOf)
  }

  lemma BoundGrows(env: L.Env, full: seq<Func>, ids: seq<nat>, cellOf: seq<nat>, cellOf2: seq<nat>)
    requires Bound(env, full, ids, cellOf) && cellOf <= cellOf2
    ensures Bound(env, full, ids, cellOf2)
  {
    forall k | 0 <= k < |ids| ensures BoundAt(env, full, ids, cellOf2, k) {
      assert BoundAt(env, full, ids, cellOf, k);
    }
  }

  lemma ValueGrows(v: L.Value, w: Value, cellOf: seq<nat>, cellOf2: seq<nat>)
    requires ValueRel(v, w, cellOf) && cellOf <= cellOf2
    ensures ValueRel(v, w, cellOf2)
  {
    if v.FunV? {
      var chain :| FunRel(chain, v, w.p, w.upvals, cellOf);
      BoundGrows(v.env, CompileBody(v.param, v.body, chain).chain, w.upvals, cellOf, cellOf2);
      assert FunRel(chain, v, w.p, w.upvals, cellOf2);
    }
  }

  // ------------------------------------------------------------- the store

  ghost predicate Injective(s: seq<nat>) {
    forall i, j :: 0 <= i < j < |s| ==> s[i] != s[j]
  }

  /** Register `s` holds what its cell holds. */
  ghost predicate SlotOk(st: L.Store, vm: Vm, w: World, s: nat)
    requires s < |vm.stack| && s < |w.cellAt|
  {
    w.cellAt[s] < |st.cells| && ValueRel(st.cells[w.cellAt[s]], vm.stack[s], w.cellOf)
  }

  /** Upvalue `id` points at the register of its cell, or holds what its cell holds and no register does. */
  ghost predicate UpvalOk(st: L.Store, vm: Vm, w: World, id: nat)
    requires id < |vm.ups| && id < |w.cellOf|
  {
    && w.cellOf[id] < |st.cells|
    && match vm.ups[id]
       case Open(s) => s < |w.cellAt| && w.cellAt[s] == w.cellOf[id]
       case Closed(v) => w.cellOf[id] !in w.cellAt && ValueRel(st.cells[w.cellOf[id]], v, w.cellOf)
  }

  ghost predicate GlobalsRel(a: map<Name, L.Value>, b: map<Name, Value>, cellOf: seq<nat>) {
    a.Keys == b.Keys && forall x :: x in a ==> ValueRel(a[x], b[x], cellOf)
  }

  ghost predicate SlotsOk(st: L.Store, vm: Vm, w: World) {
    |w.cellAt| == |vm.stack| && forall s :: 0 <= s < |vm.stack| ==> SlotOk(st, vm, w, s)
  }

  ghost predicate UpvalsOk(st: L.Store, vm: Vm, w: World) {
    |w.cellOf| == |vm.ups| && forall id :: 0 <= id < |vm.ups| ==> UpvalOk(st, vm, w, id)
  }

  /** Store and machine agree: every variable has its own place, shared by all closures that name it. */
  ghost predicate StoreRel(st: L.Store, vm: Vm, w: World) {
    && SlotsOk(st, vm, w) && UpvalsOk(st, vm, w)
    && Injective(w.cellAt) && Injective(w.cellOf) && GlobalsRel(st.globals, vm.globals, w.cellOf)
  }

  // ------------------------------------------------------------- frames

  /** The running function's registers are its variables, in order, and its upvalues are bound. */
  ghost predicate FrameRel(chain: seq<Func>, env: L.Env, fr: Frame, w: World) {
    && chain != [] && EnvIs(env, chain)
    && Bound(env[..|env| - 1], fr.full, fr.ids, w.cellOf)
    && LocalsAt(env[|env| - 1], fr.base, w.cellAt)
  }

  ghost predicate LocalsAt(b: seq<L.Binding>, base: nat, cellAt: seq<nat>) {
    |cellAt| == base + |b| && forall i :: 0 <= i < |b| ==> cellAt[base + i] == b[i].cell
  }

  /** Variable `i` belongs to a block that will close it: one around the loop, by `later`, or one in it, by its mark. */
  ghost predicate WillClose(later: seq<bool>, blocks: seq<Scopes.Block>, i: nat) {
    if i < |later| then later[i] else Marked(blocks, i)
  }

  ghost predicate OpenOk(later: seq<bool>, blocks: seq<Scopes.Block>, vm: Vm, base: nat) {
    forall id :: 0 <= id < |vm.ups| ==> OpenAtOk(later, blocks, vm.ups[id], base)
  }

  ghost predicate OpenAtOk(later: seq<bool>, blocks: seq<Scopes.Block>, u: UpVal, base: nat) {
    u.Open? && u.slot >= base ==> WillClose(later, blocks, u.slot - base)
  }

  ghost predicate LaterOk(later: seq<bool>, blocks: seq<Scopes.Block>) {
    forall i :: 0 <= i < |later| && Marked(blocks, i) ==> later[i]
  }

  /** No register below `base` has been captured meanwhile. */
  ghost predicate OpenBelow(vm: Vm, vm2: Vm, base: nat) {
    |vm.ups| <= |vm2.ups| && forall id :: 0 <= id < |vm2.ups| ==> StillOpen(vm, vm2, base, id)
  }

  ghost predicate StillOpen(vm: Vm, vm2: Vm, base: nat, id: nat)
    requires id < |vm2.ups|
  {
    vm2.ups[id].Open? && vm2.ups[id].slot < base ==> id < |vm.ups| && vm.ups[id] == vm2.ups[id]
  }

  lemma OpenBelowRefl(vm: Vm, vm2: Vm, base: nat)
    requires vm.ups == vm2.ups
    ensures OpenBelow(vm, vm2, base)
  {
  }

  lemma OpenBelowTrans(a: Vm, b: Vm, c: Vm, base: nat)
    requires OpenBelow(a, b, base) && OpenBelow(b, c, base)
    ensures OpenBelow(a, c, base)
  {
    forall id | 0 <= id < |c.ups| ensures StillOpen(a, c, base, id) {
      assert StillOpen(b, c, base, id);
      if id < |b.ups| {
        assert StillOpen(a, b, base, id);
      }
    }
  }

  lemma OpenOkGrows(later: seq<bool>, blocks: seq<Scopes.Block>, blocks2: seq<Scopes.Block>, vm: Vm, base: nat)
    requires OpenOk(later, blocks, vm, base) && BlocksGrow(blocks, blocks2)
    ensures OpenOk(later, blocks2, vm, base)
  {
    forall id | 0 <= id < |vm.ups| ensures OpenAtOk(later, blocks2, vm.ups[id], base) {
      var u := vm.ups[id];
      assert OpenAtOk(later, blocks, u, base);
      if u.Open? && u.slot - base >= |later| {
        MarkedGrows(blocks, blocks2, u.slot - base);
      }
    }
  }

  lemma LaterOkShrinks(later: seq<bool>, blocks: seq<Scopes.Block>, blocks2: seq<Scopes.Block>)
    requires LaterOk(later, blocks2) && BlocksGrow(blocks, blocks2)
    ensures LaterOk(later, blocks)
  {
    forall i | 0 <= i < |later| && Marked(blocks, i) ensures later[i] {
      MarkedGrows(blocks, blocks2, i);
    }
  }

  // ------------------------------------------------------ capturing variables

  /** An upvalue for register `slot`: the one there is, or a new one. */
  lemma FindUpvalSim(st: L.Store, vm: Vm, w: World, slot: nat) returns (w2: World)
    requires StoreRel(st, vm, w) && slot < |vm.stack|
    ensures w2.cellAt == w.cellAt && w.cellOf <= w2.cellOf
    ensures var (id, vm2) := FindUpval(vm, slot);
      && StoreRel(st, vm2, w2) && vm2.stack == vm.stack
      && id < |w2.cellOf| && w2.cellOf[id] == w.cellAt[slot]
  {
    var k := FindOpen(vm.ups, slot);
    if k >= 0 {
      w2 := w;
      assert UpvalOk(st, vm, w, k);
    } else {
      w2 := w.(cellOf := w.cellOf + [w.cellAt[slot]]);
      NewUpvalSim(st, vm, w, slot);
    }
  }

  lemma NotYetCaptured(st: L.Store, vm: Vm, w: World, slot: nat)
    requires StoreRel(st, vm, w) && slot < |vm.stack| && Open(slot) !in vm.ups
    ensures w.cellAt[slot] !in w.cellOf
  {
    forall id | 0 <= id < |w.cellOf| ensures w.cellOf[id] != w.cellAt[slot] {
      assert UpvalOk(st, vm, w, id);
      if vm.ups[id].Open? {
        assert vm.ups[id] == Open(vm.ups[id].slot);
        assert vm.ups[id].slot != slot;
      }
    }
  }

  lemma StoreRelGrows(st: L.Store, vm: Vm, w: World, cellOf2: seq<nat>)
    requires StoreRel(st, vm, w) && w.cellOf <= cellOf2
    ensures SlotsOk(st, vm, w.(cellOf := cellOf2)) && GlobalsRel(st.globals, vm.globals, cellOf2)
    ensures forall id :: 0 <= id < |vm.ups| ==> UpvalOk(st, vm, w.(cellOf := cellOf2), id)
  {
    var w2 := w.(cellOf := cellOf2);
    forall s | 0 <= s < |vm.stack| ensures SlotOk(st, vm, w2, s) {
      assert SlotOk(st, vm, w, s);
      ValueGrows(st.cells[w.cellAt[s]], vm.stack[s], w.cellOf, cellOf2);
    }
    forall id | 0 <= id < |vm.ups| ensures UpvalOk(st, vm, w2, id) {
      assert UpvalOk(st, vm, w, id);
      if vm.ups[id].Closed? {
        ValueGrows(st.cells[w.cellOf[id]], vm.ups[id].v, w.cellOf, cellOf2);
      }
    }
    forall x | x in st.globals ensures ValueRel(st.globals[x], vm.globals[x], cellOf2) {
      ValueGrows(st.globals[x], vm.globals[x], w.cellOf, cellOf2);
    }
  }

  lemma NewUpvalSim(st: L.Store, vm: Vm, w: World, slot: nat)
    requires StoreRel(st, vm, w) && slot < |vm.stack| && Open(slot) !in vm.ups
    ensures StoreRel(st, vm.(ups := vm.ups + [Open(slot)]), w.(cellOf := w.cellOf + [w.cellAt[slot]]))
  {
    var vm2 := vm.(ups := vm.ups + [Open(slot)]);
    var w2 := w.(cellOf := w.cellOf + [w.cellAt[slot]]);
    NotYetCaptured(st, vm, w, slot);
    StoreRelGrows(st, vm, w, w2.cellOf);
    assert SlotsOk(st, vm2, w2) by {
      forall s | 0 <= s < |vm2.stack| ensures SlotOk(st, vm2, w2, s) {
        assert SlotOk(st, vm, w2, s);
      }
    }
    forall id | 0 <= id < |vm2.ups| ensures UpvalOk(st, vm2, w2, id) {
      if id < |vm.ups| {
        assert UpvalOk(st, vm, w2, id);
      } else {
        assert SlotOk(st, vm, w, slot);
      }
    }
    forall i, j | 0 <= i < j < |w2.cellOf| ensures w2.cellOf[i] != w2.cellOf[j] {
      if j == |w.cellOf| {
        assert w.cellOf[i] in w.cellOf;
      }
    }
  }
}
