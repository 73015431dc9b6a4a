/**
The mutator: allocation, stores with their barriers, stack traffic, interning,
and opening and closing upvalues, each keeping the invariant.
*/
module GcMutator {
  import opened GcState
  import opened GcMark
  import opened GcInvariant
  import opened GcSweep
  import opened GcStrings
  import opened GcCollect

  ghost predicate LiveValue(s: State, v: Value) {
    v.Gc? ==> v.ref in s.heap && !Dead(s, v.ref)
  }

  ghost predicate LiveValues(s: State, vs: seq<Value>) {
    forall v :: v in vs ==> LiveValue(s, v)
  }

  ghost predicate LiveThread(s: State, t: Ref) {
    t in s.heap && s.heap[t].Thread? && !Dead(s, t)
  }

  // ------------------------------------------------------------- allocation

  /** The values of a new object, which is not a string, an upvalue or a thread with open upvalues. */
  ghost predicate NewObj(s: State, r: Ref, obj: Obj) {
    && r !in s.heap
    && (obj.Table? || obj.Closure? || obj.Proto? || obj.Udata? || (obj.Thread? && obj.open == []))
    && LiveValues(s, ObjValues(obj))
  }

  function ObjValues(obj: Obj): seq<Value>
    requires Listed(obj) || obj.Udata?
  {
    match obj
    case Table(refs) => refs
    case Closure(refs) => refs
    case Proto(refs) => refs
    case Udata(refs) => refs
    case Thread(g, stack, _) => [g] + stack
  }

  /** The position in the root list after the main thread, where userdata are linked. */
  function AfterMain(q: seq<Ref>, m: Ref): (i: nat)
    ensures i <= |q|
    ensures m in q ==> i > 0 && q[i - 1] == m
  {
    if q == [] then 0
    else if q[0] == m then 1
    else
      assert m in q ==> m in q[1..];
      var k := AfterMain(q[1..], m);
      if k == 0 then 0 else k + 1
  }

  /** `luaC_link`, or for userdata the insertion of `luaS_newudata` behind the main thread. */
  function Place(s: State, r: Ref, obj: Obj): nat {
    if obj.Udata? then AfterMain(s.rootgc, s.main) else 0
  }

  /** A new object, current white, inserted in the root list; a sweep position beyond it moves along. */
  function Alloc(s: State, r: Ref, obj: Obj): State {
    var i := Place(s, r, obj);
    s.(heap := s.heap[r := obj],
       color := s.color[r := White(s.currentwhite)],
       rootgc := s.rootgc[..i] + [r] + s.rootgc[i..],
       sweeppos := if s.sweeppos > i then s.sweeppos + 1 else s.sweeppos)
  }

  lemma AllocInv(s: State, r: Ref, obj: Obj)
    requires Inv(s) && NewObj(s, r, obj)
    ensures Inv(Alloc(s, r, obj))
  {
    hide StringsOk, RootListOk, UpvalsOk, Live, NeverBlack, PhaseOk;
    AllocStrings(s, r, obj);
    AllocRoots(s, r, obj);
    AllocUpvals(s.heap, s.uvhead, r, obj);
    AllocLive(s, r, obj);
    AllocPhase(s, r, obj);
  }

  lemma AllocStrings(s: State, r: Ref, obj: Obj)
    requires StringsOk(s) && r !in s.heap && !obj.Str?
    ensures StringsOk(Alloc(s, r, obj))
  {
    SameStrings(s, Alloc(s, r, obj));
  }

  lemma AllocRoots(s: State, r: Ref, obj: Obj)
    requires RootListOk(s, {}) && r !in s.heap && InRootList(obj)
    ensures RootListOk(Alloc(s, r, obj), {})
  {
    InsertOnce(s.rootgc, Place(s, r, obj), r);
  }

  lemma InsertOnce(q: seq<Ref>, i: nat, r: Ref)
    requires NoDup(q) && r !in q && i <= |q|
    ensures NoDup(q[..i] + [r] + q[i..])
    ensures forall x :: x in q[..i] + [r] + q[i..] <==> x == r || x in q
  {
    var p := q[..i] + [r] + q[i..];
    assert q == q[..i] + q[i..];
    forall j, k | 0 <= j < k < |p| ensures p[j] != p[k] {
      assert p[j] == if j < i then q[j] else if j == i then r else q[j - 1];
      assert p[k] == if k < i then q[k] else if k == i then r else q[k - 1];
    }
  }

  lemma AllocUpvals(h: Heap, uvhead: seq<Ref>, r: Ref, obj: Obj)
    requires UpvalsOk(h, uvhead) && r !in h && InRootList(obj) && (obj.Thread? ==> obj.open == [])
    ensures UpvalsOk(h[r := obj], uvhead)
  {
    var h2 := h[r := obj];
    forall w | w in h2 && h2[w].Thread? ensures OpenListOk(h2, w) {
      if w != r {
        assert OpenListOk(h, w);
        assert forall y :: y in h[w].open ==> OpenEntry(h, w, y);
        assert h[w].open[0..] == h[w].open;
        LevelsFallKept(h, h2, h[w].open, 0);
      }
    }
    forall y | y in h2 && OpenUpval(h2[y]) ensures Owned(h2, y) {
      assert Owned(h, y);
    }
  }

  lemma AllocLive(s: State, r: Ref, obj: Obj)
    requires s.color.Keys == s.heap.Keys && UpvalsOk(s.heap, s.uvhead) && Live(s) && NewObj(s, r, obj)
    ensures Live(Alloc(s, r, obj))
  {
    var t := Alloc(s, r, obj);
    AllocSuccs(s, r, obj);
    assert forall b :: b in s.heap && !Dead(s, b) ==> b in t.heap && !Dead(t, b);
    forall a, b | Edge(t.heap, a, b) && !Dead(t, a) ensures b in t.heap && !Dead(t, b) {
      if a == r {
        assert LiveValue(s, Gc(b));
      } else {
        assert Edge(s.heap, a, b);
      }
    }
  }

  lemma AllocSuccs(s: State, r: Ref, obj: Obj)
    requires UpvalsOk(s.heap, s.uvhead) && NewObj(s, r, obj)
    ensures var h := Alloc(s, r, obj).heap;
            Succs(h, r) == ObjValues(obj) && forall a :: a in s.heap ==> Succs(h, a) == Succs(s.heap, a)
  {
    forall a | a in s.heap ensures Succs(Alloc(s, r, obj).heap, a) == Succs(s.heap, a) {
      if OpenUpval(s.heap[a]) {
        assert Owned(s.heap, a);
      }
    }
  }

  lemma AllocPhase(s: State, r: Ref, obj: Obj)
    requires Shape(s) && Live(s) && NewObj(s, r, obj)
    requires NeverBlack(s) && PhaseOk(s)
    ensures NeverBlack(Alloc(s, r, obj)) && PhaseOk(Alloc(s, r, obj))
  {
    hide StringsOk, RootListOk, UpvalsOk, Live, TriColour;
    if s.phase == Propagate {
      AllocTri(s, r, obj);
    } else {
      AllocIdle(s, r, obj);
      AllocSwept(s, r, obj);
    }
  }

  lemma AllocIdle(s: State, r: Ref, obj: Obj)
    requires s.color.Keys == s.heap.Keys && GrayIdle(s) && r !in s.heap
    ensures GrayIdle(Alloc(s, r, obj))
  {
    var t := Alloc(s, r, obj);
    forall i | 0 <= i < |t.grayagain| ensures Resting(t, t.grayagain[i]) {
      assert Resting(s, s.grayagain[i]);
    }
  }

  lemma AllocSwept(s: State, r: Ref, obj: Obj)
    requires s.color.Keys == s.heap.Keys && NewObj(s, r, obj) && PhaseOk(s) && s.phase != Propagate
    requires GrayIdle(Alloc(s, r, obj))
    ensures PhaseOk(Alloc(s, r, obj))
  {
    var i, t := Place(s, r, obj), Alloc(s, r, obj);
    assert forall x :: CurrentWhite(s, x) ==> CurrentWhite(t, x);
    assert CurrentWhite(t, r);
    if s.phase == Sweep {
      forall k | 0 <= k < t.sweeppos ensures Swept(t, t.rootgc[k]) {
        if k != i {
          assert Swept(s, s.rootgc[if k < i then k else k - 1]);
        }
      }
    }
  }

  lemma AllocTri(s: State, r: Ref, obj: Obj)
    requires Shape(s) && Live(s) && NewObj(s, r, obj) && NeverBlack(s) && TriColour(s)
    ensures TriColour(Alloc(s, r, obj))
  {
    hide StringsOk, RootListOk;
    AllocSuccs(s, r, obj);
    GrownTri(s, Alloc(s, r, obj), r);
  }

  // ------------------------------------------------------- storing in threads

  /** Thread `t` with another global table or stack; no barrier, as threads are never black. */
  function SetThread(s: State, t: Ref, g: Value, stack: seq<Value>): State
    requires t in s.heap && s.heap[t].Thread?
  {
    s.(heap := s.heap[t := s.heap[t].(globals := g, stack := stack)])
  }

  /**
  Every open upvalue of `t` is below the new top. A live thread takes live values
  only; of a dead one, whose live upvalues can still be assigned through, the slots
  of those upvalues hold live values.
  */
  ghost predicate CanSetThread(s: State, t: Ref, g: Value, stack: seq<Value>) {
    && t in s.heap && s.heap[t].Thread?
    && (!Dead(s, t) ==> LiveValue(s, g) && LiveValues(s, stack))
    && forall u :: u in s.heap[t].open ==>
         u in s.heap && OpenUpval(s.heap[u]) && Level(s.heap, u) < |stack|
         && (!Dead(s, u) ==> LiveValue(s, stack[Level(s.heap, u)]))
  }

  lemma SetThreadInv(s: State, t: Ref, g: Value, stack: seq<Value>)
    requires Inv(s) && CanSetThread(s, t, g, stack)
    ensures Inv(SetThread(s, t, g, stack))
  {
    hide StringsOk, RootListOk, UpvalsOk, Live, NeverBlack, PhaseOk;
    SetThreadStrings(s, t, g, stack);
    SetThreadRoots(s, t, g, stack);
    SetThreadUpvals(s.heap, s.uvhead, t, g, stack);
    SetThreadLive(s, t, g, stack);
    SetThreadPhase(s, t, g, stack);
  }

  lemma SetThreadStrings(s: State, t: Ref, g: Value, stack: seq<Value>)
    requires StringsOk(s) && t in s.heap && s.heap[t].Thread?
    ensures StringsOk(SetThread(s, t, g, stack))
  {
    SameStrings(s, SetThread(s, t, g, stack));
  }

  lemma SetThreadRoots(s: State, t: Ref, g: Value, stack: seq<Value>)
    requires RootListOk(s, {}) && t in s.heap && s.heap[t].Thread?
    ensures RootListOk(SetThread(s, t, g, stack), {})
  {
  }

  lemma SetThreadUpvals(h: Heap, uvhead: seq<Ref>, t: Ref, g: Value, stack: seq<Value>)
    requires UpvalsOk(h, uvhead) && t in h && h[t].Thread?
    requires forall u :: u in h[t].open ==> u in h && OpenUpval(h[u]) && Level(h, u) < |stack|
    ensures UpvalsOk(h[t := h[t].(globals := g, stack := stack)], uvhead)
  {
    var h2 := h[t := h[t].(globals := g, stack := stack)];
    forall w | w in h2 && h2[w].Thread? ensures OpenListOk(h2, w) {
      assert OpenListOk(h, w);
      assert forall y :: y in h[w].open ==> OpenEntry(h, w, y);
      assert h[w].open[0..] == h[w].open;
      LevelsFallKept(h, h2, h[w].open, 0);
    }
    forall y | y in h2 && OpenUpval(h2[y]) ensures Owned(h2, y) {
      assert Owned(h, y);
    }
  }

  lemma SetThreadLive(s: State, t: Ref, g: Value, stack: seq<Value>)
    requires UpvalsOk(s.heap, s.uvhead) && Live(s) && CanSetThread(s, t, g, stack)
    ensures Live(SetThread(s, t, g, stack))
  {
    var s2 := SetThread(s, t, g, stack);
    assert forall r :: Dead(s2, r) <==> Dead(s, r);
    forall a, b | Edge(s2.heap, a, b) && !Dead(s2, a) ensures b in s2.heap && !Dead(s2, b) {
      if a == t {
        assert Gc(b) == g || Gc(b) in stack;
        assert LiveValue(s, Gc(b));
      } else if OpenUpval(s.heap[a]) && s.heap[a].place.thread == t {
        assert Owned(s.heap, a);
        assert Gc(b) == stack[Level(s.heap, a)];
        assert LiveValue(s, Gc(b));
      } else {
        assert Edge(s.heap, a, b);
      }
    }
  }

  lemma SetThreadPhase(s: State, t: Ref, g: Value, stack: seq<Value>)
    requires UpvalsOk(s.heap, s.uvhead)
    requires t in s.heap && s.heap[t].Thread? && s.color.Keys == s.heap.Keys && NeverBlack(s) && PhaseOk(s)
    ensures NeverBlack(SetThread(s, t, g, stack)) && PhaseOk(SetThread(s, t, g, stack))
  {
    var s2 := SetThread(s, t, g, stack);
    RecordKept(s, s2);
    if s.phase == Propagate {
      forall x | x in s2.color && s2.color[x] == Black ensures Settled(s2, x) {
        assert Settled(s, x);
        forall b | Edge(s2.heap, x, b) ensures !IsWhite(s2, b) {
          assert Edge(s.heap, x, b);
        }
      }
    }
  }

  /** The list conditions hold after a store that changes no kind, colour, list or open list. */
  ghost predicate SameRecords(s: State, t: State) {
    && t == s.(heap := t.heap) && t.heap.Keys == s.heap.Keys
    && forall r :: r in s.heap ==>
         && (Listed(t.heap[r]) <==> Listed(s.heap[r]))
         && (s.heap[r].Str? || t.heap[r].Str? ==> t.heap[r] == s.heap[r])
         && (t.heap[r].Thread? <==> s.heap[r].Thread?)
         && (s.heap[r].Thread? ==> t.heap[r].open == s.heap[r].open)
  }

  lemma RecordKept(s: State, t: State)
    requires SameRecords(s, t)
    ensures GrayIdle(s) ==> GrayIdle(t)
    ensures GrayReady(s) ==> GrayReady(t)
    ensures SweepingStrings(s) ==> SweepingStrings(t)
    ensures Sweeping(s) ==> Sweeping(t)
    ensures AllCurrent(s) ==> AllCurrent(t)
  {
    forall x ensures Resting(s, x) ==> Resting(t, x) {}
    forall x ensures Waiting(s, x) ==> Waiting(t, x) {}
    forall x ensures Swept(s, x) ==> Swept(t, x) {}
    forall x ensures CurrentWhite(s, x) ==> CurrentWhite(t, x) {}
  }

  // ------------------------------------------- storing in objects, with barriers

  function Fields(obj: Obj): seq<Value>
    requires InRootList(obj) && !obj.Thread?
  {
    match obj
    case Table(refs) => refs
    case Closure(refs) => refs
    case Proto(refs) => refs
    case Udata(refs) => refs
    case Upval(Closed(v)) => [v]
  }

  predicate SameKind(a: Obj, b: Obj) {
    || (a.Table? && b.Table?) || (a.Closure? && b.Closure?) || (a.Proto? && b.Proto?) || (a.Udata? && b.Udata?)
    || (a.Upval? && b.Upval? && a.place.Closed? && b.place.Closed?)
  }

  /** `o` becomes `obj`, whose values are values it had and the live value `v`. */
  ghost predicate CanStore(s: State, o: Ref, obj: Obj, v: Value) {
    && o in s.heap && !Dead(s, o) && LiveValue(s, v)
    && SameKind(s.heap[o], obj)
    && forall x :: x in Fields(obj) ==> x == v || x in Fields(s.heap[o])
  }

  function RawStore(s: State, o: Ref, obj: Obj): State {
    s.(heap := s.heap[o := obj])
  }

  /** The condition in `luaC_barrier` and `luaC_barriert`. */
  predicate NeedsBarrier(s: State, o: Ref, v: Value) {
    v.Gc? && IsWhite(s, v.ref) && o in s.color && s.color[o] == Black
  }

  /** `luaC_barrierback`: the table turns gray again and waits for `atomic`. */
  function BarrierBack(s: State, o: Ref): State {
    s.(color := s.color[o := Gray], grayagain := [o] + s.grayagain)
  }

  /** `luaC_barrierf`: mark the value, or during a sweep whiten the object. */
  ghost function BarrierForward(s: State, o: Ref, v: Value): State
    requires s.phase == Propagate ==> Solid(s) && ValuesIn(s, [v])
  {
    if s.phase == Propagate then MarkAll(s, [v])
    else s.(color := s.color[o := White(s.currentwhite)])
  }

  /** A store in a table, followed by `luaC_barriert`. */
  function StoreTable(s: State, o: Ref, obj: Obj, v: Value): State {
    var s1 := RawStore(s, o, obj);
    if NeedsBarrier(s1, o, v) then BarrierBack(s1, o) else s1
  }

  /** A store in a closure, prototype, userdata or closed upvalue, followed by `luaC_barrier`. */
  ghost function StoreField(s: State, o: Ref, obj: Obj, v: Value): State
    requires Inv(s) && CanStore(s, o, obj, v)
  {
    RawStoreSolid(s, o, obj, v);
    var s1 := RawStore(s, o, obj);
    if NeedsBarrier(s1, o, v) then BarrierForward(s1, o, v) else s1
  }

  lemma RawStoreSolid(s: State, o: Ref, obj: Obj, v: Value)
    requires Inv(s) && CanStore(s, o, obj, v)
    ensures s.phase == Propagate ==> Solid(RawStore(s, o, obj)) && ValuesIn(RawStore(s, o, obj), [v])
  {
    hide StringsOk, RootListOk, UpvalsOk;
    if s.phase == Propagate {
      NoDangling(s);
      RawStoreEdges(s, o, obj, v);
    }
  }

  /** A store adds at most the edge to `v`. */
  lemma RawStoreEdges(s: State, o: Ref, obj: Obj, v: Value)
    requires CanStore(s, o, obj, v)
    ensures forall a, b :: Edge(RawStore(s, o, obj).heap, a, b) ==> Edge(s.heap, a, b) || (a == o && Gc(b) == v)
    ensures forall a :: a in s.heap && a != o ==> Succs(RawStore(s, o, obj).heap, a) == Succs(s.heap, a)
  {
    var t := RawStore(s, o, obj);
    assert Succs(t.heap, o) == Fields(obj) && Succs(s.heap, o) == Fields(s.heap[o]);
  }

  lemma RawStoreShape(s: State, o: Ref, obj: Obj)
    requires Shape(s) && o in s.heap && SameKind(s.heap[o], obj)
    ensures Shape(RawStore(s, o, obj))
  {
    hide StringsOk, UpvalsOk;
    SameStrings(s, RawStore(s, o, obj));
    RawStoreUpvals(s.heap, s.uvhead, o, obj);
  }

  lemma RawStoreUpvals(h: Heap, uvhead: seq<Ref>, o: Ref, obj: Obj)
    requires UpvalsOk(h, uvhead) && o in h && SameKind(h[o], obj)
    ensures UpvalsOk(h[o := obj], uvhead)
  {
    var h2 := h[o := obj];
    forall w | w in h2 && h2[w].Thread? ensures OpenListOk(h2, w) {
      assert OpenListOk(h, w);
      assert forall y :: y in h[w].open ==> OpenEntry(h, w, y);
      assert h[w].open[0..] == h[w].open;
      LevelsFallKept(h, h2, h[w].open, 0);
    }
    forall y | y in h2 && OpenUpval(h2[y]) ensures Owned(h2, y) {
      assert Owned(h, y);
    }
  }

  lemma RawStoreLive(s: State, o: Ref, obj: Obj, v: Value)
    requires Live(s) && CanStore(s, o, obj, v)
    ensures Live(RawStore(s, o, obj))
  {
    var t := RawStore(s, o, obj);
    RawStoreEdges(s, o, obj, v);
    assert forall r :: Dead(t, r) <==> Dead(s, r);
    forall a, b | Edge(t.heap, a, b) && !Dead(t, a) ensures b in t.heap && !Dead(t, b) {
      if !Edge(s.heap, a, b) {
        assert v == Gc(b);
      }
    }
  }

  lemma RawStoreTri(s: State, o: Ref, obj: Obj, v: Value)
    requires TriColour(s) && CanStore(s, o, obj, v) && s.color.Keys == s.heap.Keys
    ensures TriColour(RawStore(s, o, obj), {o})
    ensures !NeedsBarrier(s, o, v) ==> TriColour(RawStore(s, o, obj))
    ensures s.color[o] == Black ==> forall b :: Edge(RawStore(s, o, obj).heap, o, b) && IsWhite(s, b) ==> Gc(b) == v
  {
    var t := RawStore(s, o, obj);
    RawStoreEdges(s, o, obj, v);
    RecordKept(s, t);
    forall x | x in t.color && t.color[x] == Black && (x != o || !NeedsBarrier(s, o, v)) ensures Settled(t, x) {
      assert Settled(s, x);
    }
    if s.color[o] == Black {
      assert Settled(s, o);
    }
  }

  lemma StoreTableInv(s: State, o: Ref, obj: Obj, v: Value)
    requires Inv(s) && CanStore(s, o, obj, v) && obj.Table?
    ensures Inv(StoreTable(s, o, obj, v)) && StoreTable(s, o, obj, v).heap == s.heap[o := obj]
  {
    hide StringsOk, RootListOk, UpvalsOk, Live, NeverBlack, PhaseOk, CanStore;
    var s1 := RawStore(s, o, obj);
    StoreFacts(s, o, obj, v);
    RawStoreShape(s, o, obj);
    RawStoreLive(s, o, obj, v);
    if NeedsBarrier(s, o, v) {
      BackLive(s1, o);
      ShapeColour(s1, BarrierBack(s1, o), {});
      BackPhase(s, o, obj, v);
    } else {
      RawStorePhase(s, o, obj, v);
    }
  }

  lemma StoreFacts(s: State, o: Ref, obj: Obj, v: Value)
    requires CanStore(s, o, obj, v)
    ensures o in s.heap && SameKind(s.heap[o], obj) && !Dead(s, o)
    ensures NeedsBarrier(RawStore(s, o, obj), o, v) == NeedsBarrier(s, o, v)
  {
  }

  lemma RawStorePhase(s: State, o: Ref, obj: Obj, v: Value)
    requires CanStore(s, o, obj, v) && s.color.Keys == s.heap.Keys && NeverBlack(s) && PhaseOk(s)
    requires !NeedsBarrier(s, o, v)
    ensures NeverBlack(RawStore(s, o, obj)) && PhaseOk(RawStore(s, o, obj))
  {
    if s.phase == Propagate {
      RawStoreTri(s, o, obj, v);
    } else {
      RecordKept(s, RawStore(s, o, obj));
    }
  }

  lemma BackLive(s: State, o: Ref)
    requires Live(s) && o in s.color && s.color[o] == Black
    ensures Live(BarrierBack(s, o))
  {
    LiveKept(s, BarrierBack(s, o));
  }

  lemma BackPhase(s: State, o: Ref, obj: Obj, v: Value)
    requires CanStore(s, o, obj, v) && obj.Table? && s.color.Keys == s.heap.Keys && NeverBlack(s) && PhaseOk(s)
    requires NeedsBarrier(s, o, v)
    ensures var t := BarrierBack(RawStore(s, o, obj), o); NeverBlack(t) && PhaseOk(t)
  {
    BackNeverBlack(s, o, obj);
    hide NeverBlack, TriColour, SweepingStrings, Sweeping, AllCurrent;
    if s.phase == Propagate {
      BackMarking(s, o, obj, v);
    } else {
      RecordPhase(s, RawStore(s, o, obj));
      BackIdle(RawStore(s, o, obj), o);
    }
  }

  lemma BackMarking(s: State, o: Ref, obj: Obj, v: Value)
    requires CanStore(s, o, obj, v) && obj.Table? && s.color.Keys == s.heap.Keys && TriColour(s) && NeedsBarrier(s, o, v)
    ensures TriColour(BarrierBack(RawStore(s, o, obj), o))
  {
    hide TriColour, CanStore;
    RawStoreTri(s, o, obj, v);
    BackTri(RawStore(s, o, obj), o);
  }

  lemma BackNeverBlack(s: State, o: Ref, obj: Obj)
    requires o in s.heap && SameKind(s.heap[o], obj) && NeverBlack(s)
    ensures NeverBlack(BarrierBack(RawStore(s, o, obj), o))
  {
  }

  /** Outside of marking, the phase's part of the invariant does not depend on what objects refer to. */
  lemma RecordPhase(s: State, t: State)
    requires SameRecords(s, t) && s.phase == t.phase != Propagate && PhaseOk(s)
    ensures PhaseOk(t)
  {
    RecordKept(s, t);
    hide SameRecords, SweepingStrings, Sweeping, AllCurrent;
  }

  lemma BackTri(s: State, o: Ref)
    requires TriColour(s, {o}) && o in s.heap && s.heap[o].Table? && o in s.color && s.color[o] == Black
    ensures TriColour(BarrierBack(s, o))
  {
    var t := BarrierBack(s, o);
    forall x ensures Waiting(s, x) ==> Waiting(t, x) && x != o {}
    assert Waiting(t, o);
    forall x | x in t.color && t.color[x] == Black ensures Settled(t, x) {
      assert Settled(s, x);
    }
  }

  lemma BackIdle(s: State, o: Ref)
    requires s.phase != Propagate && PhaseOk(s)
    requires o in s.heap && s.heap[o].Table? && o in s.color && s.color[o] == Black
    ensures PhaseOk(BarrierBack(s, o))
  {
    var t := BarrierBack(s, o);
    forall x ensures Resting(s, x) ==> Resting(t, x) && x != o {}
    forall x ensures CurrentWhite(s, x) ==> CurrentWhite(t, x) {}
    assert Resting(t, o);
    forall x ensures Swept(s, x) ==> Swept(t, x) {}
  }

  lemma StoreFieldInv(s: State, o: Ref, obj: Obj, v: Value)
    requires Inv(s) && CanStore(s, o, obj, v)
    ensures Inv(StoreField(s, o, obj, v))
  {
    hide StringsOk, RootListOk, UpvalsOk, Live, NeverBlack, PhaseOk, CanStore, Solid;
    var s1 := RawStore(s, o, obj);
    StoreFacts(s, o, obj, v);
    RawStoreShape(s, o, obj);
    RawStoreLive(s, o, obj, v);
    RawStoreSolid(s, o, obj, v);
    if NeedsBarrier(s, o, v) {
      ForwardInv(s, o, obj, v);
    } else {
      RawStorePhase(s, o, obj, v);
    }
  }

  lemma ForwardInv(s: State, o: Ref, obj: Obj, v: Value)
    requires CanStore(s, o, obj, v) && s.color.Keys == s.heap.Keys && NeverBlack(s) && PhaseOk(s)
    requires NeedsBarrier(s, o, v)
    requires Shape(RawStore(s, o, obj)) && Live(RawStore(s, o, obj))
    requires s.phase == Propagate ==> Solid(RawStore(s, o, obj)) && ValuesIn(RawStore(s, o, obj), [v])
    ensures Inv(BarrierForward(RawStore(s, o, obj), o, v))
  {
    hide StringsOk, RootListOk, UpvalsOk, Live;
    var s1 := RawStore(s, o, obj);
    if s.phase == Propagate {
      RawStoreTri(s, o, obj, v);
      ForwardMark(s1, o, v);
    } else {
      ForwardSweep(s, o, obj, v);
    }
  }

  lemma ForwardSweep(s: State, o: Ref, obj: Obj, v: Value)
    requires o in s.heap && SameKind(s.heap[o], obj) && o in s.color && s.color[o] == Black
    requires NeverBlack(s) && PhaseOk(s) && s.phase != Propagate
    requires Shape(RawStore(s, o, obj)) && Live(RawStore(s, o, obj))
    ensures Inv(BarrierForward(RawStore(s, o, obj), o, v))
  {
    hide Shape, Live, StringsOk, TriColour, SweepingStrings, Sweeping, AllCurrent;
    RecordPhase(s, RawStore(s, o, obj));
    ForwardIdle(RawStore(s, o, obj), o);
    ShapeColour(RawStore(s, o, obj), BarrierForward(RawStore(s, o, obj), o, v), {});
  }

  lemma ForwardMark(s: State, o: Ref, v: Value)
    requires s.phase == Propagate && Solid(s) && ValuesIn(s, [v]) && Shape(s) && Live(s) && NeverBlack(s)
    requires o in s.heap && TriColour(s, {o}) && forall b :: Edge(s.heap, o, b) && IsWhite(s, b) ==> Gc(b) == v
    ensures Inv(BarrierForward(s, o, v))
  {
    hide StringsOk, RootListOk, UpvalsOk;
    BarrierMark(s, o, [v]);
    NoneDead(s, MarkAll(s, [v]));
    ShapeColour(s, MarkAll(s, [v]), {});
  }

  lemma ForwardIdle(s: State, o: Ref)
    requires s.phase != Propagate && PhaseOk(s) && NeverBlack(s) && Live(s) && o in s.color && s.color[o] == Black
    ensures var t := s.(color := s.color[o := White(s.currentwhite)]);
            PhaseOk(t) && NeverBlack(t) && Live(t)
  {
    var t := s.(color := s.color[o := White(s.currentwhite)]);
    forall x ensures Resting(s, x) ==> Resting(t, x) {}
    forall x ensures CurrentWhite(s, x) ==> CurrentWhite(t, x) {}
    forall x ensures Swept(s, x) ==> Swept(t, x) {}
    LiveKept(s, t);
  }
}
