/**
What each event does, as the program sees it: what the stack, the roots, an
object or an upvalue read afterwards, and that all else reads as before.
*/
module GcEffects {
  import opened GcState
  import opened GcMark
  import opened GcInvariant
  import opened GcSweep
  import opened GcStrings
  import opened GcCollect
  import opened GcAtomic
  import opened GcStep
  import opened GcFull
  import opened GcCycle
  import opened GcMutator
  import opened GcClosures
  import opened GcRun

  // ------------------------------------------------------- what can be read

  /** The slot or cell of an upvalue exists. */
  predicate Readable(h: Heap, u: Ref) {
    && u in h && h[u].Upval?
    && (h[u].place.Open? ==>
          var t := h[u].place.thread;
          t in h && h[t].Thread? && h[u].place.level < |h[t].stack|)
  }

  function ReadUpval(h: Heap, u: Ref): Value
    requires Readable(h, u)
  {
    match h[u].place
    case Open(t, l) => h[t].stack[l]
    case Closed(v) => v
  }

  lemma UpvalReadable(s: State, u: Ref)
    requires UpvalsOk(s.heap, s.uvhead) && u in s.heap && s.heap[u].Upval?
    ensures Readable(s.heap, u) && Succs(s.heap, u) == [ReadUpval(s.heap, u)]
  {
    if OpenUpval(s.heap[u]) {
      var t := s.heap[u].place.thread;
      assert Owned(s.heap, u);
      assert OpenEntry(s.heap, t, u);
    }
  }

  ghost predicate SameRoots(s: State, t: State) {
    t.main == s.main && t.running == s.running && t.registry == s.registry && t.mt == s.mt && t.fixed == s.fixed
  }

  /** The stack of the running thread is `stack`, and all objects but `x` are as they were. */
  ghost predicate StackBecomes(s: State, t: State, stack: seq<Value>, x: set<Ref>)
    requires s.running in s.heap && s.heap[s.running].Thread?
  {
    && SameRoots(s, t) && s.running in t.heap && t.heap[s.running].Thread?
    && t.heap[s.running].stack == stack && t.heap[s.running].globals == s.heap[s.running].globals
    && (forall y :: y in s.heap && y != s.running && y !in x ==> y in t.heap && t.heap[y] == s.heap[y])
    && (forall y :: y in t.heap ==> y in s.heap || y in x)
  }

  /** Every object that is not dead, but the running thread, reads as before: also every upvalue. */
  ghost predicate OthersRead(s: State, t: State) {
    forall y :: y in s.heap && !Dead(s, y) && y != s.running ==> y in t.heap && SameContent(s.heap, t.heap, y)
  }

  /** The running thread has no open upvalue at or above `level`. */
  ghost predicate NoneOpen(t: State, level: nat) {
    forall u :: u in t.heap && OpenUpval(t.heap[u]) && t.heap[u].place.thread == t.running ==> Level(t.heap, u) < level
  }

  /** After an assignment through `u` it reads `v`, and so does the slot it refers to; all else is as it was. */
  ghost predicate UpvalBecomes(s: State, t: State, u: Ref, v: Value)
    requires Readable(s.heap, u)
  {
    && SameRoots(s, t) && Readable(t.heap, u) && ReadUpval(t.heap, u) == v && t.heap.Keys == s.heap.Keys
    && (forall w :: w != u && Readable(s.heap, w) && (OpenUpval(s.heap[w]) ==> s.heap[w].place != s.heap[u].place) ==>
          Readable(t.heap, w) && ReadUpval(t.heap, w) == ReadUpval(s.heap, w))
    && match s.heap[u].place
       case Closed(_) => forall y :: y in s.heap && y != u ==> t.heap[y] == s.heap[y]
       case Open(d, l) =>
         && (forall y :: y in s.heap && y != d ==> t.heap[y] == s.heap[y])
         && t.heap[d].Thread? && t.heap[d].globals == s.heap[d].globals && t.heap[d].stack == s.heap[d].stack[l := v]
  }

  /** The effect of event `e` that leads from `s` to `t`. */
  ghost predicate Effect(s: State, e: Event, t: State)
    requires Inv(s)
  {
    hide StringsOk, RootListOk, Live, NeverBlack, PhaseOk;
    RunningInHeap(s);
    var run := s.running;
    var stack := s.heap[run].stack;
    match e
    case Step => Shrinks(s, t)
    case FullCollect => Shrinks(s, t) && forall r :: r in t.heap ==> Reachable(s, r) || r in s.fixed
    case Push(v) => StackBecomes(s, t, stack + [v], {})
    case Poke(i, v) => i < |stack| && StackBecomes(s, t, stack[i := v], {})
    case Return(level) =>
      && level <= |stack|
      && SameRoots(s, t) && OthersRead(s, t) && NoneOpen(t, level)
      && run in t.heap && t.heap[run].Thread?
      && t.heap[run].stack == stack[..level] && t.heap[run].globals == s.heap[run].globals
    case CloseUpvals(level) =>
      && SameRoots(s, t) && OthersRead(s, t) && NoneOpen(t, level)
      && run in t.heap && t.heap[run].Thread?
      && t.heap[run].stack == stack && t.heap[run].globals == s.heap[run].globals
    case Create(r, obj) => StackBecomes(s, t, stack + [Gc(r)], {r}) && r in t.heap && t.heap[r] == obj
    case StoreInTable(o, obj, v) => SameRoots(s, t) && t.heap == s.heap[o := obj]
    case StoreInObject(o, obj, v) => SameRoots(s, t) && t.heap == s.heap[o := obj]
    case StoreThrough(u, v) => Readable(s.heap, u) && UpvalBecomes(s, t, u, v)
    case InternString(chars, r) =>
      exists x ::
        && StackBecomes(s, t, stack + [Gc(x)], {x}) && x in t.heap && t.heap[x] == Str(chars)
        && (x in s.heap ==> s.heap[x] == Str(chars)) && (x !in s.heap ==> x == r)
    case NewClosure(r, env, proto, parent, caps, i) =>
      && i < |stack|
      && r in t.heap && t.heap[r].Closure? && |t.heap[r].refs| == 2 + |caps| && t.heap[r].refs[..2] == [env, proto]
      && (forall k :: 0 <= k < |caps| ==> Binds(t.heap, run, r, parent, caps[k], k))
      && SameRoots(s, t) && run in t.heap && t.heap[run].Thread?
      && t.heap[run].stack == stack[i := Gc(r)] && t.heap[run].globals == s.heap[run].globals
      && (forall y :: y in s.heap && y != run ==> y in t.heap && t.heap[y] == s.heap[y])
    case SetBasicMetatable(i, v) =>
      && i < |s.mt| && t.heap == s.heap && t.mt == s.mt[i := v]
      && t.main == s.main && t.running == s.running && t.registry == s.registry && t.fixed == s.fixed
    case SetGlobals(v) =>
      && SameRoots(s, t) && run in t.heap && t.heap[run].Thread?
      && t.heap[run].globals == v && t.heap[run].stack == stack
      && t.heap.Keys == s.heap.Keys && forall y :: y in s.heap && y != run ==> t.heap[y] == s.heap[y]
    case Resume(t2) =>
      && t.running == t2 && t.heap == s.heap
      && t.main == s.main && t.registry == s.registry && t.mt == s.mt && t.fixed == s.fixed
    case FixString(r) =>
      && t.fixed == s.fixed + {r} && t.heap == s.heap
      && t.main == s.main && t.running == s.running && t.registry == s.registry && t.mt == s.mt
  }

  // ------------------------------------------------------------ the collector

  /** Marking changes no object. */
  lemma MarkingShrinks(s: State)
    requires Inv(s) && (s.phase == Pause || s.phase == Propagate)
    ensures Shrinks(s, SingleStep(s))
  {
    hide StringsOk, RootListOk, UpvalsOk, NeverBlack, Shrinks;
    NoDangling(s);
    if s.phase == Propagate && s.gray == [] {
      AtomicInv(s);
    }
    SamePaths(s, SingleStep(s));
  }

  lemma StepShrinks(s: State)
    requires Inv(s)
    ensures Shrinks(s, SingleStep(s))
  {
    hide Shape, NeverBlack, Live, PhaseOk, SingleStep, Shrinks, SweepStep;
    if s.phase == Pause || s.phase == Propagate {
      MarkingShrinks(s);
    } else {
      SweepingStep(s);
      SweepShrinks(s, SingleStep(s));
    }
  }

  lemma FullGcShrinks(s: State)
    requires Inv(s)
    ensures Shrinks(s, FullGc(s)) && forall r :: r in FullGc(s).heap ==> Reachable(s, r) || r in s.fixed
  {
    FullGcExact(s);
    hide Inv, StartSweep, RunTo, SingleStep, WorkSet, Work, SweepStep, Solid, ValuesIn, MarkRoot, Shrinks, Reachable;
    StartSweepInv(s);
    RunSweep(StartSweep(s), Finalize);
    var s1 := RunTo(StartSweep(s), Finalize);
    SweepStepCompose(s, StartSweep(s), s1);
    LiveNow(s);
    SweepShrinks(s, s1);
    MarkRootReady(s1);
    LiveNow(s1);
    SamePaths(s1, MarkRoot(s1));
    CycleEnds(MarkRoot(s1));
    ShrinksTwice(s, s1, MarkRoot(s1));
    ShrinksTwice(s, MarkRoot(s1), FullGc(s));
  }

  lemma LiveNow(s: State)
    requires Inv(s)
    ensures Live(s)
  {
  }

  // -------------------------------------------------------------- the mutator

  lemma StackEffect(s: State, e: Event)
    requires Inv(s) && OnStack(e) && Enabled(s, e)
    ensures Effect(s, e, Apply(s, e))
  {
    hide Inv, CloseAll;
    RunningInHeap(s);
    match e {
      case Return(level) => ReturnEffect(s, level);
      case CloseUpvals(level) => CloseEffect(s, level);
      case _ =>
    }
  }

  lemma CloseEffect(s: State, level: nat)
    requires Inv(s)
    ensures s.running in s.heap && s.heap[s.running].Thread? && OpenListOk(s.heap, s.running) && SolidMarking(s)
    ensures var t := CloseAll(s, s.running, level);
      && Inv(t) && SameRoots(s, t) && OthersRead(s, t) && NoneOpen(t, level)
      && s.running in t.heap && t.heap[s.running].Thread?
      && t.heap[s.running].stack == s.heap[s.running].stack
      && t.heap[s.running].globals == s.heap[s.running].globals
  {
    hide StringsOk, RootListOk, UpvalsOk, Live, NeverBlack, PhaseOk;
    RunningInHeap(s);
    RunningLive(s);
    CloseTransparent(s, s.running, level);
    CloseAllContent(s, s.running, level);
    CloseAllRoots(s, s.running, level);
  }

  lemma {:induction false} CloseAllRoots(s: State, t: Ref, level: nat)
    requires t in s.heap && s.heap[t].Thread? && OpenListOk(s.heap, t) && SolidMarking(s)
    ensures SameRoots(s, CloseAll(s, t, level))
    decreases |s.heap[t].open|
  {
    if s.heap[t].open != [] {
      var u := s.heap[t].open[0];
      assert u in s.heap[t].open && OpenEntry(s.heap, t, u);
      if Level(s.heap, u) >= level {
        var v := s.heap[t].stack[Level(s.heap, u)];
        CloseOneOpen(s, t, u, v);
        CloseCellSolid(s, t, u, v);
        CloseAllRoots(CloseOne(s, t, u, v), t, level);
      }
    }
  }

  lemma ReturnEffect(s: State, level: nat)
    requires Inv(s) && level <= |s.heap[s.running].stack|
    ensures Enabled(s, Return(level)) ==> Effect(s, Return(level), ReturnTo(s, level))
  {
    hide StringsOk, RootListOk, Live, NeverBlack, PhaseOk, CloseAll;
    CloseEffect(s, level);
    var t := CloseAll(s, s.running, level);
    var u := WithStack(t, t.heap[t.running].stack[..level]);
    TruncatedReads(s, t, u, level);
  }

  /** Dropping the slots from `level` on changes no upvalue, when none is open there. */
  lemma TruncatedReads(s: State, t: State, u: State, level: nat)
    requires UpvalsOk(t.heap, t.uvhead) && NoneOpen(t, level) && OthersRead(s, t) && t.running == s.running
    requires t.running in t.heap && t.heap[t.running].Thread? && level <= |t.heap[t.running].stack|
    requires u == WithStack(t, t.heap[t.running].stack[..level])
    ensures OthersRead(s, u) && NoneOpen(u, level)
  {
    forall y | y in s.heap && !Dead(s, y) && y != s.running ensures y in u.heap && SameContent(s.heap, u.heap, y) {
      assert SameContent(s.heap, t.heap, y);
      if t.heap[y].Upval? && OpenUpval(t.heap[y]) {
        assert Owned(t.heap, y);
        assert OpenEntry(t.heap, t.heap[y].place.thread, y);
      }
    }
    forall w | w in u.heap && OpenUpval(u.heap[w]) && u.heap[w].place.thread == u.running ensures Level(u.heap, w) < level {
      assert w in t.heap && OpenUpval(t.heap[w]) && t.heap[w].place.thread == t.running;
      assert Level(t.heap, w) < level;
    }
  }

  lemma HeapEffect(s: State, e: Event)
    requires Inv(s) && !OnStack(e) && Enabled(s, e)
    ensures Effect(s, e, Apply(s, e))
  {
    hide Inv, Effect, Enabled, Apply;
    match e {
      case Step => CollectorEffect(s, e);
      case FullCollect => CollectorEffect(s, e);
      case Create(_, _) => CreateEffect(s, e);
      case StoreInTable(_, _, _) => StoreEffect(s, e);
      case StoreInObject(_, _, _) => StoreEffect(s, e);
      case StoreThrough(_, _) => ThroughEffect(s, e);
      case InternString(chars, r) => InternedEffect(s, e);
      case NewClosure(r, env, proto, parent, caps, i) => ClosedOverEffect(s, e);
    }
  }

  lemma CollectorEffect(s: State, e: Event)
    requires Inv(s) && (e.Step? || e.FullCollect?)
    ensures Enabled(s, e) ==> Effect(s, e, Apply(s, e))
  {
    hide Inv, SingleStep, FullGc, Shrinks, Reachable;
    RunningInHeap(s);
    if e.Step? {
      StepShrinks(s);
    } else {
      FullGcShrinks(s);
    }
  }

  lemma CreateEffect(s: State, e: Event)
    requires Inv(s) && e.Create? && Enabled(s, e)
    ensures Effect(s, e, Apply(s, e))
  {
    hide Inv;
    RunningInHeap(s);
  }

  lemma StoreEffect(s: State, e: Event)
    requires Inv(s) && (e.StoreInTable? || e.StoreInObject?) && Enabled(s, e)
    ensures Effect(s, e, Apply(s, e))
  {
    hide Inv, Live, StoreField, Reachable;
    LiveNow(s);
    if e.StoreInObject? {
      StoreReady(s, e.o, e.obj, e.v);
      StoreFieldEffect(s, e.o, e.obj, e.v);
    }
  }

  lemma ThroughEffect(s: State, e: Event)
    requires Inv(s) && e.StoreThrough? && Enabled(s, e)
    ensures Effect(s, e, Apply(s, e))
  {
    hide Inv, Live, StoreUpval, Reachable, UpvalBecomes;
    LiveNow(s);
    ReachableIsLive(s, e.u);
    KnownLive(s, e.v);
    StoreUpvalEffect(s, e.u, e.v);
  }

  lemma InternedEffect(s: State, e: Event)
    requires Inv(s) && e.InternString? && Enabled(s, e)
    ensures Effect(s, e, Apply(s, e))
  {
    hide Inv, Effect, InternPush;
    InternEffect(s, e.chars, e.r);
  }

  lemma ClosedOverEffect(s: State, e: Event)
    requires Inv(s) && e.NewClosure? && Enabled(s, e)
    ensures Effect(s, e, Apply(s, e))
  {
    hide Inv, Effect, MakeClosure;
    ClosureEffect(s, e.r, e.env, e.proto, e.parent, e.caps, e.i);
  }

  /** The barrier changes colours only. */
  lemma StoreFieldEffect(s: State, o: Ref, obj: Obj, v: Value)
    requires Inv(s) && CanStore(s, o, obj, v)
    ensures var t := StoreField(s, o, obj, v); SameRoots(s, t) && t.heap == s.heap[o := obj]
  {
    hide StringsOk, RootListOk, UpvalsOk, Live, NeverBlack, PhaseOk;
    RawStoreSolid(s, o, obj, v);
  }

  lemma ReadableNow(s: State, u: Ref)
    requires Inv(s) && u in s.heap && s.heap[u].Upval?
    ensures Readable(s.heap, u)
  {
    hide StringsOk, RootListOk, Live, NeverBlack, PhaseOk;
    UpvalReadable(s, u);
  }

  lemma ClosedStored(s: State, t: State, u: Ref, v: Value)
    requires Readable(s.heap, u) && s.heap[u].place.Closed? && SameRoots(s, t) && t.heap == s.heap[u := Upval(Closed(v))]
    ensures UpvalBecomes(s, t, u, v)
  {
  }

  lemma SlotStored(s: State, t: State, u: Ref, v: Value)
    requires Readable(s.heap, u) && s.heap[u].place.Open?
    requires t == StoreSlot(s, s.heap[u].place.thread, s.heap[u].place.level, v)
    ensures UpvalBecomes(s, t, u, v)
  {
  }

  lemma StoreUpvalEffect(s: State, u: Ref, v: Value)
    requires Inv(s) && u in s.heap && s.heap[u].Upval? && !Dead(s, u) && LiveValue(s, v)
    ensures Readable(s.heap, u) && UpvalBecomes(s, StoreUpval(s, u, v), u, v)
  {
    hide Inv, CanStore, CanSetThread, StoreField, UpvalBecomes, StoreSlot;
    ReadableNow(s, u);
    StoreUpvalReady(s, u, v);
    if s.heap[u].place.Closed? {
      StoreFieldEffect(s, u, Upval(Closed(v)), v);
      ClosedStored(s, StoreUpval(s, u, v), u, v);
    } else {
      SlotStored(s, StoreUpval(s, u, v), u, v);
    }
  }

  lemma InternEffect(s: State, chars: string, r: Ref)
    requires Inv(s) && r !in s.heap
    ensures Effect(s, InternString(chars, r), InternPush(s, chars, r))
  {
    hide Inv, Intern, StringsOk, Dead;
    StringsNow(s);
    RunningInHeap(s);
    InternInv(s, chars, r);
    InternNew(s, chars, r);
    var (t, x) := Intern(s, chars, r);
    RunningInHeap(t);
    assert StackBecomes(s, InternPush(s, chars, r), s.heap[s.running].stack + [Gc(x)], {x});
  }

  lemma StringsNow(s: State)
    requires Inv(s)
    ensures StringsOk(s)
  {
  }

  lemma InternNew(s: State, chars: string, r: Ref)
    requires Inv(s) && r !in s.heap
    ensures var x := Intern(s, chars, r).1; if x in s.heap then s.heap[x] == Str(chars) else x == r
  {
    hide RootListOk, UpvalsOk, Live, NeverBlack, PhaseOk;
    var q := s.strt[Bucket(s, chars)];
    var i := Find(s, q, chars);
    if i < |q| {
      assert q[i] in q;
    }
  }

  lemma ClosureEffect(s: State, r: Ref, env: Value, proto: Value, parent: Ref, caps: seq<Capture>, i: nat)
    requires Inv(s) && Enabled(s, NewClosure(r, env, proto, parent, caps, i))
    ensures CanMakeClosure(s, s.running, r, env, proto, parent, caps, i)
    ensures Effect(s, NewClosure(r, env, proto, parent, caps, i), MakeClosure(s, s.running, r, env, proto, parent, caps, i))
  {
    hide Inv, MakeClosure, CanMakeClosure, Enabled;
    NewClosureReady(s, r, env, proto, parent, caps, i);
    RunningInHeap(s);
    MakeClosureInv(s, s.running, r, env, proto, parent, caps, i);
    MakeClosureElse(s, s.running, r, env, proto, parent, caps, i);
  }

  /** What OP_CLOSURE leaves alone. */
  lemma MakeClosureElse(s: State, t: Ref, r: Ref, env: Value, proto: Value, parent: Ref, caps: seq<Capture>, i: nat)
    requires Inv(s) && CanMakeClosure(s, t, r, env, proto, parent, caps, i)
    requires t in s.heap && s.heap[t].Thread?
    ensures var u := MakeClosure(s, t, r, env, proto, parent, caps, i);
      && i < |s.heap[t].stack| && SameRoots(s, u)
      && t in u.heap && u.heap[t].Thread? && u.heap[t].globals == s.heap[t].globals
      && (forall y :: y in s.heap && y != t ==> y in u.heap && u.heap[y] == s.heap[y])
  {
    hide Shape, Live, NeverBlack, PhaseOk;
    ClosureBuiltInv(s, t, r, env, proto, parent, caps, i);
  }

  /** Every event has the effect it is meant to have. */
  lemma ApplyEffect(s: State, e: Event)
    requires Inv(s) && Enabled(s, e)
    ensures Effect(s, e, Apply(s, e))
  {
    hide Inv, Enabled, Effect;
    if OnStack(e) {
      StackEffect(s, e);
    } else {
      HeapEffect(s, e);
    }
  }
}
