/**
What the steps do by themselves: from any state, finitely many of them free
every object that was out of reach at the start, and nothing else.
*/
module GcCycle {
  import opened GcState
  import opened GcMark
  import opened GcInvariant
  import opened GcSweep
  import opened GcStrings
  import opened GcCollect
  import opened GcAtomic
  import opened GcStep
  import opened GcFull

  /** `singlestep`, `n` times. */
  ghost function Steps(s: State, n: nat): (t: State)
    requires Inv(s)
    ensures Inv(t)
    decreases n
  {
    hide Inv, SingleStep;
    SingleStepInv(s);
    if n == 0 then s else Steps(SingleStep(s), n - 1)
  }

  lemma {:induction false} StepsAdd(s: State, m: nat, n: nat)
    requires Inv(s)
    ensures Steps(s, m + n) == Steps(Steps(s, m), n)
    decreases m
  {
    hide Inv, SingleStep;
    SingleStepInv(s);
    if m > 0 {
      StepsAdd(SingleStep(s), m - 1, n);
    }
  }

  /** Running to a phase takes finitely many steps. */
  lemma {:induction false} StepsTo(s: State, goal: Phase) returns (n: nat)
    requires Inv(s) && (goal == Pause || (goal == Finalize && s.phase != Pause))
    ensures Steps(s, n) == RunTo(s, goal)
    decreases Rank(s.phase), WorkSet(s), Work(s)
  {
    hide Inv, SingleStep, WorkSet, Work;
    n := 0;
    if s.phase != goal {
      SingleStepInv(s);
      SingleStepProgress(s);
      WorkNonNegative(s);
      WorkNonNegative(SingleStep(s));
      StaysBusy(s);
      var k := StepsTo(SingleStep(s), goal);
      n := k + 1;
    }
  }

  /** A step in `GCSpause` begins a cycle: the main thread, its globals, the registry and the basic metatables are marked. */
  lemma CycleBegins(s: State)
    requires Inv(s) && s.phase == Pause
    ensures SingleStep(s).phase == Propagate && SingleStep(s).heap == s.heap
    ensures !IsWhite(SingleStep(s), s.main)
    ensures var g := s.heap[s.main].globals; g.Gc? ==> !IsWhite(SingleStep(s), g.ref)
    ensures s.registry.Gc? ==> !IsWhite(SingleStep(s), s.registry.ref)
    ensures forall v :: v in s.mt && v.Gc? ==> !IsWhite(SingleStep(s), v.ref)
  {
    hide StringsOk, RootListOk, UpvalsOk, NeverBlack;
    NoDangling(s);
    EarlyRootsIn(s);
    var s0 := s.(gray := [], grayagain := []);
    MarkAllStep(s0, EarlyRoots(s));
    EarlyRootsMarked(s, MarkAll(s0, EarlyRoots(s)));
  }

  lemma EarlyRootsMarked(s: State, t: State)
    requires s.main in s.heap && s.heap[s.main].Thread?
    requires forall b :: Gc(b) in EarlyRoots(s) ==> !IsWhite(t, b)
    ensures !IsWhite(t, s.main)
    ensures var g := s.heap[s.main].globals; g.Gc? ==> !IsWhite(t, g.ref)
    ensures s.registry.Gc? ==> !IsWhite(t, s.registry.ref)
    ensures forall v :: v in s.mt && v.Gc? ==> !IsWhite(t, v.ref)
  {
    var q := EarlyRoots(s);
    assert q[0] == Gc(s.main) && q[1] == s.heap[s.main].globals && q[2] == s.registry;
    assert q[0] in q && q[1] in q && q[2] in q;
    forall v | v in s.mt && v.Gc? ensures !IsWhite(t, v.ref) {
      assert v in q;
    }
  }

  /** No object is made, none in reach is changed, and the same ones are in reach. */
  ghost predicate Shrinks(s: State, t: State) {
    && (forall r :: r in t.heap ==> r in s.heap)
    && t.fixed == s.fixed
    && (forall r :: Reachable(t, r) <==> Reachable(s, r))
    && (forall r :: Reachable(s, r) ==> r in s.heap && r in t.heap && SameContent(s.heap, t.heap, r))
  }

  lemma SweepShrinks(s: State, t: State)
    requires Live(s) && SweepStep(s, t)
    ensures Shrinks(s, t)
  {
    forall r ensures Reachable(t, r) <==> Reachable(s, r) {
      ReachableKept(s, t, r);
    }
    forall r | Reachable(s, r) ensures r in s.heap && r in t.heap && SameContent(s.heap, t.heap, r) {
      ReachableIsLive(s, r);
    }
  }

  lemma SamePaths(s: State, t: State)
    requires Live(s) && t.heap == s.heap && t.fixed == s.fixed && Roots(t) == Roots(s)
    ensures Shrinks(s, t)
  {
    forall r ensures Reachable(t, r) <==> Reachable(s, r) {
      if Reachable(s, r) {
        var p :| PathTo(s, p, r);
        assert PathTo(t, p, r);
      }
      if Reachable(t, r) {
        var p :| PathTo(t, p, r);
        assert PathTo(s, p, r);
      }
    }
    forall r | Reachable(s, r) ensures r in s.heap {
      ReachableIsLive(s, r);
    }
  }

  lemma ShrinksTwice(s: State, t: State, u: State)
    requires Shrinks(s, t) && Shrinks(t, u)
    ensures Shrinks(s, u)
  {
    forall r | Reachable(s, r) ensures SameContent(s.heap, u.heap, r) {
      assert SameContent(s.heap, t.heap, r) && SameContent(t.heap, u.heap, r);
    }
  }

  /** The cycle in progress comes to its end. */
  lemma CycleEnds(s: State)
    requires Inv(s)
    ensures Inv(RunTo(s, Pause)) && RunTo(s, Pause).phase == Pause && Shrinks(s, RunTo(s, Pause))
  {
    hide Shape, NeverBlack, TriColour, SweepingStrings, Sweeping, SweepStep, Live, RunTo, Shrinks, Atomic;
    var s1 := s;
    if s.phase == Propagate {
      RunMark(s);
      s1 := Atomic(PropagateAll(s));
      MarkedSame(s);
    }
    RunSweep(s1, Pause);
    SweepShrinks(s1, RunTo(s1, Pause));
    if s.phase == Propagate {
      SamePaths(s, s1);
      ShrinksTwice(s, s1, RunTo(s1, Pause));
    }
  }

  lemma MarkedSame(s: State)
    requires Inv(s) && s.phase == Propagate && Solid(s) && GrayReady(s) && AtomicReady(PropagateAll(s))
    ensures var t := Atomic(PropagateAll(s));
      t.heap == s.heap && t.fixed == s.fixed && Roots(t) == Roots(s) && t.phase == SweepString
  {
    hide Inv, Solid, GrayReady, AtomicReady;
  }

  /** A whole cycle, begun in `GCSpause`, frees exactly what is neither in reach nor fixed. */
  lemma CycleCollects(s: State)
    requires Inv(s) && s.phase == Pause
    ensures Inv(SingleStep(s)) && Inv(RunTo(SingleStep(s), Pause)) && RunTo(SingleStep(s), Pause).phase == Pause
    ensures var t := RunTo(SingleStep(s), Pause);
      && (forall r :: r in t.heap <==> Reachable(s, r) || r in s.fixed)
      && (forall r :: r in t.heap ==> CurrentWhite(t, r))
      && (forall r :: r in s.heap && Reachable(s, r) ==> r in t.heap && SameContent(s.heap, t.heap, r))
  {
    hide Shape, NeverBlack, TriColour, SweepingStrings, Sweeping, SweepStep, Live, Solid, RunTo, AfterMarking;
    SingleStepInv(s);
    AfterMarkingInv(s);
    MarkPhaseExact(s);
    RunSweep(AfterMarking(s), Pause);
    SweepStepSame(s);
    FullGcObjects(s, s, AfterMarking(s), RunTo(SingleStep(s), Pause));
  }

  /**
  Steps alone collect: after finitely many of them, whatever the phase, the heap holds exactly the objects that were in
  reach or fixed at the start, those in reach as they were.
  */
  lemma StepsCollect(s: State) returns (n: nat)
    requires Inv(s)
    ensures var t := Steps(s, n);
      && (forall r :: r in t.heap <==> Reachable(s, r) || r in s.fixed)
      && (forall r :: r in t.heap ==> CurrentWhite(t, r))
      && (forall r :: r in s.heap && Reachable(s, r) ==> r in t.heap && SameContent(s.heap, t.heap, r))
  {
    hide Inv, SingleStep, RunTo, CurrentWhite, SameContent, Reachable;
    var s1 := RunTo(s, Pause);
    CycleEnds(s);
    SingleStepInv(s1);
    CycleCollects(s1);
    var m := StepsTo(s, Pause);
    var k := StepsTo(SingleStep(s1), Pause);
    StepsAdd(s, m, 1 + k);
    n := m + (1 + k);
    var t := Steps(s, n);
    assert t == RunTo(SingleStep(s1), Pause);
    forall r | r in s.heap && Reachable(s, r) ensures r in t.heap && SameContent(s.heap, t.heap, r) {
      ContentTwice(s.heap, s1.heap, t.heap, r);
    }
  }

  lemma ContentTwice(h: Heap, h1: Heap, h2: Heap, r: Ref)
    requires r in h && r in h1 && r in h2 && SameContent(h, h1, r) && SameContent(h1, h2, r)
    ensures SameContent(h, h2, r)
  {
  }
}
