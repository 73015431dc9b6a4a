/**
What a collection frees: `luaC_fullgc`, called in any phase, leaves exactly the
objects reachable from the roots and the fixed ones, all current white.
*/
module GcFull {
  import opened GcState
  import opened GcMark
  import opened GcInvariant
  import opened GcSweep
  import opened GcCollect
  import opened GcAtomic
  import opened GcStep

  ghost predicate ClosedSet(h: Heap, z: set<Ref>) {
    forall a, b :: a in z && Edge(h, a, b) ==> b in z
  }

  ghost predicate MarkedIn(s: State, z: set<Ref>) {
    forall r :: r in s.color && !IsWhite(s, r) ==> r in z
  }

  lemma MarkAllMarkedIn(s: State, vs: seq<Value>, z: set<Ref>)
    requires Solid(s) && ValuesIn(s, vs) && ClosedSet(s.heap, z) && MarkedIn(s, z)
    requires forall b :: Gc(b) in vs ==> b in z
    ensures MarkedIn(MarkAll(s, vs), z)
  {
    MarkAllBound(s, vs, z);
    var t := MarkAll(s, vs);
    forall r | r in t.color && !IsWhite(t, r) ensures r in z {
      if IsWhite(s, r) {
        assert r in WhiteSet(s) && r !in WhiteSet(t);
      }
    }
  }

  lemma PropagateMarkMarkedIn(s: State, z: set<Ref>)
    requires Solid(s) && GrayReady(s) && s.gray != [] && ClosedSet(s.heap, z) && MarkedIn(s, z)
    ensures MarkedIn(PropagateMark(s), z)
  {
    var o := s.gray[0];
    assert Waiting(s, o);
    TakeGrayWhites(s);
    assert forall b :: Gc(b) in Succs(s.heap, o) ==> Edge(s.heap, o, b);
    MarkAllMarkedIn(TakeGray(s), Succs(s.heap, o), z);
  }

  lemma {:induction false} PropagateAllMarkedIn(s: State, z: set<Ref>)
    requires Solid(s) && GrayReady(s) && ClosedSet(s.heap, z) && MarkedIn(s, z)
    ensures MarkedIn(PropagateAll(s), z)
    decreases WhiteSet(s), |s.gray|
  {
    if s.gray != [] {
      PropagateMarkShape(s);
      PropagateMarkMarkedIn(s, z);
      PropagateAllMarkedIn(PropagateMark(s), z);
    }
  }

  lemma {:induction false} RemarkUpvalsMarkedIn(s: State, q: seq<Ref>, z: set<Ref>)
    requires Solid(s) && forall x :: x in q ==> x in s.heap
    requires ClosedSet(s.heap, z) && MarkedIn(s, z)
    ensures MarkedIn(RemarkUpvals(s, q), z)
    decreases q
  {
    if q != [] {
      assert q[0] in q;
      assert forall b :: Gc(b) in Succs(s.heap, q[0]) ==> Edge(s.heap, q[0], b);
      if s.color[q[0]] == Gray {
        MarkAllMarkedIn(s, Succs(s.heap, q[0]), z);
        RemarkUpvalsMarkedIn(MarkAll(s, Succs(s.heap, q[0])), q[1..], z);
      } else {
        RemarkUpvalsMarkedIn(s, q[1..], z);
      }
    }
  }

  lemma AtomicMarkMarkedIn(s: State, z: set<Ref>)
    requires AtomicReady(s) && ClosedSet(s.heap, z) && MarkedIn(s, z)
    requires forall b :: Gc(b) in Roots(s) ==> b in z
    ensures MarkedIn(AtomicMark(s), z)
  {
    var s1 := RemarkUpvals(s, s.uvhead);
    RemarkUpvalsStep(s, s.uvhead);
    GrayReadyKept(s, s1);
    RemarkUpvalsMarkedIn(s, s.uvhead, z);
    var s2 := PropagateAll(s1);
    PropagateAllMarkedIn(s1, z);
    assert forall b :: Gc(b) in LateRoots(s2) ==> Gc(b) in Roots(s);
    var s3 := MarkAll(s2, LateRoots(s2));
    MarkAllStep(s2, LateRoots(s2));
    GrayReadyKept(s2, s3);
    MarkAllMarkedIn(s2, LateRoots(s2), z);
    PropagateAllMarkedIn(s3, z);
  }

  lemma AtomicRemarkMarkedIn(s: State, z: set<Ref>)
    requires AtomicReady(s) && ClosedSet(s.heap, z) && MarkedIn(s, z)
    requires forall b :: Gc(b) in Roots(s) ==> b in z
    ensures MarkedIn(AtomicRemark(s), z)
  {
    AtomicMarkMarkedIn(s, z);
    var s4 := AtomicMark(s);
    var s5 := s4.(gray := s4.grayagain, grayagain := []);
    assert forall r :: IsWhite(s5, r) <==> IsWhite(s4, r);
    PropagateAllMarkedIn(s5, z);
  }

  lemma MarkRootMarkedIn(s: State, z: set<Ref>)
    requires Inv(s) && AllCurrent(s) && ClosedSet(s.heap, z)
    requires forall b :: Gc(b) in Roots(s) ==> b in z
    ensures Solid(s) && ValuesIn(s, Roots(s))
    ensures MarkedIn(MarkRoot(s), z)
  {
    hide StringsOk, RootListOk, UpvalsOk, NeverBlack, PhaseOk, GrayIdle, ClosedSet, MarkedIn;
    NoDangling(s);
    EarlyRootsIn(s);
    var s0 := s.(gray := [], grayagain := []);
    EarlyRootsWithin(s, z);
    StartMarkedIn(s, s0, z);
    MarkAllMarkedIn(s0, EarlyRoots(s), z);
    StillMarkedIn(MarkAll(s0, EarlyRoots(s)), MarkRoot(s), z);
  }

  lemma StartMarkedIn(s: State, s0: State, z: set<Ref>)
    requires AllCurrent(s) && s.color.Keys == s.heap.Keys && s0 == s.(gray := [], grayagain := [])
    ensures MarkedIn(s0, z)
  {
    assert forall r :: CurrentWhite(s, r) ==> IsWhite(s0, r);
  }

  lemma StillMarkedIn(s: State, t: State, z: set<Ref>)
    requires MarkedIn(s, z) && t == s.(phase := t.phase)
    ensures MarkedIn(t, z)
  {
    forall r | r in t.color && !IsWhite(t, r) ensures r in z {
      assert !IsWhite(s, r);
    }
  }

  lemma EarlyRootsWithin(s: State, z: set<Ref>)
    requires ClosedSet(s.heap, z) && s.main in s.heap && s.heap[s.main].Thread?
    requires forall b :: Gc(b) in Roots(s) ==> b in z
    ensures forall b :: Gc(b) in EarlyRoots(s) ==> b in z
  {
    forall b | Gc(b) in EarlyRoots(s) ensures b in z {
      if Gc(b) == s.heap[s.main].globals {
        assert Gc(s.main) in Roots(s) && Edge(s.heap, s.main, b);
      } else {
        assert Gc(b) in Roots(s);
      }
    }
  }

  /** Objects reachable in `s`, as a set. */
  ghost function ReachSet(s: State): set<Ref> {
    set r | r in s.heap && Reachable(s, r)
  }

  lemma ReachSetClosed(s: State)
    requires Live(s)
    ensures ClosedSet(s.heap, ReachSet(s)) && forall b :: Gc(b) in Roots(s) ==> b in ReachSet(s)
  {
    forall a, b | a in ReachSet(s) && Edge(s.heap, a, b) ensures b in ReachSet(s) {
      ReachableStep(s, a, b);
      ReachableIsLive(s, b);
    }
    forall b | Gc(b) in Roots(s) ensures b in ReachSet(s) {
      RootReachable(s, b);
    }
  }

  /** The state a full collection reaches between its mark phase and its last sweep. */
  ghost function AfterMarking(s: State): State
    requires Inv(s) && (s.phase == Finalize || s.phase == Pause)
  {
    hide StringsOk, RootListOk, UpvalsOk, Live, NeverBlack, TriColour, Solid, GrayReady, AtomicReady;
    MarkRootInv(s);
    RunMark(MarkRoot(s));
    Atomic(PropagateAll(MarkRoot(s)))
  }

  lemma AfterMarkingInv(s: State)
    requires Inv(s) && (s.phase == Finalize || s.phase == Pause)
    ensures Solid(s) && ValuesIn(s, Roots(s)) && Inv(MarkRoot(s)) && Inv(AfterMarking(s))
    ensures RunTo(MarkRoot(s), Pause) == RunTo(AfterMarking(s), Pause)
    ensures AfterMarking(s).heap == s.heap && AfterMarking(s).fixed == s.fixed
    ensures AfterMarking(s).phase == SweepString
  {
    hide StringsOk, RootListOk, UpvalsOk, Live, NeverBlack, TriColour, Solid, GrayReady, AtomicReady;
    MarkRootInv(s);
    RunMark(MarkRoot(s));
  }

  lemma MarkPhaseBound(s: State)
    requires Inv(s) && (s.phase == Finalize || s.phase == Pause)
    requires Solid(s) && ValuesIn(s, Roots(s)) && Inv(MarkRoot(s))
    requires Solid(MarkRoot(s)) && GrayReady(MarkRoot(s)) && AtomicReady(PropagateAll(MarkRoot(s)))
    ensures MarkedIn(AtomicRemark(PropagateAll(MarkRoot(s))), ReachSet(s))
  {
    hide StringsOk, RootListOk, UpvalsOk, NeverBlack, TriColour, Solid, GrayReady, AllCurrent, MarkedIn;
    var z := ReachSet(s);
    ReachSetClosed(s);
    MarkRootMarkedIn(s, z);
    PropagateAllMarkedIn(MarkRoot(s), z);
    AtomicRemarkMarkedIn(PropagateAll(MarkRoot(s)), z);
  }

  /** The mark phase of a full collection: after it, live means reachable or fixed. */
  lemma MarkPhaseExact(s: State)
    requires Inv(s) && (s.phase == Finalize || s.phase == Pause)
    ensures forall r :: r in s.heap && !Dead(AfterMarking(s), r) <==> Reachable(s, r) || r in s.fixed
  {
    hide StringsOk, RootListOk, UpvalsOk, NeverBlack, TriColour, Solid, GrayReady, Live, AllCurrent, Dead, RunTo, MarkedIn;
    MarkRootInv(s);
    RunMark(MarkRoot(s));
    var s2 := PropagateAll(MarkRoot(s));
    MarkPhaseBound(s);
    AtomicLive(s2);
    AfterMarkingLive(s);
    LiveIsReachable(s, s2, Atomic(s2));
  }

  lemma AfterMarkingLive(s: State)
    requires Inv(s) && (s.phase == Finalize || s.phase == Pause)
    ensures Live(AfterMarking(s))
  {
    hide StringsOk, RootListOk, UpvalsOk, Live, NeverBlack, PhaseOk;
    AfterMarkingInv(s);
  }

  lemma LiveIsReachable(s: State, s2: State, u: State)
    requires Inv(s) && AtomicReady(s2) && u == Atomic(s2) && Live(u)
    requires s2.heap == s.heap && Roots(s2) == Roots(s) && s2.fixed == s.fixed && s2.color.Keys == s.color.Keys
    requires MarkedIn(AtomicRemark(s2), ReachSet(s))
    requires forall r :: r in s2.heap && IsWhite(AtomicRemark(s2), r) && r !in s2.fixed ==> Dead(u, r)
    ensures forall r :: r in s.heap && !Dead(u, r) <==> Reachable(s, r) || r in s.fixed
  {
    forall r | r in s.heap && !Dead(u, r) ensures Reachable(s, r) || r in s.fixed {
      if !IsWhite(AtomicRemark(s2), r) {
        assert r in ReachSet(s);
      }
    }
    forall r | Reachable(s, r) ensures r in s.heap && !Dead(u, r) {
      var p :| PathTo(s, p, r);
      assert PathTo(u, p, r);
      ReachableIsLive(u, r);
    }
  }

  /** Sweeping changes no path from the roots. */
  lemma PathsKept(s: State, t: State, p: seq<Ref>, r: Ref)
    requires Live(s) && SweepStep(s, t)
    ensures PathTo(s, p, r) <==> PathTo(t, p, r)
  {
    forall a | a in s.heap && !Dead(s, a) ensures a in t.heap && Succs(t.heap, a) == Succs(s.heap, a) {
      assert SameContent(s.heap, t.heap, a);
    }
    if |p| > 0 && Gc(p[0]) in Roots(s) {
      var i := 0;
      while i < |p| - 1 && Edge(s.heap, p[i], p[i + 1])
        invariant 0 <= i <= |p| - 1
        invariant p[i] in s.heap && !Dead(s, p[i])
        invariant forall k :: 0 <= k < i ==> Edge(s.heap, p[k], p[k + 1]) && Edge(t.heap, p[k], p[k + 1])
      {
        i := i + 1;
      }
    }
  }

  lemma ReachableKept(s: State, t: State, r: Ref)
    requires Live(s) && SweepStep(s, t)
    ensures Reachable(s, r) <==> Reachable(t, r)
  {
    if Reachable(s, r) {
      var p :| PathTo(s, p, r);
      PathsKept(s, t, p, r);
    }
    if Reachable(t, r) {
      var p :| PathTo(t, p, r);
      PathsKept(s, t, p, r);
    }
  }

  /**
  A full collection, from any phase, ends in `GCSpause`, keeps the invariant,
  and leaves exactly the reachable and the fixed objects, all current white;
  the reachable ones read as before.
  */
  lemma FullGcExact(s: State)
    requires Inv(s)
    ensures Inv(FullGc(s)) && FullGc(s).phase == Pause
    ensures forall r :: r in FullGc(s).heap <==> Reachable(s, r) || r in s.fixed
    ensures forall r :: r in FullGc(s).heap ==> CurrentWhite(FullGc(s), r)
    ensures forall r :: r in s.heap && Reachable(s, r) ==>
              r in FullGc(s).heap && SameContent(s.heap, FullGc(s).heap, r)
  {
    hide Shape, NeverBlack, TriColour, SweepingStrings, Sweeping, SweepStep, Live, Solid, RunTo, AfterMarking, StartSweep;
    StartSweepInv(s);
    RunSweep(StartSweep(s), Finalize);
    var s1 := RunTo(StartSweep(s), Finalize);
    SweepStepCompose(s, StartSweep(s), s1);
    AfterMarkingInv(s1);
    MarkPhaseExact(s1);
    RunSweep(AfterMarking(s1), Pause);
    FullGcObjects(s, s1, AfterMarking(s1), FullGc(s));
  }

  lemma FullGcObjects(s: State, s1: State, u: State, t: State)
    requires Inv(s) && SweepStep(s, s1) && SweepStep(u, t) && u.heap == s1.heap && u.fixed == s1.fixed
    requires forall r :: r in s1.heap && !Dead(u, r) <==> Reachable(s1, r) || r in s1.fixed
    requires Inv(t) && t.phase == Pause
    ensures forall r :: r in t.heap <==> Reachable(s, r) || r in s.fixed
    ensures forall r :: r in s.heap && Reachable(s, r) ==> r in t.heap && SameContent(s.heap, t.heap, r)
  {
    hide Shape, NeverBlack, Live;
    forall r ensures r in t.heap <==> Reachable(s, r) || r in s.fixed {
      ReachableKept(s, s1, r);
      if r in t.heap {
        assert CurrentWhite(t, r);
        assert r in u.heap && !Dead(u, r);
      }
    }
    forall r | r in s.heap && Reachable(s, r) ensures r in t.heap && SameContent(s.heap, t.heap, r) {
      ReachableKept(s, s1, r);
      ReachableIsLive(s, r);
      assert SameContent(s.heap, s1.heap, r) && SameContent(s1.heap, t.heap, r);
    }
  }
}
