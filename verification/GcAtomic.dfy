/**
The atomic phase: after it every marked object leads only to marked ones, so
flipping the current white separates the live objects from the dead.
*/
module GcAtomic {
  import opened GcState
  import opened GcMark
  import opened GcInvariant
  import opened GcSweep
  import opened GcCollect

  /** What is carried along through the traversals of `atomic`. */
  ghost predicate Marking(s: State) {
    Solid(s) && GrayReady(s) && NeverBlack(s) && NoOtherWhite(s)
  }

  lemma {:induction false} PropagateAllMarking(s: State)
    requires Marking(s)
    ensures Marking(PropagateAll(s))
    decreases WhiteSet(s), |s.gray|
  {
    if s.gray != [] {
      PropagateMarkShape(s);
      PropagateMarkMarking(s);
      PropagateAllMarking(PropagateMark(s));
    }
  }

  lemma PropagateMarkMarking(s: State)
    requires Marking(s) && s.gray != []
    ensures NeverBlack(PropagateMark(s)) && NoOtherWhite(PropagateMark(s))
  {
    assert Waiting(s, s.gray[0]);
    PropagateMarkStep(s);
    MarkNeverBlack(TakeGray(s), PropagateMark(s));
    MarkNoOther(TakeGray(s), PropagateMark(s));
  }

  lemma MarkAllMarking(s: State, vs: seq<Value>)
    requires Marking(s) && ValuesIn(s, vs)
    ensures Marking(MarkAll(s, vs)) && MarkedKept(s, MarkAll(s, vs))
    ensures MarkStep(s, MarkAll(s, vs))
    ensures forall b :: Gc(b) in vs ==> !IsWhite(MarkAll(s, vs), b)
  {
    MarkAllStep(s, vs);
    GrayReadyKept(s, MarkAll(s, vs));
    MarkNeverBlack(s, MarkAll(s, vs));
    MarkNoOther(s, MarkAll(s, vs));
  }

  /** The state in which the open upvalues have been remarked. */
  lemma RemarkCovers(s: State)
    requires Inv(s) && AtomicReady(s) && s.phase == Propagate
    ensures var s1 := RemarkUpvals(s, s.uvhead);
            Marking(s1) && MarkedKept(s, s1) && Cover(s1, Members(s.grayagain))
  {
    hide StringsOk, RootListOk;
    var s1 := RemarkUpvals(s, s.uvhead);
    RemarkUpvalsStep(s, s.uvhead);
    GrayReadyKept(s, s1);
    MarkNeverBlack(s, s1);
    MarkNoOther(s, s1);
    forall r | r in s1.color && !IsWhite(s1, r)
      ensures Settled(s1, r) || r in s1.gray || r in Members(s.grayagain)
    {
      if IsWhite(s, r) {
        assert JustMarked(s1, r);
      } else if s.color[r] == Black {
        assert Settled(s, r);
      } else if OpenUpval(s.heap[r]) {
        assert r in s.uvhead;
      }
    }
  }

  ghost predicate LateMarked(s: State, t: State) {
    forall b :: Gc(b) in LateRoots(s) ==> !IsWhite(t, b)
  }

  lemma AtomicMarkCovers(s: State)
    requires Inv(s) && AtomicReady(s) && s.phase == Propagate
    ensures var s4 := AtomicMark(s);
            && Marking(s4) && MarkedKept(s, s4) && LateMarked(s, s4)
            && Cover(s4, Members(s4.grayagain))
  {
    hide Inv, Marking;
    var s1 := RemarkUpvals(s, s.uvhead);
    RemarkCovers(s);
    AtomicMarkRest(s, s1);
  }

  lemma AtomicMarkRest(s: State, s1: State)
    requires AtomicReady(s) && s1 == RemarkUpvals(s, s.uvhead)
    requires Marking(s1) && MarkedKept(s, s1) && Cover(s1, Members(s.grayagain))
    ensures var s4 := AtomicMark(s);
            && Marking(s4) && MarkedKept(s, s4) && LateMarked(s, s4)
            && Cover(s4, Members(s4.grayagain))
  {
    var x := Members(s.grayagain);
    var s2 := PropagateAll(s1);
    PropagateAllMarking(s1);
    PropagateAllCover(s1, x);
    assert forall b :: Gc(b) in LateRoots(s2) ==> Gc(b) in Roots(s);
    var s3 := MarkAll(s2, LateRoots(s2));
    MarkAllMarking(s2, LateRoots(s2));
    MarkStepCover(s2, s3, x);
    var s4 := PropagateAll(s3);
    PropagateAllMarking(s3);
    PropagateAllCover(s3, x);
    assert s4 == AtomicMark(s);
  }

  lemma AtomicRemarkCovers(s: State)
    requires Inv(s) && AtomicReady(s) && s.phase == Propagate
    ensures var t := AtomicRemark(s);
            Marking(t) && MarkedKept(s, t) && LateMarked(s, t) && Cover(t, {})
  {
    hide Inv, Marking, Cover, PropagateAll, AtomicMark;
    AtomicMarkCovers(s);
    var s4 := AtomicMark(s);
    var s5 := s4.(gray := s4.grayagain, grayagain := []);
    AgainCovers(s4, s5);
    PropagateAllMarking(s5);
    PropagateAllCover(s5, {});
  }

  lemma AgainCovers(s4: State, s5: State)
    requires Marking(s4) && s4.gray == [] && Cover(s4, Members(s4.grayagain))
    requires s5 == s4.(gray := s4.grayagain, grayagain := [])
    ensures Solid(s5) && GrayReady(s5) && Marking(s5) && Cover(s5, {}) && MarkedKept(s4, s5)
  {
    forall x ensures Waiting(s4, x) ==> Waiting(s5, x) {}
    forall x ensures Settled(s4, x) ==> Settled(s5, x) {}
  }

  /** After `atomic`, what was marked and what is fixed is live, and it is closed under edges. */
  lemma AtomicLive(s: State)
    requires Inv(s) && AtomicReady(s) && s.phase == Propagate
    ensures Live(Atomic(s))
    ensures forall r :: r in s.heap && IsWhite(AtomicRemark(s), r) && r !in s.fixed ==> Dead(Atomic(s), r)
    ensures forall r :: r in s.heap && !IsWhite(AtomicRemark(s), r) ==> !Dead(Atomic(s), r)
  {
    hide StringsOk, RootListOk, UpvalsOk, NeverBlack;
    AtomicRemarkCovers(s);
    FlipLive(s, AtomicRemark(s));
  }

  lemma FlipLive(s: State, u: State)
    requires Live(s) && TriColour(s) && s.main in s.heap && s.color.Keys == s.heap.Keys
    requires forall r :: r in s.fixed ==> r in s.heap && (s.heap[r].Str? || r == s.main)
    requires SameButGray(s, u) && u.gray == [] && Marking(u) && MarkedKept(s, u) && LateMarked(s, u) && Cover(u, {})
    ensures var t := u.(currentwhite := !s.currentwhite, sweepstr := 0, sweeppos := 0, phase := SweepString);
            && Live(t)
            && (forall r :: r in s.heap && IsWhite(u, r) && r !in s.fixed ==> Dead(t, r))
            && (forall r :: r in s.heap && !IsWhite(u, r) ==> !Dead(t, r))
  {
    var t := u.(currentwhite := !s.currentwhite, sweepstr := 0, sweeppos := 0, phase := SweepString);
    assert forall r :: r in s.heap ==> (Dead(t, r) <==> IsWhite(u, r) && r !in s.fixed);
    forall b | Gc(b) in Roots(t) ensures b in t.heap && !Dead(t, b) {
      assert b in s.heap;
      assert Gc(b) in Roots(s);
      if Gc(b) in LateRoots(s) {
        assert !IsWhite(u, b);
      } else {
        assert b == s.main || Gc(b) == s.registry;
      }
    }
    forall a, b | Edge(t.heap, a, b) && !Dead(t, a) ensures b in t.heap && !Dead(t, b) {
      assert Edge(u.heap, a, b);
      assert !s.heap[a].Str?;
      assert !IsWhite(u, a);
      assert Settled(u, a);
    }
  }

  lemma AtomicInv(s: State)
    requires Inv(s) && s.phase == Propagate && s.gray == []
    ensures AtomicReady(s)
    ensures Inv(Atomic(s))
  {
    AtomicStart(s);
    AtomicLive(s);
    AtomicShape(s);
    AtomicPhase(s);
  }

  lemma AtomicStart(s: State)
    requires Inv(s) && s.phase == Propagate && s.gray == []
    ensures AtomicReady(s)
  {
    NoDangling(s);
  }

  lemma AtomicShape(s: State)
    requires Shape(s) && AtomicReady(s)
    ensures Shape(Atomic(s))
  {
    hide StringsOk, RootListOk, UpvalsOk;
    ShapeColour(s, AtomicRemark(s), {});
    ShapePhase(AtomicRemark(s), Atomic(s));
  }

  lemma AtomicPhase(s: State)
    requires Inv(s) && AtomicReady(s) && s.phase == Propagate
    ensures NeverBlack(Atomic(s)) && PhaseOk(Atomic(s))
  {
    hide RootListOk, UpvalsOk, Live, NeverBlack, TriColour;
    AtomicRemarkCovers(s);
    FlipPhase(AtomicRemark(s), Atomic(s));
  }

  lemma FlipPhase(u: State, t: State)
    requires NeverBlack(u) && GrayReady(u) && u.gray == [] && |u.strt| > 0
    requires t == u.(currentwhite := !u.currentwhite, sweepstr := 0, sweeppos := 0, phase := SweepString)
    ensures NeverBlack(t) && PhaseOk(t)
  {
    forall i | 0 <= i < |t.grayagain| ensures Resting(t, t.grayagain[i]) {
      assert Waiting(u, u.grayagain[i]);
    }
  }
}
