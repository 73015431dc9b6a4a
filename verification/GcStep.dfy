/**
`singlestep` and `luaC_fullgc`: every step keeps the invariant, a full
collection ends, and it leaves exactly the reachable and the fixed objects.
*/
module GcStep {
  import opened GcState
  import opened GcMark
  import opened GcInvariant
  import opened GcSweep
  import opened GcStrings
  import opened GcCollect
  import opened GcAtomic

  const MINSTRTABSIZE: nat := 32
  const GCSWEEPMAX: nat := 40

  /** `checkSizes`: halve a string table that is less than a quarter full. */
  ghost function CheckSizes(s: State): State
    requires StringsOk(s)
  {
    if Nuse(s.strt) < |s.strt| / 4 && |s.strt| > MINSTRTABSIZE * 2 then Resize(s, |s.strt| / 2) else s
  }

  /** The `GCSsweep` step. */
  ghost function SweepStepRoots(s: State): State
    requires Inv(s) && s.phase == Sweep
  {
    SweepRootsInv(s, GCSWEEPMAX);
    var t := SweepRoots(s, GCSWEEPMAX);
    if t.sweeppos >= |t.rootgc| then CheckSizes(t).(phase := Finalize) else t
  }

  /** `singlestep`. */
  ghost function SingleStep(s: State): State
    requires Inv(s)
  {
    match s.phase
    case Pause =>
      NoDangling(s);
      MarkRoot(s)
    case Propagate =>
      NoDangling(s);
      if s.gray != [] then PropagateMark(s) else Atomic(s)
    case SweepString => AfterBucket(s)
    case Sweep => SweepStepRoots(s)
    case Finalize => s.(phase := Pause)
  }

  lemma SweepStepRootsInv(s: State)
    requires Inv(s) && s.phase == Sweep
    ensures Inv(SweepStepRoots(s)) && SweepStep(s, SweepStepRoots(s))
    ensures var t := SweepStepRoots(s);
            || t.phase == Finalize
            || (t.phase == Sweep && (t.heap.Keys < s.heap.Keys || (t.heap.Keys == s.heap.Keys && Left(t) < Left(s))))
  {
    hide Shape, Live, NeverBlack, PhaseOk, SweepStep;
    SweepRootsInv(s, GCSWEEPMAX);
    var t := SweepRoots(s, GCSWEEPMAX);
    if t.sweeppos >= |t.rootgc| {
      SweepEndInv(t);
      SweepStepCompose(s, t, SweepStepRoots(s));
    }
  }

  lemma SweepEndInv(t: State)
    requires Inv(t) && t.phase == Sweep && t.sweeppos >= |t.rootgc|
    ensures Inv(CheckSizes(t).(phase := Finalize)) && SweepStep(t, CheckSizes(t).(phase := Finalize))
  {
    hide Live, NeverBlack, PhaseOk, SweepStep, StringsOk, RootListOk, UpvalsOk;
    var size := |t.strt| / 2;
    if size > 0 {
      ResizeInv(t, size);
    }
    SweepStepSame(t);
    SweepDone(CheckSizes(t));
    SweepStepCompose(t, CheckSizes(t), CheckSizes(t).(phase := Finalize));
  }

  /** When the sweep has passed the whole root list, every object is current white. */
  lemma SweepDone(s: State)
    requires Inv(s) && s.phase == Sweep && s.sweeppos >= |s.rootgc|
    ensures Inv(s.(phase := Finalize)) && SweepStep(s, s.(phase := Finalize))
  {
    hide StringsOk;
    SweepDoneWhite(s);
    var t := s.(phase := Finalize);
    ShapePhase(s, t);
    assert forall r :: Dead(t, r) <==> Dead(s, r);
    SweepStepSame(s);
    AllCurrentPhase(s, t);
  }

  lemma AllCurrentPhase(s: State, t: State)
    requires AllCurrent(s) && t == s.(phase := t.phase)
    ensures AllCurrent(t)
  {
    forall i | 0 <= i < |t.grayagain| ensures Resting(t, t.grayagain[i]) {
      assert Resting(s, s.grayagain[i]);
    }
  }

  lemma SweepDoneWhite(s: State)
    requires Shape(s) && Sweeping(s) && s.sweeppos >= |s.rootgc|
    ensures AllCurrent(s)
  {
    hide StringsOk;
    forall r | r in s.heap ensures CurrentWhite(s, r) {
      if OpenUpval(s.heap[r]) {
        assert Owned(s.heap, r);
        assert s.heap[r].place.thread in s.rootgc;
      } else if !s.heap[r].Str? {
        assert r in s.rootgc;
      }
    }
  }

  lemma FinalizeInv(s: State)
    requires Inv(s) && s.phase == Finalize
    ensures Inv(s.(phase := Pause)) && SweepStep(s, s.(phase := Pause))
  {
    hide StringsOk, RootListOk, UpvalsOk, AllCurrent;
    var t := s.(phase := Pause);
    ShapePhase(s, t);
    AllCurrentPhase(s, t);
    assert forall r :: Dead(t, r) <==> Dead(s, r);
    SweepStepSame(s);
  }

  /** Every step of the collector keeps the invariant. */
  lemma SingleStepInv(s: State)
    requires Inv(s)
    ensures Inv(SingleStep(s))
  {
    hide Shape, Live, NeverBlack, TriColour, SweepingStrings, Sweeping, SweepStep;
    match s.phase {
      case Pause => MarkRootInv(s);
      case Propagate => if s.gray != [] { PropagateMarkInv(s); } else { AtomicInv(s); }
      case SweepString => SweepBucketInv(s);
      case Sweep => SweepStepRootsInv(s);
      case Finalize => FinalizeInv(s);
    }
  }

  /** An object that is not dead is untouched by a collector step, except that an upvalue may close. */
  lemma SingleStepKeeps(s: State, r: Ref)
    requires Inv(s) && r in s.heap && !Dead(s, r)
    ensures r in SingleStep(s).heap && SameContent(s.heap, SingleStep(s).heap, r)
  {
    hide Shape, Live, NeverBlack, TriColour, SweepingStrings, Sweeping;
    match s.phase {
      case Pause => MarkRootInv(s);
      case Propagate => if s.gray != [] { PropagateMarkInv(s); } else { AtomicInv(s); }
      case SweepString => SweepBucketInv(s);
      case Sweep => SweepStepRootsInv(s);
      case Finalize =>
    }
  }

  // ------------------------------------------------------------ full collection

  function Rank(p: Phase): nat {
    match p
    case Propagate => 4
    case SweepString => 3
    case Sweep => 2
    case Finalize => 1
    case Pause => 0
  }

  ghost function WorkSet(s: State): set<Ref> {
    match s.phase
    case Propagate => WhiteSet(s)
    case Sweep => s.heap.Keys
    case _ => {}
  }

  ghost function Work(s: State): int {
    match s.phase
    case Propagate => |s.gray|
    case SweepString => |s.strt| - s.sweepstr
    case Sweep => Left(s)
    case _ => 0
  }

  lemma WorkNonNegative(s: State)
    requires Inv(s)
    ensures Work(s) >= 0
  {
  }

  /** Outside `GCSpause`, each step comes closer to the end of the cycle. */
  lemma SingleStepProgress(s: State)
    requires Inv(s) && s.phase != Pause
    ensures var t := SingleStep(s);
            || Rank(t.phase) < Rank(s.phase)
            || (t.phase == s.phase && WorkSet(t) < WorkSet(s))
            || (t.phase == s.phase && WorkSet(t) == WorkSet(s) && Work(t) < Work(s))
  {
    hide Shape, Live, NeverBlack, TriColour, SweepingStrings, Sweeping, SweepStep;
    match s.phase {
      case Propagate => if s.gray != [] { PropagateMarkInv(s); PropagateMarkShape(s); }
      case SweepString => SweepBucketInv(s);
      case Sweep => SweepStepRootsInv(s);
      case _ =>
    }
  }

  /** Repeat `singlestep` until the collector is in phase `goal`. */
  ghost function RunTo(s: State, goal: Phase): State
    requires Inv(s) && (goal == Pause || (goal == Finalize && s.phase != Pause))
    decreases Rank(s.phase), WorkSet(s), Work(s)
  {
    hide Inv, SingleStep, WorkSet, Work;
    if s.phase == goal then s
    else
      SingleStepInv(s);
      SingleStepProgress(s);
      WorkNonNegative(s);
      WorkNonNegative(SingleStep(s));
      StaysBusy(s);
      RunTo(SingleStep(s), goal)
  }

  lemma StaysBusy(s: State)
    requires Inv(s) && s.phase != Pause
    ensures s.phase != Finalize ==> SingleStep(s).phase != Pause
  {
    hide Shape, Live, NeverBlack, TriColour, SweepingStrings, Sweeping, SweepStep;
    match s.phase {
      case Propagate => if s.gray != [] { PropagateMarkInv(s); }
      case SweepString => SweepBucketInv(s);
      case Sweep => SweepStepRootsInv(s);
      case _ =>
    }
  }

  /** From a sweep phase on: live objects stay, and in the end every object is current white. */
  lemma {:induction false} RunSweep(s: State, goal: Phase)
    requires Inv(s) && (goal == Pause || goal == Finalize) && s.phase != Propagate
    requires s.phase == Pause ==> goal == Pause
    ensures Inv(RunTo(s, goal)) && RunTo(s, goal).phase == goal && SweepStep(s, RunTo(s, goal))
    decreases Rank(s.phase), WorkSet(s), Work(s)
  {
    hide Inv, SingleStep, WorkSet, Work, SweepStep;
    SweepStepSame(s);
    if s.phase != goal {
      SingleStepInv(s);
      SingleStepProgress(s);
      WorkNonNegative(s);
      WorkNonNegative(SingleStep(s));
      StaysBusy(s);
      SweepingStep(s);
      RunSweep(SingleStep(s), goal);
      SweepStepCompose(s, SingleStep(s), RunTo(s, goal));
    }
  }

  lemma SweepingStep(s: State)
    requires Inv(s) && s.phase != Propagate && s.phase != Pause
    ensures SweepStep(s, SingleStep(s)) && SingleStep(s).phase != Propagate
  {
    hide Shape, Live, NeverBlack, TriColour, SweepingStrings, Sweeping, SweepStep;
    match s.phase {
      case SweepString => SweepBucketInv(s);
      case Sweep => SweepStepRootsInv(s);
      case Finalize => FinalizeInv(s);
    }
  }

  /** From the mark phase on: the gray list drains, then `atomic` runs, then the sweep. */
  lemma {:induction false} RunMark(s: State)
    requires Inv(s) && s.phase == Propagate
    ensures Solid(s) && GrayReady(s)
    ensures Inv(PropagateAll(s)) && AtomicReady(PropagateAll(s)) && Inv(Atomic(PropagateAll(s)))
    ensures RunTo(s, Pause) == RunTo(Atomic(PropagateAll(s)), Pause)
    decreases WhiteSet(s), |s.gray|
  {
    hide Inv, WorkSet, Work, Atomic, AtomicReady;
    InvMarkReady(s);
    SingleStepInv(s);
    if s.gray == [] {
      AtomicInv(s);
    } else {
      PropagateMarkInv(s);
      PropagateMarkShape(s);
      RunMark(PropagateMark(s));
    }
  }

  lemma InvMarkReady(s: State)
    requires Inv(s) && s.phase == Propagate
    ensures Solid(s) && GrayReady(s)
  {
    NoDangling(s);
  }

  /** `luaC_fullgc` first abandons marking: the sweep then returns every object to white. */
  function StartSweep(s: State): State {
    if s.phase == Pause || s.phase == Propagate then
      s.(sweepstr := 0, sweeppos := 0, gray := [], grayagain := [], phase := SweepString)
    else s
  }

  lemma StartSweepInv(s: State)
    requires Inv(s)
    ensures Inv(StartSweep(s)) && SweepStep(s, StartSweep(s))
    ensures StartSweep(s).phase != Pause && StartSweep(s).phase != Propagate
  {
    hide StringsOk, RootListOk, UpvalsOk;
    var t := StartSweep(s);
    SweepStepSame(s);
    if s.phase == Pause || s.phase == Propagate {
      StringsSame(s, t);
      RootListSame(s, t, {});
      assert forall r :: Dead(t, r) <==> Dead(s, r);
    }
  }

  /** At the end of a sweep everything `markroot` starts from is there. */
  lemma MarkRootReady(s: State)
    requires Inv(s) && (s.phase == Pause || s.phase == Finalize)
    ensures Solid(s) && ValuesIn(s, Roots(s)) && s.main in s.heap && s.heap[s.main].Thread?
    ensures Inv(MarkRoot(s))
  {
    NoDangling(s);
    MarkRootInv(s);
    hide Inv;
  }

  /** `luaC_fullgc`. */
  ghost function FullGc(s: State): State
    requires Inv(s)
  {
    hide Inv, StartSweep, RunTo, SingleStep, WorkSet, Work, SweepStep, Solid, ValuesIn, MarkRoot;
    StartSweepInv(s);
    RunSweep(StartSweep(s), Finalize);
    var s1 := RunTo(StartSweep(s), Finalize);
    MarkRootReady(s1);
    RunTo(MarkRoot(s1), Pause)
  }
}
