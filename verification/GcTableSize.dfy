/**
The size of the string table: it doubles before a chain has more than one
string on average, and a sweep halves it if it has become sparse.
*/
module GcTableSize {
  import opened GcState
  import opened GcMark
  import opened GcInvariant
  import opened GcSweep
  import opened GcStrings
  import opened GcCollect
  import opened GcStep

  lemma ResizeNuse(s: State, size: nat)
    requires StringsOk(s) && size > 0
    ensures Nuse(Resize(s, size).strt) == Nuse(s.strt)
    ensures |Resize(s, size).strt| == if s.phase == SweepString then |s.strt| else size
  {
    if s.phase != SweepString {
      var empty: seq<seq<Ref>> := seq(size, _ => []);
      NuseEmpty(empty);
      RelinkFromNuse(s, 0, empty);
      assert s.strt[0..] == s.strt;
    }
  }

  /** Interning keeps at most one string for each chain on average, except while chains are swept, and grows a full table only. */
  lemma InternLoad(s: State, chars: string, r: Ref)
    requires StringsOk(s) && r !in s.heap && s.phase != SweepString
    requires Nuse(s.strt) <= |s.strt| <= MAX_INT / 2
    ensures var t := Intern(s, chars, r).0;
      && Nuse(t.strt) <= |t.strt| && (|t.strt| == |s.strt| || |t.strt| == 2 * |s.strt|)
      && (|t.strt| > |s.strt| ==> Nuse(s.strt) == |s.strt|)
  {
    var b := Bucket(s, chars);
    var q := s.strt[b];
    if Find(s, q, chars) == |q| {
      var t := NewString(s, chars, r);
      NewStringStrings(s, chars, r);
      NuseUpdate(s.strt, b, [r] + q);
      ResizeNuse(t, |t.strt| * 2);
    }
  }

  // ------------------------------------------------- sweeping other objects

  lemma CloseOneStrt(s: State, t: Ref, u: Ref, v: Value)
    requires FirstOpen(s, t, u, v) && OpenListOk(s.heap, t) && SolidMarking(s)
    ensures CloseOne(s, t, u, v).strt == s.strt
  {
    CloseCellSolid(s, t, u, v);
  }

  lemma {:induction false} CloseAllStrt(s: State, t: Ref, level: nat)
    requires t in s.heap && s.heap[t].Thread? && OpenListOk(s.heap, t) && SolidMarking(s)
    ensures CloseAll(s, t, level).strt == s.strt
    decreases |s.heap[t].open|
  {
    hide OpenListOk, SolidMarking, CloseOne;
    if s.heap[t].open != [] {
      var u := s.heap[t].open[0];
      FirstLevel(s, t);
      if Level(s.heap, u) >= level {
        var v := s.heap[t].stack[Level(s.heap, u)];
        CloseOneOpen(s, t, u, v);
        CloseOneStrt(s, t, u, v);
        CloseAllStrt(CloseOne(s, t, u, v), t, level);
      }
    }
  }

  lemma FirstLevel(s: State, t: Ref)
    requires t in s.heap && s.heap[t].Thread? && OpenListOk(s.heap, t) && s.heap[t].open != []
    ensures var u := s.heap[t].open[0];
      && u in s.heap && OpenUpval(s.heap[u]) && Level(s.heap, u) < |s.heap[t].stack|
      && FirstOpen(s, t, u, s.heap[t].stack[Level(s.heap, u)])
  {
    assert OpenEntry(s.heap, t, s.heap[t].open[0]);
  }

  lemma SweepOneStrt(s: State)
    requires InSweep(s)
    ensures SweepOne(s).strt == s.strt
  {
    hide Shape, Live, NeverBlack, PhaseOk;
    AtSweep(s);
    SweepOneOpen(s);
    var c := s.rootgc[s.sweeppos];
    var s1 := if s.heap[c].Thread? then SweepOpen(s, c) else s;
    if Dead(s1, c) {
      UnlinkInv(s1);
      InvMarking(Unlink(s1), {c});
      if s1.heap[c].Thread? {
        ThreadOk(Unlink(s1), c, {c});
        CloseAllStrt(Unlink(s1), c, 0);
      }
    }
  }

  lemma {:induction false} SweepRootsStrt(s: State, n: nat)
    requires Inv(s) && s.phase == Sweep
    ensures Inv(SweepRoots(s, n)) && SweepRoots(s, n).phase == Sweep && SweepRoots(s, n).strt == s.strt
    decreases n
  {
    hide Shape, Live, NeverBlack, PhaseOk, SweepOne, SweepStep;
    SweepRootsInv(s, n);
    if n > 0 && s.sweeppos < |s.rootgc| {
      SweepOneInv(s);
      SweepOneStrt(s);
      SweepRootsStrt(SweepOne(s), n - 1);
    }
  }

  predicate Sparse(strt: seq<seq<Ref>>) {
    Nuse(strt) < |strt| / 4 && |strt| > MINSTRTABSIZE * 2
  }

  /** The end of a sweep, and only that, halves the table, if there are fewer strings than a quarter of its chains. */
  lemma SweepSizes(s: State)
    requires Inv(s) && s.phase == Sweep
    ensures Inv(SingleStep(s)) && Nuse(SingleStep(s).strt) == Nuse(s.strt)
    ensures |SingleStep(s).strt|
      == if SingleStep(s).phase == Finalize && Sparse(s.strt) then |s.strt| / 2 else |s.strt|
  {
    hide Shape, Live, NeverBlack, PhaseOk, SweepRoots, Nuse;
    SingleStepInv(s);
    SweepRootsStrt(s, GCSWEEPMAX);
    var t := SweepRoots(s, GCSWEEPMAX);
    if Sparse(t.strt) {
      SweptStrings(t);
      ResizeNuse(t, |t.strt| / 2);
    }
  }

  lemma SweptStrings(t: State)
    requires Inv(t)
    ensures StringsOk(t)
  {
  }
}
