/**
Each step of the collector (`singlestep`) and the proof that it keeps the
invariant: marking, the atomic phase, and `sweeplist` on the root list.
*/
module GcCollect {
  import opened GcState
  import opened GcMark
  import opened GcInvariant
  import opened GcSweep
  import opened GcStrings

  lemma {:induction false} CloseAllInv(s: State, t: Ref, level: nat, x: set<Ref>)
    requires Inv(s, x) && x <= {t} && t in s.heap && s.heap[t].Thread?
    ensures OpenListOk(s.heap, t) && SolidMarking(s)
    ensures var s1 := CloseAll(s, t, level);
            && Inv(s1, x)
            && t in s1.heap && s1.heap[t].Thread?
            && (forall w :: w in s1.heap[t].open ==> w in s1.heap && OpenUpval(s1.heap[w]) && Level(s1.heap, w) < level)
            && s1.heap[t] == s.heap[t].(open := s1.heap[t].open)
            && (level == 0 ==> s1.heap[t].open == [])
    decreases |s.heap[t].open|
  {
    InvMarking(s, x);
    assert OpenListOk(s.heap, t);
    if s.heap[t].open == [] {
    } else {
      var u := s.heap[t].open[0];
      assert u in s.heap[t].open && OpenEntry(s.heap, t, u);
      if Level(s.heap, u) < level {
        AllBelow(s.heap, t, level);
      } else {
        var v := s.heap[t].stack[Level(s.heap, u)];
        CloseOneInv(s, t, u, v, x);
        CloseOneOpen(s, t, u, v);
        CloseAllInv(CloseOne(s, t, u, v), t, level, x);
      }
    }
  }

  lemma AllBelow(h: Heap, t: Ref, level: nat)
    requires t in h && h[t].Thread? && OpenListOk(h, t) && h[t].open != []
    requires h[t].open[0] in h && OpenUpval(h[h[t].open[0]]) && Level(h, h[t].open[0]) < level
    ensures forall w :: w in h[t].open ==> w in h && OpenUpval(h[w]) && Level(h, w) < level
  {
    forall w | w in h[t].open ensures w in h && OpenUpval(h[w]) && Level(h, w) < level {
      assert OpenEntry(h, t, w);
      var j :| 0 <= j < |h[t].open| && h[t].open[j] == w;
      if j > 0 {
        assert Level(h, h[t].open[0]) > Level(h, h[t].open[j]);
      }
    }
  }

  // --------------------------------------------------- sweeping a thread's upvalues

  lemma SweepOpenUpvals(h: Heap, uvhead: seq<Ref>, t: Ref, dead: set<Ref>)
    requires UpvalsOk(h, uvhead) && t in h && h[t].Thread? && dead <= set u | u in h[t].open
    ensures t !in dead
    ensures UpvalsOk(h[t := h[t].(open := Keep(h[t].open, dead))] - dead, Keep(uvhead, dead))
  {
    var h2 := h[t := h[t].(open := Keep(h[t].open, dead))] - dead;
    assert forall u :: u in dead ==> u in h[t].open;
    assert forall u :: u in dead ==> OpenEntry(h, t, u);
    forall w | w in h2 && h2[w].Thread? ensures OpenListOk(h2, w) {
      SweepOpenList(h, t, dead, w);
    }
    forall y | y in h2 && OpenUpval(h2[y]) ensures Owned(h2, y) {
      assert Owned(h, y);
    }
  }

  lemma SweepOpenList(h: Heap, t: Ref, dead: set<Ref>, w: Ref)
    requires t in h && h[t].Thread? && OpenListOk(h, t)
    requires forall u :: u in dead ==> u in h[t].open
    requires w in h && h[w].Thread? && OpenListOk(h, w)
    ensures t !in dead && w !in dead
    ensures OpenListOk(h[t := h[t].(open := Keep(h[t].open, dead))] - dead, w)
  {
    assert forall u :: u in dead ==> OpenEntry(h, t, u);
    var h2 := h[t := h[t].(open := Keep(h[t].open, dead))] - dead;
    if w == t {
      KeepFalls(h, h[t].open, dead);
    }
    OpenListMoved(h, h2, w, h2[w].open);
  }

  /** A thread whose open list is a falling part of what it was, with the same entries, is in order. */
  lemma OpenListMoved(h: Heap, h2: Heap, w: Ref, q: seq<Ref>)
    requires w in h && h[w].Thread? && OpenListOk(h, w)
    requires forall y :: y in q ==> y in h[w].open && y in h2 && h2[y] == h[y]
    requires (forall y :: y in q ==> y in h && OpenUpval(h[y])) && LevelsFall(h, q)
    requires w in h2 && h2[w].Thread? && h2[w].open == q && |h2[w].stack| >= |h[w].stack|
    ensures OpenListOk(h2, w)
  {
    assert forall y :: y in q ==> OpenEntry(h, w, y);
    assert q[0..] == q;
    LevelsFallKept(h, h2, q, 0);
  }

  lemma {:induction false} KeepNothing(q: seq<Ref>)
    ensures Keep(q, {}) == q
  {
    if q != [] {
      KeepNothing(q[1..]);
    }
  }

  lemma {:induction false} KeepFalls(h: Heap, q: seq<Ref>, dead: set<Ref>)
    requires (forall u :: u in q ==> u in h && OpenUpval(h[u])) && LevelsFall(h, q)
    ensures LevelsFall(h, Keep(q, dead))
  {
    if q != [] {
      assert forall u :: u in q[1..] ==> u in q;
      LevelsFallKept(h, h, q, 1);
      KeepFalls(h, q[1..], dead);
      var p := Keep(q[1..], dead);
      forall j | 0 <= j < |p| ensures q[0] in q && p[j] in q && Level(h, q[0]) > Level(h, p[j]) {
        assert p[j] in p && p[j] in q[1..];
        var k :| 0 <= k < |q| - 1 && q[1..][k] == p[j];
        assert q[k + 1] == p[j];
      }
      if q[0] !in dead {
        FallsBehind(h, q[0], p);
      }
    }
  }

  lemma FallsBehind(h: Heap, x: Ref, p: seq<Ref>)
    requires (forall u :: u in p ==> u in h && OpenUpval(h[u])) && LevelsFall(h, p) && x in h && OpenUpval(h[x])
    requires forall j :: 0 <= j < |p| ==> p[j] in p && Level(h, x) > Level(h, p[j])
    ensures LevelsFall(h, [x] + p)
  {
    var q := [x] + p;
    forall i, j | 0 <= i < j < |q| ensures Level(h, q[i]) > Level(h, q[j]) {
      assert q[j] == p[j - 1] && (i > 0 ==> q[i] == p[i - 1]);
    }
  }

  lemma SweepOpenInv(s: State, t: Ref)
    requires Inv(s) && s.phase == Sweep && t in s.heap && s.heap[t].Thread?
    ensures Inv(SweepOpen(s, t))
    ensures forall u :: u in SweepOpen(s, t).heap[t].open ==> CurrentWhite(SweepOpen(s, t), u)
  {
    hide Shape, Live, NeverBlack, PhaseOk;
    ThreadOk(s, t, {});
    SweepOpenShape(s, t);
    SweepOpenLive(s, t);
    SweepOpenPhase(s, t);
  }

  lemma SweepOpenShape(s: State, t: Ref)
    requires Shape(s) && t in s.heap && s.heap[t].Thread?
    ensures Shape(SweepOpen(s, t))
  {
    hide StringsOk, RootListOk, UpvalsOk;
    ThreadOk(s, t, {});
    var dead := DeadIn(s, s.heap[t].open);
    assert forall u :: u in dead ==> OpenEntry(s.heap, t, u);
    SweepOpenUpvals(s.heap, s.uvhead, t, dead);
    SweepOpenStrings(s, t);
    SweepOpenRoots(s, t);
  }

  lemma SweepOpenStrings(s: State, t: Ref)
    requires t in s.heap && s.heap[t].Thread? && OpenListOk(s.heap, t) && StringsOk(s)
    ensures StringsOk(SweepOpen(s, t))
  {
    assert forall u :: u in DeadIn(s, s.heap[t].open) ==> OpenEntry(s.heap, t, u);
    SameStrings(s, SweepOpen(s, t));
  }

  lemma SweepOpenRoots(s: State, t: Ref)
    requires t in s.heap && s.heap[t].Thread? && OpenListOk(s.heap, t) && RootListOk(s, {})
    ensures RootListOk(SweepOpen(s, t), {})
  {
    assert forall u :: u in DeadIn(s, s.heap[t].open) ==> OpenEntry(s.heap, t, u);
  }

  lemma SweepOpenLive(s: State, t: Ref)
    requires t in s.heap && s.heap[t].Thread? && OpenListOk(s.heap, t) && s.color.Keys == s.heap.Keys && Live(s)
    ensures Live(SweepOpen(s, t))
  {
    var s2 := SweepOpen(s, t);
    assert forall u :: u in DeadIn(s, s.heap[t].open) ==> OpenEntry(s.heap, t, u);
    forall a, b | a in s2.heap && !Dead(s2, a) && Gc(b) in Succs(s2.heap, a) ensures Edge(s.heap, a, b) {}
    LiveKept(s, s2);
  }

  lemma SweepOpenPhase(s: State, t: Ref)
    requires t in s.heap && s.heap[t].Thread? && OpenListOk(s.heap, t) && s.color.Keys == s.heap.Keys
    requires NeverBlack(s) && PhaseOk(s) && s.phase == Sweep
    ensures NeverBlack(SweepOpen(s, t)) && PhaseOk(SweepOpen(s, t))
    ensures forall u :: u in SweepOpen(s, t).heap[t].open ==> CurrentWhite(SweepOpen(s, t), u)
  {
    var s2 := SweepOpen(s, t);
    assert forall u :: u in DeadIn(s, s.heap[t].open) ==> OpenEntry(s.heap, t, u);
    assert forall r :: CurrentWhite(s, r) ==> CurrentWhite(s2, r);
    forall i | 0 <= i < |s2.grayagain| ensures Resting(s2, s2.grayagain[i]) {
      assert Resting(s, s.grayagain[i]);
    }
    forall i | 0 <= i < s2.sweeppos ensures Swept(s2, s2.rootgc[i]) {
      assert Swept(s, s.rootgc[i]);
    }
  }

  // ------------------------------------------------------- the root list

  /** `freeobj` on an object already unlinked from the root list; a thread first closes all its upvalues. */
  ghost function FreeObj(s: State, c: Ref): State
    requires Inv(s, {c}) && c in s.heap
  {
    InvMarking(s, {c});
    var s1 := if s.heap[c].Thread? then CloseAll(s, c, 0) else s;
    s1.(heap := s1.heap - {c}, color := s1.color - {c})
  }

  function Unlink(s: State): State
    requires s.sweeppos < |s.rootgc|
  {
    s.(rootgc := s.rootgc[..s.sweeppos] + s.rootgc[s.sweeppos + 1..])
  }

  function Pass(s: State, c: Ref): State {
    s.(color := s.color[c := White(s.currentwhite)], sweeppos := s.sweeppos + 1)
  }

  ghost predicate InSweep(s: State) {
    Inv(s) && s.phase == Sweep && s.sweeppos < |s.rootgc|
  }

  /** One round of `sweeplist` on the root list. */
  ghost function SweepOne(s: State): State
    requires InSweep(s)
  {
    var c := s.rootgc[s.sweeppos];
    AtSweep(s);
    var s1 := if s.heap[c].Thread? then SweepOpen(s, c) else s;
    SweepOneOpen(s);
    if Dead(s1, c) then
      UnlinkInv(s1);
      FreeObj(Unlink(s1), c)
    else Pass(s1, c)
  }

  lemma AtSweep(s: State)
    requires InSweep(s)
    ensures var c := s.rootgc[s.sweeppos]; c in s.heap && InRootList(s.heap[c]) && c in s.color
  {
    assert s.rootgc[s.sweeppos] in s.rootgc;
  }

  lemma SweepOneOpen(s: State)
    requires InSweep(s)
    ensures var c := s.rootgc[s.sweeppos];
            && c in s.heap
            && var s1 := if s.heap[c].Thread? then SweepOpen(s, c) else s;
            && InSweep(s1) && c in s1.heap && s1.rootgc == s.rootgc && s1.sweeppos == s.sweeppos
            && (s1.heap[c].Thread? ==> forall u :: u in s1.heap[c].open ==> CurrentWhite(s1, u))
  {
    AtSweep(s);
    var c := s.rootgc[s.sweeppos];
    if s.heap[c].Thread? {
      SweepOpenInv(s, c);
      assert OpenListOk(s.heap, c);
      assert forall u :: u in DeadIn(s, s.heap[c].open) ==> OpenEntry(s.heap, c, u);
    }
  }

  lemma UnlinkInv(s: State)
    requires InSweep(s)
    ensures var c := s.rootgc[s.sweeppos]; Inv(Unlink(s), {c}) && c in s.heap
  {
    hide StringsOk, RootListOk, UpvalsOk, PhaseOk;
    AtSweep(s);
    UnlinkRoots(s);
    StringsSame(s, Unlink(s));
    UnlinkPhase(s);
  }

  lemma UnlinkPhase(s: State)
    requires PhaseOk(s) && s.phase == Sweep && s.sweeppos < |s.rootgc|
    ensures PhaseOk(Unlink(s))
  {
    var t := Unlink(s);
    forall i | 0 <= i < |t.grayagain| ensures Resting(t, t.grayagain[i]) {
      assert Resting(s, s.grayagain[i]);
    }
    forall i | 0 <= i < t.sweeppos ensures Swept(t, t.rootgc[i]) {
      assert Swept(s, s.rootgc[i]);
    }
  }

  lemma UnlinkRoots(s: State)
    requires RootListOk(s, {}) && s.sweeppos < |s.rootgc|
    ensures RootListOk(Unlink(s), {s.rootgc[s.sweeppos]})
  {
    var k, q := s.sweeppos, Unlink(s).rootgc;
    assert forall i :: 0 <= i < |q| ==> q[i] == if i < k then s.rootgc[i] else s.rootgc[i + 1];
    forall r | r in s.rootgc && r != s.rootgc[k] ensures r in q {
      var i :| 0 <= i < |s.rootgc| && s.rootgc[i] == r;
      assert q[if i < k then i else i - 1] == r;
    }
  }

  /** The sweep stands at `c`, which is live, and the open upvalues of `c` have been swept. */
  ghost predicate CanPass(s: State, c: Ref) {
    && s.phase == Sweep && s.sweeppos < |s.rootgc| && c == s.rootgc[s.sweeppos]
    && c in s.heap && InRootList(s.heap[c]) && !Dead(s, c)
    && (s.heap[c].Thread? ==> forall u :: u in s.heap[c].open ==> CurrentWhite(s, u))
  }

  lemma PassInv(s: State, c: Ref)
    requires Inv(s) && CanPass(s, c)
    ensures Inv(Pass(s, c)) && SweepStep(s, Pass(s, c))
  {
    hide StringsOk, RootListOk, UpvalsOk, Live, NeverBlack, PhaseOk, SweepStep;
    StringsSame(s, Pass(s, c));
    RootListSame(s, Pass(s, c), {});
    PassLive(s, c);
    PassPhase(s, c);
  }

  lemma PassLive(s: State, c: Ref)
    requires s.color.Keys == s.heap.Keys && Live(s) && CanPass(s, c)
    ensures Live(Pass(s, c)) && SweepStep(s, Pass(s, c))
  {
    var t := Pass(s, c);
    assert forall r :: Dead(t, r) <==> Dead(s, r);
    LiveKept(s, t);
  }

  lemma PassPhase(s: State, c: Ref)
    requires s.color.Keys == s.heap.Keys && NeverBlack(s) && PhaseOk(s) && CanPass(s, c)
    ensures NeverBlack(Pass(s, c)) && PhaseOk(Pass(s, c))
  {
    var t := Pass(s, c);
    assert forall r :: CurrentWhite(s, r) ==> CurrentWhite(t, r);
    forall i | 0 <= i < |t.grayagain| ensures Resting(t, t.grayagain[i]) {
      assert Resting(s, s.grayagain[i]);
    }
    forall i | 0 <= i < t.sweeppos ensures Swept(t, t.rootgc[i]) {
      if i < s.sweeppos {
        assert Swept(s, s.rootgc[i]);
      }
    }
  }

  /** During a sweep, closing keeps the colour of the thread and is a sweep step. */
  lemma {:induction false} CloseAllStep(s: State, t: Ref, level: nat, x: set<Ref>)
    requires Inv(s, x) && x <= {t} && t in s.heap && s.heap[t].Thread? && s.phase != Propagate
    ensures OpenListOk(s.heap, t) && SolidMarking(s)
    ensures var s1 := CloseAll(s, t, level);
            SweepStep(s, s1) && s1.phase == s.phase && t in s1.color && s1.color[t] == s.color[t]
    decreases |s.heap[t].open|
  {
    hide StringsOk, RootListOk, UpvalsOk, Live, NeverBlack, PhaseOk, SweepStep;
    InvMarking(s, x);
    ThreadOk(s, t, x);
    SweepStepSame(s);
    if s.heap[t].open != [] {
      var u := s.heap[t].open[0];
      assert u in s.heap[t].open && OpenEntry(s.heap, t, u);
      if Level(s.heap, u) >= level {
        var v := s.heap[t].stack[Level(s.heap, u)];
        var s1 := CloseOne(s, t, u, v);
        CloseOneInv(s, t, u, v, x);
        CloseOneOpen(s, t, u, v);
        CloseOneStep(s, t, u, v);
        CloseAllStep(s1, t, level, x);
        SweepStepCompose(s, s1, CloseAll(s1, t, level));
      }
    }
  }

  lemma FreeObjInv(s: State, c: Ref)
    requires Inv(s, {c}) && c in s.heap && InRootList(s.heap[c]) && Dead(s, c) && s.phase == Sweep
    ensures Inv(FreeObj(s, c)) && SweepStep(s, FreeObj(s, c)) && FreeObj(s, c).phase == Sweep
    ensures c !in FreeObj(s, c).heap
  {
    hide Shape, Live, NeverBlack, PhaseOk, SweepStep;
    InvMarking(s, {c});
    if s.heap[c].Thread? {
      ClosedThread(s, c);
      var s1 := CloseAll(s, c, 0);
      DropInv(s1, c);
      SweepStepCompose(s, s1, FreeObj(s, c));
    } else {
      DropInv(s, c);
    }
  }

  /** Closing every upvalue of a dead thread leaves a dead thread with none open. */
  lemma ClosedThread(s: State, c: Ref)
    requires Inv(s, {c}) && c in s.heap && s.heap[c].Thread? && Dead(s, c) && s.phase == Sweep
    ensures OpenListOk(s.heap, c) && SolidMarking(s)
    ensures var s1 := CloseAll(s, c, 0);
            Inv(s1, {c}) && CanDrop(s1, c) && SweepStep(s, s1) && s1.phase == Sweep
  {
    hide Shape, Live, NeverBlack, PhaseOk;
    CloseAllInv(s, c, 0, {c});
    CloseAllStep(s, c, 0, {c});
    var s1 := CloseAll(s, c, 0);
  }

  function Drop(s: State, c: Ref): State {
    s.(heap := s.heap - {c}, color := s.color - {c})
  }

  ghost predicate CanDrop(s: State, c: Ref) {
    && c in s.heap && InRootList(s.heap[c]) && Dead(s, c)
    && (s.heap[c].Thread? ==> s.heap[c].open == [])
  }

  lemma DropInv(s: State, c: Ref)
    requires Inv(s, {c}) && CanDrop(s, c) && s.phase == Sweep
    ensures Inv(Drop(s, c)) && SweepStep(s, Drop(s, c))
  {
    hide StringsOk, RootListOk, UpvalsOk;
    DropStrings(s, c);
    DropRoots(s, c);
    DropUpvals(s.heap, s.uvhead, c);
    DropLive(s, c);
    DropPhase(s, c);
    DropStep(s, c);
  }

  lemma DropStrings(s: State, c: Ref)
    requires StringsOk(s) && c in s.heap && !s.heap[c].Str?
    ensures StringsOk(Drop(s, c))
  {
    SameStrings(s, Drop(s, c));
  }

  lemma DropRoots(s: State, c: Ref)
    requires RootListOk(s, {c}) && c in s.heap
    ensures RootListOk(Drop(s, c), {})
  {
  }

  lemma DropUpvals(h: Heap, uvhead: seq<Ref>, c: Ref)
    requires UpvalsOk(h, uvhead) && c in h && InRootList(h[c]) && (h[c].Thread? ==> h[c].open == [])
    ensures UpvalsOk(h - {c}, uvhead)
  {
    var h2 := h - {c};
    forall w | w in h2 && h2[w].Thread? ensures OpenListOk(h2, w) {
      assert OpenListOk(h, w);
      assert forall y :: y in h[w].open ==> OpenEntry(h, w, y);
      assert h[w].open[0..] == h[w].open;
      LevelsFallKept(h, h2, h[w].open, 0);
    }
    forall y | y in h2 && OpenUpval(h2[y]) ensures Owned(h2, y) {
      assert Owned(h, y);
    }
  }

  lemma DropSuccs(s: State, c: Ref, a: Ref)
    requires UpvalsOk(s.heap, s.uvhead) && CanDrop(s, c) && a in s.heap && a != c
    ensures Succs(Drop(s, c).heap, a) == Succs(s.heap, a)
  {
    if OpenUpval(s.heap[a]) {
      assert Owned(s.heap, a);
    }
  }

  lemma DropLive(s: State, c: Ref)
    requires UpvalsOk(s.heap, s.uvhead) && s.color.Keys == s.heap.Keys && Live(s) && CanDrop(s, c)
    ensures Live(Drop(s, c))
  {
    var t := Drop(s, c);
    forall a, b | a in t.heap && !Dead(t, a) && Gc(b) in Succs(t.heap, a) ensures Edge(s.heap, a, b) {
      DropSuccs(s, c, a);
    }
    LiveKept(s, t);
  }

  lemma DropPhase(s: State, c: Ref)
    requires RootListOk(s, {c}) && CanDrop(s, c) && NeverBlack(s) && PhaseOk(s) && s.phase == Sweep
    ensures NeverBlack(Drop(s, c)) && PhaseOk(Drop(s, c))
  {
    var t := Drop(s, c);
    assert forall r :: CurrentWhite(s, r) ==> CurrentWhite(t, r);
    forall i | 0 <= i < |t.grayagain| ensures Resting(t, t.grayagain[i]) {
      assert Resting(s, s.grayagain[i]);
    }
    forall i | 0 <= i < t.sweeppos ensures Swept(t, t.rootgc[i]) {
      assert Swept(s, s.rootgc[i]);
    }
  }

  lemma DropStep(s: State, c: Ref)
    requires UpvalsOk(s.heap, s.uvhead) && s.color.Keys == s.heap.Keys && CanDrop(s, c)
    ensures SweepStep(s, Drop(s, c))
  {
    var t := Drop(s, c);
    forall r | r in s.heap && !Dead(s, r) ensures r in t.heap && SameContent(s.heap, t.heap, r) {
      DropSuccs(s, c, r);
    }
  }

  lemma SweepOneInv(s: State)
    requires InSweep(s)
    ensures Inv(SweepOne(s)) && SweepStep(s, SweepOne(s)) && SweepOne(s).phase == Sweep
    ensures var t := SweepOne(s);
            || t.heap.Keys < s.heap.Keys
            || (t.heap.Keys == s.heap.Keys && |t.rootgc| - t.sweeppos < |s.rootgc| - s.sweeppos)
  {
    hide Shape, Live, NeverBlack, PhaseOk, SweepStep;
    AtSweep(s);
    SweepOneOpen(s);
    SweepOneOpenStep(s);
    var c := s.rootgc[s.sweeppos];
    var s1 := if s.heap[c].Thread? then SweepOpen(s, c) else s;
    assert InRootList(s1.heap[c]);
    if Dead(s1, c) {
      UnlinkInv(s1);
      var s2 := Unlink(s1);
      UnlinkStep(s1);
      FreeObjInv(s2, c);
      SweepStepCompose(s, s1, s2);
      SweepStepCompose(s, s2, SweepOne(s));
      KeysDrop(s, SweepOne(s), c);
    } else {
      PassInv(s1, c);
      SweepStepCompose(s, s1, SweepOne(s));
      KeysShrink(s, SweepOne(s));
    }
  }

  lemma KeysShrink(s: State, t: State)
    requires SweepStep(s, t)
    ensures t.heap.Keys < s.heap.Keys || t.heap.Keys == s.heap.Keys
  {
    assert t.heap.Keys <= s.heap.Keys;
  }

  lemma KeysDrop(s: State, t: State, c: Ref)
    requires SweepStep(s, t) && c in s.heap && c !in t.heap
    ensures t.heap.Keys < s.heap.Keys
  {
    assert t.heap.Keys <= s.heap.Keys;
    assert c in s.heap.Keys && c !in t.heap.Keys;
  }

  lemma UnlinkStep(s: State)
    requires s.sweeppos < |s.rootgc|
    ensures SweepStep(s, Unlink(s))
  {
    SweepStepSame(s);
  }

  lemma SweepOneOpenStep(s: State)
    requires InSweep(s)
    ensures var c := s.rootgc[s.sweeppos];
            && c in s.heap
            && var s1 := if s.heap[c].Thread? then SweepOpen(s, c) else s;
            SweepStep(s, s1)
  {
    hide StringsOk, RootListOk, Live, NeverBlack, PhaseOk;
    AtSweep(s);
    var c := s.rootgc[s.sweeppos];
    if s.heap[c].Thread? {
      ThreadOk(s, c, {});
      SweepOpenStep(s, c);
    } else {
      SweepStepSame(s);
    }
  }

  lemma SweepOpenStep(s: State, t: Ref)
    requires t in s.heap && s.heap[t].Thread? && OpenListOk(s.heap, t) && s.color.Keys == s.heap.Keys
    ensures SweepStep(s, SweepOpen(s, t))
  {
    var s2 := SweepOpen(s, t);
    assert forall u :: u in DeadIn(s, s.heap[t].open) ==> OpenEntry(s.heap, t, u);
    forall r | r in s.heap && !Dead(s, r) ensures r in s2.heap && SameContent(s.heap, s2.heap, r) {}
  }

  /** How much of the root list is still to be swept. */
  function Left(s: State): int {
    |s.rootgc| - s.sweeppos
  }

  /** `sweeplist` on the root list, at most `n` rounds. */
  ghost function SweepRoots(s: State, n: nat): State
    requires Inv(s) && s.phase == Sweep
    decreases n
  {
    hide Shape, Live, NeverBlack, PhaseOk, SweepStep;
    if n == 0 || s.sweeppos >= |s.rootgc| then s
    else
      SweepOneInv(s);
      SweepRoots(SweepOne(s), n - 1)
  }

  lemma {:induction false} SweepRootsInv(s: State, n: nat)
    requires Inv(s) && s.phase == Sweep
    ensures Inv(SweepRoots(s, n)) && SweepStep(s, SweepRoots(s, n)) && SweepRoots(s, n).phase == Sweep
    ensures var t := SweepRoots(s, n);
            || t.heap.Keys < s.heap.Keys
            || (t.heap.Keys == s.heap.Keys && Left(t) <= Left(s) - (if n > 0 && Left(s) > 0 then 1 else 0))
    decreases n
  {
    hide Shape, Live, NeverBlack, PhaseOk, SweepStep;
    SweepStepSame(s);
    if n > 0 && s.sweeppos < |s.rootgc| {
      SweepOneInv(s);
      SweepRootsInv(SweepOne(s), n - 1);
      SweepStepCompose(s, SweepOne(s), SweepRoots(s, n));
    }
  }

  // --------------------------------------------------------------- marking

  lemma MarkRootInv(s: State)
    requires Inv(s) && AllCurrent(s)
    ensures Solid(s) && ValuesIn(s, Roots(s))
    ensures Inv(MarkRoot(s))
  {
    hide StringsOk, RootListOk, UpvalsOk;
    NoDangling(s);
    MarkRootTri(s);
    ShapeColour(s, MarkRoot(s).(phase := s.phase), {});
    ShapePhase(MarkRoot(s).(phase := s.phase), MarkRoot(s));
    NoneDead(s, MarkRoot(s));
  }

  lemma NoneDead(s: State, t: State)
    requires Live(s) && t.heap == s.heap && Roots(t) == Roots(s) && NoOtherWhite(s) && NoOtherWhite(t)
    ensures Live(t)
  {
    assert forall r :: !Dead(s, r) && !Dead(t, r);
  }

  lemma MarkRootTri(s: State)
    requires Solid(s) && ValuesIn(s, Roots(s)) && s.main in s.heap && s.heap[s.main].Thread? && AllCurrent(s)
    ensures NeverBlack(MarkRoot(s)) && TriColour(MarkRoot(s))
  {
    var s0 := s.(gray := [], grayagain := []);
    EarlyRootsIn(s);
    var t := MarkAll(s0, EarlyRoots(s));
    MarkAllStep(s0, EarlyRoots(s));
    AllWhiteTri(s, s0);
    TriCoreRestored(s0, t, {});
    MarkNeverBlack(s0, t);
    assert Gc(s.main) in EarlyRoots(s) && s.registry in EarlyRoots(s);
    hide TriCore, NeverBlack;
    TriPhase(t, MarkRoot(s));
  }

  lemma AllWhiteTri(s: State, s0: State)
    requires AllCurrent(s) && s.color.Keys == s.heap.Keys && s0 == s.(gray := [], grayagain := [])
    ensures TriCore(s0) && NeverBlack(s0)
  {
    assert forall r :: r in s0.color ==> s0.color[r] == White(s0.currentwhite);
  }

  lemma TriPhase(s: State, t: State)
    requires NeverBlack(s) && TriCore(s) && t == s.(phase := t.phase)
    ensures NeverBlack(t) && TriCore(t)
  {
    forall x ensures Waiting(s, x) ==> Waiting(t, x) {}
    forall x ensures Settled(s, x) ==> Settled(t, x) {}
  }

  lemma PropagateMarkInv(s: State)
    requires Inv(s) && s.phase == Propagate && s.gray != []
    ensures Solid(s) && GrayReady(s)
    ensures Inv(PropagateMark(s)) && PropagateMark(s).phase == Propagate
  {
    hide StringsOk, RootListOk, UpvalsOk;
    NoDangling(s);
    PropagateMarkTri(s);
    PropagateMarkShape(s);
    ShapeColour(s, PropagateMark(s), {});
    NoneDead(s, PropagateMark(s));
  }

  lemma PropagateMarkTri(s: State)
    requires Solid(s) && NeverBlack(s) && TriColour(s) && s.gray != []
    ensures NeverBlack(PropagateMark(s)) && TriColour(PropagateMark(s))
  {
    PropagateMarkStep(s);
    TakeGrayTri(s);
    TriColourRestored(TakeGray(s), PropagateMark(s), {s.gray[0]});
    MarkNeverBlack(TakeGray(s), PropagateMark(s));
  }

  lemma TakeGrayTri(s: State)
    requires Solid(s) && NeverBlack(s) && TriColour(s) && s.gray != []
    ensures Solid(TakeGray(s)) && NeverBlack(TakeGray(s)) && TriColour(TakeGray(s), {s.gray[0]})
  {
    var o, t := s.gray[0], TakeGray(s);
    TakeGrayWhites(s);
    assert Waiting(s, o);
    forall r | r in t.color && t.color[r] == Black && r != o ensures Settled(t, r) {
      assert Settled(s, r);
    }
    assert forall x :: x in s.gray ==> x == o || x in s.gray[1..];
  }
}
