/**
The sweep phases: string buckets, the open upvalues of a thread, the root list,
and the closing of upvalues that freeing a thread entails.
*/
module GcSweep {
  import opened GcState
  import opened GcMark
  import opened GcInvariant

  /** The sequence `q` without the members of `dead`, in order. */
  function Keep(q: seq<Ref>, dead: set<Ref>): (p: seq<Ref>)
    ensures forall x :: x in p <==> x in q && x !in dead
    ensures NoDup(q) ==> NoDup(p)
    ensures |p| <= |q|
  {
    if q == [] then []
    else
      assert NoDup(q) ==> forall x :: x in q[1..] ==> x != q[0];
      assert forall x :: x in q <==> x == q[0] || x in q[1..];
      if q[0] in dead then Keep(q[1..], dead)
      else [q[0]] + Keep(q[1..], dead)
  }

  /** Recolour the members of `q` current white and drop the members of `dead`. */
  function Whiten(s: State, q: seq<Ref>, dead: set<Ref>): (c: map<Ref, Color>)
    ensures c.Keys == s.color.Keys - dead
  {
    map r | r in s.color && r !in dead :: if r in q then White(s.currentwhite) else s.color[r]
  }

  function DeadIn(s: State, q: seq<Ref>): set<Ref> {
    set r | r in q && Dead(s, r)
  }

  /** `sweepwholelist` on bucket `i` of the string table. */
  function SweepBucket(s: State, i: nat): State
    requires i < |s.strt|
  {
    var dead := DeadIn(s, s.strt[i]);
    s.(heap := s.heap - dead,
       color := Whiten(s, s.strt[i], dead),
       strt := s.strt[i := Keep(s.strt[i], dead)])
  }

  /** `sweepwholelist` on the open upvalues of thread `t`; a freed one also leaves `uvhead`. */
  function SweepOpen(s: State, t: Ref): State
    requires t in s.heap && s.heap[t].Thread?
  {
    var q := s.heap[t].open;
    var dead := DeadIn(s, q);
    s.(heap := s.heap[t := s.heap[t].(open := Keep(q, dead))] - dead,
       color := Whiten(s, q, dead),
       uvhead := Keep(s.uvhead, dead))
  }

  // ---------------------------------------------------------- luaF_close

  /** `luaC_link` on the list alone: `r` goes first, and the sweep position keeps its place. */
  function LinkRoot(s: State, r: Ref): State {
    s.(rootgc := [r] + s.rootgc, sweeppos := if s.sweeppos > 0 then s.sweeppos + 1 else 0)
  }

  /** `luaF_freeupval` on an open upvalue: it leaves `uvhead` and the heap. */
  function FreeUpval(s: State, u: Ref): State {
    s.(heap := s.heap - {u}, color := s.color - {u}, uvhead := Keep(s.uvhead, {u}))
  }

  /** The colour part of `luaC_linkupval`: during marking a closed upvalue turns black behind a barrier. */
  ghost function ColourClosed(s: State, u: Ref, v: Value): (t: State)
    requires u in s.color && (s.phase == Propagate ==> Solid(s) && ValuesIn(s, [v]))
    ensures SameButMarks(s, t)
  {
    if s.color[u] != Gray then s
    else if s.phase == Propagate then MarkAll(s.(color := s.color[u := Black]), [v])
    else s.(color := s.color[u := White(s.currentwhite)])
  }

  /** Thread `t` without its first open upvalue. */
  function PopOpen(s: State, t: Ref): State
    requires t in s.heap && s.heap[t].Thread? && s.heap[t].open != []
  {
    s.(heap := s.heap[t := s.heap[t].(open := s.heap[t].open[1..])])
  }

  /** The open upvalue `u` holds `v` itself from now on, and moves from `uvhead` to `rootgc`. */
  function CloseCell(s: State, u: Ref, v: Value): State {
    LinkRoot(s.(heap := s.heap[u := Upval(Closed(v))], uvhead := Keep(s.uvhead, {u})), u)
  }

  /** `u` is the first open upvalue of thread `t`, and `v` the value it refers to. */
  ghost predicate FirstOpen(s: State, t: Ref, u: Ref, v: Value) {
    && t in s.heap && s.heap[t].Thread? && s.heap[t].open != []
    && u == s.heap[t].open[0]
    && OpenEntry(s.heap, t, u)
    && v == s.heap[t].stack[Level(s.heap, u)]
  }

  /** What closing relies on while marking is under way. */
  ghost predicate SolidMarking(s: State) {
    && s.color.Keys == s.heap.Keys
    && (s.phase == Propagate ==> Solid(s) && NoOtherWhite(s))
  }

  lemma CloseCellSuccs(s: State, t: Ref, u: Ref, v: Value)
    requires FirstOpen(s, t, u, v) && OpenListOk(s.heap, t)
    ensures var s2 := CloseCell(PopOpen(s, t), u, v);
            forall a :: a in s.heap ==> a in s2.heap && Succs(s2.heap, a) == Succs(s.heap, a)
  {
  }

  lemma CloseCellSolid(s: State, t: Ref, u: Ref, v: Value)
    requires FirstOpen(s, t, u, v) && OpenListOk(s.heap, t) && SolidMarking(s)
    ensures SolidMarking(CloseCell(PopOpen(s, t), u, v))
    ensures s.phase == Propagate ==> ValuesIn(s, [v])
  {
    if s.phase == Propagate {
      CloseCellSuccs(s, t, u, v);
      SolidKept(s, CloseCell(PopOpen(s, t), u, v));
      assert v.Gc? ==> Edge(s.heap, u, v.ref);
    }
  }

  lemma SolidKept(s: State, s2: State)
    requires Solid(s) && s2.color.Keys == s2.heap.Keys == s.heap.Keys
    requires forall a :: a in s.heap ==> a in s2.heap && Succs(s2.heap, a) == Succs(s.heap, a)
    ensures Solid(s2)
  {
    forall a, b | Edge(s2.heap, a, b) ensures b in s2.heap {
      assert Edge(s.heap, a, b);
    }
  }

  /** One round of the loop in `luaF_close`: the first open upvalue of `t` is freed or closed. */
  ghost function CloseOne(s: State, t: Ref, u: Ref, v: Value): State
    requires FirstOpen(s, t, u, v) && OpenListOk(s.heap, t) && SolidMarking(s)
  {
    CloseCellSolid(s, t, u, v);
    if Dead(s, u) then FreeUpval(PopOpen(s, t), u)
    else ColourClosed(CloseCell(PopOpen(s, t), u, v), u, v)
  }

  lemma CloseOneOpen(s: State, t: Ref, u: Ref, v: Value)
    requires FirstOpen(s, t, u, v) && OpenListOk(s.heap, t) && SolidMarking(s)
    ensures var s1 := CloseOne(s, t, u, v);
            && t in s1.heap && s1.heap[t].Thread? && OpenListOk(s1.heap, t) && SolidMarking(s1)
            && s1.heap[t] == s.heap[t].(open := s.heap[t].open[1..])
  {
    CloseCellOpen(s.heap, t, u, v, t);
    if Dead(s, u) {
      FreeUpvalOpen(s.heap, t, u, t);
    } else {
      CloseCellSolid(s, t, u, v);
      var s2 := CloseCell(PopOpen(s, t), u, v);
      ColourClosedStep(s2, u, v);
    }
  }

  lemma ColourClosedStep(s: State, u: Ref, v: Value)
    requires u in s.color && SolidMarking(s) && (s.phase == Propagate ==> ValuesIn(s, [v]))
    ensures SolidMarking(ColourClosed(s, u, v))
  {
    if s.phase == Propagate && s.color[u] == Gray {
      var s1 := s.(color := s.color[u := Black]);
      assert Solid(s1) && NoOtherWhite(s1);
      MarkAllStep(s1, [v]);
      MarkNoOther(s1, ColourClosed(s, u, v));
    }
  }

  /** `luaF_close(t, level)`. */
  ghost function CloseAll(s: State, t: Ref, level: nat): State
    requires t in s.heap && s.heap[t].Thread? && OpenListOk(s.heap, t) && SolidMarking(s)
    decreases |s.heap[t].open|
  {
    if s.heap[t].open == [] then s
    else
      var u := s.heap[t].open[0];
      assert u in s.heap[t].open && OpenEntry(s.heap, t, u);
      if Level(s.heap, u) < level then s
      else
        var v := s.heap[t].stack[Level(s.heap, u)];
        CloseOneOpen(s, t, u, v);
        CloseAll(CloseOne(s, t, u, v), t, level)
  }

  // ------------------------------------------- closing keeps the structure

  lemma CloseCellShape(s: State, t: Ref, u: Ref, v: Value, x: set<Ref>)
    requires FirstOpen(s, t, u, v) && Shape(s, x) && x <= {t}
    ensures Shape(CloseCell(PopOpen(s, t), u, v), x)
  {
    hide StringsOk, UpvalsOk, RootListOk;
    CloseCellUpvals(s.heap, s.uvhead, t, u, v);
    CloseCellRoot(s, t, u, v, x);
    CloseCellStrings(s, t, u, v);
  }

  lemma CloseCellStrings(s: State, t: Ref, u: Ref, v: Value)
    requires t in s.heap && s.heap[t].Thread? && s.heap[t].open != [] && u in s.heap && s.heap[u].Upval?
    requires StringsOk(s)
    ensures StringsOk(CloseCell(PopOpen(s, t), u, v))
  {
    SameStrings(s, CloseCell(PopOpen(s, t), u, v));
  }

  lemma CloseCellRoot(s: State, t: Ref, u: Ref, v: Value, x: set<Ref>)
    requires t in s.heap && s.heap[t].Thread? && s.heap[t].open != [] && u in s.heap && OpenUpval(s.heap[u])
    requires RootListOk(s, x) && u !in x
    ensures RootListOk(CloseCell(PopOpen(s, t), u, v), x)
  {
    assert u !in s.rootgc;
  }

  /** The heap after the first open upvalue `u` of thread `t` has been closed over `v`. */
  function CloseHeap(h: Heap, t: Ref, u: Ref, v: Value): Heap
    requires t in h && h[t].Thread? && h[t].open != []
  {
    h[t := h[t].(open := h[t].open[1..])][u := Upval(Closed(v))]
  }

  lemma CloseCellUpvals(h: Heap, uvhead: seq<Ref>, t: Ref, u: Ref, v: Value)
    requires UpvalsOk(h, uvhead)
    requires t in h && h[t].Thread? && h[t].open != [] && u == h[t].open[0]
    ensures UpvalsOk(CloseHeap(h, t, u, v), Keep(uvhead, {u}))
  {
    var q, h2 := h[t].open, CloseHeap(h, t, u, v);
    assert u in q;
    assert forall y :: y in q ==> y == u || y in q[1..];
    forall w | w in h2 && h2[w].Thread? ensures OpenListOk(h2, w) {
      CloseCellOpen(h, t, u, v, w);
    }
    forall y | y in h2 && OpenUpval(h2[y]) ensures Owned(h2, y) {
      assert Owned(h, y);
    }
  }

  lemma FreeUpvalOpen(h: Heap, t: Ref, u: Ref, w: Ref)
    requires t in h && h[t].Thread? && h[t].open != [] && u == h[t].open[0]
    requires w in h && h[w].Thread? && w != u && OpenListOk(h, w) && OpenListOk(h, t)
    ensures OpenListOk(FreeHeap(h, t, u), w)
  {
    var q, h2 := h[t].open, FreeHeap(h, t, u);
    CloseCellOpen(h, t, u, Prim(0), w);
    var h3 := CloseHeap(h, t, u, Prim(0));
    assert forall y :: y in h3 && y != u ==> y in h2 && h2[y] == h3[y];
    forall y | y in h2[w].open ensures OpenEntry(h2, w, y) {
      assert OpenEntry(h3, w, y);
    }
    assert h3[w].open[0..] == h3[w].open;
    LevelsFallKept(h3, h2, h3[w].open, 0);
  }

  /** The heap after the first open upvalue `u` of thread `t` has been freed. */
  function FreeHeap(h: Heap, t: Ref, u: Ref): Heap
    requires t in h && h[t].Thread? && h[t].open != []
  {
    h[t := h[t].(open := h[t].open[1..])] - {u}
  }

  lemma CloseCellOpen(h: Heap, t: Ref, u: Ref, v: Value, w: Ref)
    requires t in h && h[t].Thread? && h[t].open != [] && u == h[t].open[0]
    requires w in h && h[w].Thread? && w != u && OpenListOk(h, w) && OpenListOk(h, t)
    ensures OpenListOk(CloseHeap(h, t, u, v), w)
  {
    var q, h2 := h[t].open, CloseHeap(h, t, u, v);
    assert u in q && OpenEntry(h, t, u);
    forall y | y in h2[w].open ensures y in h[w].open && y != u {
      if w == t && y in q[1..] {
        var j :| 0 < j < |q| && q[j] == y;
        assert q[j] in q && Level(h, q[0]) > Level(h, q[j]);
      } else {
        assert OpenEntry(h, w, y);
      }
    }
    LevelsFallKept(h, h2, h[w].open, if w == t then 1 else 0);
  }

  lemma LevelsFallKept(h: Heap, h2: Heap, q: seq<Ref>, k: nat)
    requires forall y :: y in q ==> y in h && OpenUpval(h[y])
    requires LevelsFall(h, q) && k <= |q|
    requires forall y :: y in q[k..] ==> y in h2 && h2[y] == h[y]
    ensures LevelsFall(h2, q[k..])
  {
    forall i, j | 0 <= i < j < |q| - k ensures Level(h2, q[k..][i]) > Level(h2, q[k..][j]) {
      assert q[k..][i] == q[i + k] && q[k..][j] == q[j + k];
      assert Level(h, q[i + k]) > Level(h, q[j + k]);
    }
  }

  lemma FreeUpvalShape(s: State, t: Ref, u: Ref, v: Value, x: set<Ref>)
    requires FirstOpen(s, t, u, v) && Shape(s, x) && x <= {t}
    ensures Shape(FreeUpval(PopOpen(s, t), u), x)
  {
    hide StringsOk, UpvalsOk, RootListOk;
    FreeUpvalUpvals(s.heap, s.uvhead, t, u);
    FreeUpvalStrings(s, t, u);
    FreeUpvalRoot(s, t, u, x);
  }

  lemma FreeUpvalRoot(s: State, t: Ref, u: Ref, x: set<Ref>)
    requires t in s.heap && s.heap[t].Thread? && s.heap[t].open != [] && u in s.heap && OpenUpval(s.heap[u])
    requires RootListOk(s, x)
    ensures RootListOk(FreeUpval(PopOpen(s, t), u), x)
  {
    assert u !in s.rootgc;
  }

  lemma FreeUpvalStrings(s: State, t: Ref, u: Ref)
    requires t in s.heap && s.heap[t].Thread? && s.heap[t].open != [] && u in s.heap && s.heap[u].Upval?
    requires StringsOk(s)
    ensures StringsOk(FreeUpval(PopOpen(s, t), u))
  {
    SameStrings(s, FreeUpval(PopOpen(s, t), u));
  }

  lemma FreeUpvalUpvals(h: Heap, uvhead: seq<Ref>, t: Ref, u: Ref)
    requires UpvalsOk(h, uvhead)
    requires t in h && h[t].Thread? && h[t].open != [] && u == h[t].open[0]
    ensures UpvalsOk(FreeHeap(h, t, u), Keep(uvhead, {u}))
  {
    var h2 := FreeHeap(h, t, u);
    assert u in h[t].open && OpenEntry(h, t, u);
    assert forall y :: y in h[t].open ==> y == u || y in h[t].open[1..];
    forall w | w in h2 && h2[w].Thread? ensures OpenListOk(h2, w) {
      FreeUpvalOpen(h, t, u, w);
    }
    forall y | y in h2 && OpenUpval(h2[y]) ensures Owned(h2, y) {
      assert Owned(h, y);
    }
  }

  lemma FreeUpvalLive(s: State, t: Ref, u: Ref, v: Value)
    requires FirstOpen(s, t, u, v) && OpenListOk(s.heap, t) && s.color.Keys == s.heap.Keys
    requires Live(s) && Dead(s, u)
    ensures Live(FreeUpval(PopOpen(s, t), u))
  {
    var s2 := FreeUpval(PopOpen(s, t), u);
    forall a, b | a in s2.heap && !Dead(s2, a) && Gc(b) in Succs(s2.heap, a) ensures Edge(s.heap, a, b) {}
    LiveKept(s, s2);
  }

  lemma CloseCellLive(s: State, t: Ref, u: Ref, v: Value)
    requires FirstOpen(s, t, u, v) && OpenListOk(s.heap, t) && s.color.Keys == s.heap.Keys
    requires Live(s)
    ensures Live(CloseCell(PopOpen(s, t), u, v))
  {
    var s2 := CloseCell(PopOpen(s, t), u, v);
    CloseCellSuccs(s, t, u, v);
    forall a, b | a in s2.heap && !Dead(s2, a) && Gc(b) in Succs(s2.heap, a) ensures Edge(s.heap, a, b) {}
    LiveKept(s, s2);
  }

  // ------------------------------------------------- closing keeps the colours

  lemma ColourClosedLive(s: State, u: Ref, v: Value)
    requires u in s.color && SolidMarking(s) && (s.phase == Propagate ==> ValuesIn(s, [v]))
    requires Live(s)
    ensures Live(ColourClosed(s, u, v))
  {
    var t := ColourClosed(s, u, v);
    if s.color[u] == Gray && s.phase == Propagate {
      ColourClosedStep(s, u, v);
      assert forall r :: r in s.heap ==> !Dead(s, r) && !Dead(t, r);
    }
    LiveKept(s, t);
  }

  lemma FreeUpvalPhase(s: State, t: Ref, u: Ref, v: Value)
    requires FirstOpen(s, t, u, v) && s.color.Keys == s.heap.Keys && Dead(s, u)
    requires NeverBlack(s) && PhaseOk(s)
    ensures NeverBlack(FreeUpval(PopOpen(s, t), u)) && PhaseOk(FreeUpval(PopOpen(s, t), u))
  {
    assert s.phase == SweepString || s.phase == Sweep;
    FreeUpvalIdle(s, t, u);
    FreeUpvalWhites(s, t, u);
    hide GrayIdle, NeverBlack;
  }

  lemma FreeUpvalWhites(s: State, t: Ref, u: Ref)
    requires t in s.heap && s.heap[t].Thread? && s.heap[t].open != [] && u in s.heap && s.heap[u].Upval?
    requires NeverBlack(s) && s.color.Keys == s.heap.Keys && Dead(s, u)
    ensures var s2 := FreeUpval(PopOpen(s, t), u);
            && NeverBlack(s2)
            && (forall r :: CurrentWhite(s, r) ==> CurrentWhite(s2, r))
            && (forall r :: Swept(s, r) ==> Swept(s2, r))
  {
    var s2 := FreeUpval(PopOpen(s, t), u);
    assert forall y :: y in s2.heap[t].open ==> y in s.heap[t].open;
  }

  lemma FreeUpvalIdle(s: State, t: Ref, u: Ref)
    requires t in s.heap && s.heap[t].Thread? && s.heap[t].open != [] && u in s.heap && s.heap[u].Upval?
    requires GrayIdle(s)
    ensures GrayIdle(FreeUpval(PopOpen(s, t), u))
  {
    var s2 := FreeUpval(PopOpen(s, t), u);
    forall i | 0 <= i < |s2.grayagain| ensures Resting(s2, s2.grayagain[i]) {
      assert Resting(s, s.grayagain[i]);
    }
  }

  lemma CloseCellIdle(s: State, t: Ref, u: Ref, v: Value)
    requires FirstOpen(s, t, u, v) && s.color.Keys == s.heap.Keys
    requires GrayIdle(s) && s.phase != Propagate
    ensures GrayIdle(ColourClosed(CloseCell(PopOpen(s, t), u, v), u, v))
  {
    var s2 := ColourClosed(CloseCell(PopOpen(s, t), u, v), u, v);
    forall i | 0 <= i < |s2.grayagain| ensures Resting(s2, s2.grayagain[i]) {
      assert Resting(s, s.grayagain[i]);
    }
  }

  lemma CloseCellPhase(s: State, t: Ref, u: Ref, v: Value)
    requires FirstOpen(s, t, u, v) && s.color.Keys == s.heap.Keys && !Dead(s, u) && u !in s.fixed
    requires NeverBlack(s) && PhaseOk(s) && s.phase != Propagate
    ensures var s2 := ColourClosed(CloseCell(PopOpen(s, t), u, v), u, v);
            NeverBlack(s2) && PhaseOk(s2)
  {
    var s2 := ColourClosed(CloseCell(PopOpen(s, t), u, v), u, v);
    CloseCellIdle(s, t, u, v);
    CloseCellWhites(s, t, u, v);
    if s.phase == Sweep {
      CloseCellSwept(s, s2, t, u);
    }
  }

  lemma CloseCellWhites(s: State, t: Ref, u: Ref, v: Value)
    requires FirstOpen(s, t, u, v) && s.color.Keys == s.heap.Keys && !Dead(s, u) && u !in s.fixed
    requires NeverBlack(s) && s.phase != Propagate
    ensures var s2 := ColourClosed(CloseCell(PopOpen(s, t), u, v), u, v);
            && NeverBlack(s2) && CurrentWhite(s2, u)
            && forall r :: CurrentWhite(s, r) ==> CurrentWhite(s2, r)
  {
  }

  lemma CloseCellSwept(s: State, s2: State, t: Ref, u: Ref)
    requires t in s.heap && s.heap[t].Thread? && s.heap[t].open != [] && u in s.heap && s.heap[u].Upval?
    requires u in s2.heap && s2.heap[u].Upval?
    requires s2.heap == s.heap[t := s.heap[t].(open := s.heap[t].open[1..])][u := s2.heap[u]]
    requires CurrentWhite(s2, u) && forall r :: CurrentWhite(s, r) ==> CurrentWhite(s2, r)
    requires s.sweeppos <= |s.rootgc| && forall i :: 0 <= i < s.sweeppos ==> Swept(s, s.rootgc[i])
    requires s2.rootgc == [u] + s.rootgc && s2.sweeppos == if s.sweeppos > 0 then s.sweeppos + 1 else 0
    ensures forall i :: 0 <= i < s2.sweeppos ==> Swept(s2, s2.rootgc[i])
  {
    assert forall y :: y in s2.heap[t].open ==> y in s.heap[t].open;
    forall i | 0 <= i < s2.sweeppos ensures Swept(s2, s2.rootgc[i]) {
      if i > 0 {
        assert s2.rootgc[i] == s.rootgc[i - 1] && Swept(s, s.rootgc[i - 1]);
      }
    }
  }

  lemma CloseCellMarking(s: State, t: Ref, u: Ref, v: Value)
    requires FirstOpen(s, t, u, v) && OpenListOk(s.heap, t) && Solid(s)
    requires NeverBlack(s) && TriColour(s) && s.phase == Propagate
    ensures var s2 := CloseCell(PopOpen(s, t), u, v);
            SolidMarking(s2) && ValuesIn(s2, [v]) && u in s2.color
            && NeverBlack(ColourClosed(s2, u, v)) && TriColour(ColourClosed(s2, u, v))
  {
    var s2 := CloseCell(PopOpen(s, t), u, v);
    CloseCellSolid(s, t, u, v);
    CloseCellTri(s, t, u, v);
    if s.color[u] == Gray {
      BarrierTri(s2, u, v);
    }
  }

  lemma BarrierTri(s: State, u: Ref, v: Value)
    requires Solid(s) && u in s.heap && s.heap[u] == Upval(Closed(v)) && ValuesIn(s, [v])
    requires s.phase == Propagate && s.color[u] == Gray && NeverBlack(s) && TriButGray(s, u)
    ensures NeverBlack(ColourClosed(s, u, v)) && TriColour(ColourClosed(s, u, v))
  {
    BlackenTri(s, u);
    BarrierMark(s.(color := s.color[u := Black]), u, [v]);
  }

  /** Marking all that a black object leads to, whatever it led to before. */
  lemma BarrierMark(s: State, o: Ref, vs: seq<Value>)
    requires Solid(s) && o in s.heap && ValuesIn(s, vs)
    requires forall b :: Edge(s.heap, o, b) && IsWhite(s, b) ==> Gc(b) in vs
    requires NeverBlack(s) && TriColour(s, {o})
    ensures NeverBlack(MarkAll(s, vs)) && TriColour(MarkAll(s, vs))
  {
    var t := MarkAll(s, vs);
    MarkAllStep(s, vs);
    forall b | Edge(t.heap, o, b) ensures !IsWhite(t, b) {
      assert Edge(s.heap, o, b);
    }
    assert Settled(t, o);
    TriColourRestored(s, t, {o});
    MarkNeverBlack(s, t);
  }

  /** Closing a cell, before any recolouring, disturbs the invariant at the cell alone. */
  lemma CloseCellNeverBlack(s: State, t: Ref, u: Ref, v: Value)
    requires FirstOpen(s, t, u, v) && NeverBlack(s)
    ensures NeverBlack(CloseCell(PopOpen(s, t), u, v))
  {
  }

  lemma CloseCellTri(s: State, t: Ref, u: Ref, v: Value)
    requires FirstOpen(s, t, u, v) && OpenListOk(s.heap, t) && Solid(s)
    requires NeverBlack(s) && TriColour(s)
    ensures var s2 := CloseCell(PopOpen(s, t), u, v);
            && NeverBlack(s2)
            && (s.color[u] != Gray ==> TriColour(s2))
            && (s.color[u] == Gray ==> TriButGray(s2, u))
  {
    var s2 := CloseCell(PopOpen(s, t), u, v);
    CloseCellSuccs(s, t, u, v);
    CloseCellNeverBlack(s, t, u, v);
    hide OpenListOk, NeverBlack;
    forall r | r in s2.color && s2.color[r] == Black ensures Settled(s2, r) {
      assert Settled(s, r);
      forall b | Edge(s2.heap, r, b) ensures !IsWhite(s2, b) {
        assert Edge(s.heap, r, b);
      }
    }
    forall i | 0 <= i < |s2.gray| ensures Waiting(s2, s2.gray[i]) {
      assert Waiting(s, s.gray[i]);
    }
    forall i | 0 <= i < |s2.grayagain| ensures Waiting(s2, s2.grayagain[i]) {
      assert Waiting(s, s.grayagain[i]);
    }
  }

  /** The three-colour invariant with the exception that `u`, gray, waits nowhere. */
  ghost predicate TriButGray(s: State, u: Ref) {
    && NoOtherWhite(s)
    && GrayReady(s)
    && (forall r :: r in s.color && s.color[r] == Black ==> Settled(s, r))
    && (forall r :: r in s.heap && r in s.color && s.color[r] == Gray && r != u ==>
          s.heap[r].Str? || OpenUpval(s.heap[r]) || r in s.gray || r in s.grayagain)
    && !IsWhite(s, s.main)
    && (s.registry.Gc? ==> !IsWhite(s, s.registry.ref))
  }

  lemma BlackenTri(s: State, u: Ref)
    requires TriButGray(s, u) && u in s.color && u in s.heap && s.heap[u].Upval?
    ensures TriColour(s.(color := s.color[u := Black]), {u})
  {
    var s3 := s.(color := s.color[u := Black]);
    forall i | 0 <= i < |s3.gray| ensures Waiting(s3, s3.gray[i]) {
      assert Waiting(s, s.gray[i]);
    }
    forall i | 0 <= i < |s3.grayagain| ensures Waiting(s3, s3.grayagain[i]) {
      assert Waiting(s, s.grayagain[i]);
    }
  }

  lemma CloseOneInv(s: State, t: Ref, u: Ref, v: Value, x: set<Ref>)
    requires FirstOpen(s, t, u, v) && Inv(s, x) && x <= {t}
    ensures SolidMarking(s) && OpenListOk(s.heap, t)
    ensures Inv(CloseOne(s, t, u, v), x)
  {
    InvMarking(s, x);
    assert OpenListOk(s.heap, t);
    if Dead(s, u) {
      FreeUpvalShape(s, t, u, v, x);
      FreeUpvalLive(s, t, u, v);
      FreeUpvalPhase(s, t, u, v);
    } else {
      CloseAliveInv(s, t, u, v, x);
    }
  }

  lemma InvMarking(s: State, x: set<Ref>)
    requires Inv(s, x)
    ensures SolidMarking(s)
  {
    if s.phase == Propagate {
      NoDangling(s, x);
    }
  }

  lemma CloseAliveInv(s: State, t: Ref, u: Ref, v: Value, x: set<Ref>)
    requires FirstOpen(s, t, u, v) && Inv(s, x) && x <= {t} && !Dead(s, u)
    requires SolidMarking(s) && OpenListOk(s.heap, t)
    ensures Inv(CloseOne(s, t, u, v), x)
  {
    hide StringsOk, RootListOk, UpvalsOk;
    CloseAliveShape(s, t, u, v, x);
    CloseAliveLive(s, t, u, v);
    if s.phase == Propagate {
      CloseCellMarking(s, t, u, v);
    } else {
      CloseCellPhase(s, t, u, v);
    }
  }

  lemma CloseAliveShape(s: State, t: Ref, u: Ref, v: Value, x: set<Ref>)
    requires FirstOpen(s, t, u, v) && Shape(s, x) && x <= {t} && !Dead(s, u)
    requires SolidMarking(s) && OpenListOk(s.heap, t)
    ensures Shape(CloseOne(s, t, u, v), x)
  {
    hide StringsOk, RootListOk, UpvalsOk;
    CloseCellShape(s, t, u, v, x);
    CloseCellSolid(s, t, u, v);
    ShapeColour(CloseCell(PopOpen(s, t), u, v), CloseOne(s, t, u, v), x);
  }

  /** The structure does not depend on the colours or the gray lists. */
  lemma ShapeColour(s: State, t: State, x: set<Ref>)
    requires Shape(s, x) && SameButGray(s, t)
    ensures Shape(t, x)
  {
    hide StringsOk, UpvalsOk, RootListOk;
    StringsSame(s, t);
    RootListSame(s, t, x);
  }

  lemma StringsSame(s: State, t: State)
    requires StringsOk(s) && t.heap == s.heap && t.strt == s.strt && t.hash == s.hash
    ensures StringsOk(t)
  {
    assert forall r :: r in s.heap && s.heap[r].Str? ==> Bucket(t, s.heap[r].chars) == Bucket(s, s.heap[r].chars);
  }

  lemma RootListSame(s: State, t: State, x: set<Ref>)
    requires RootListOk(s, x) && t.heap == s.heap && t.rootgc == s.rootgc
    ensures RootListOk(t, x)
  {
  }

  lemma CloseAliveLive(s: State, t: Ref, u: Ref, v: Value)
    requires FirstOpen(s, t, u, v) && Live(s) && !Dead(s, u)
    requires SolidMarking(s) && OpenListOk(s.heap, t)
    ensures Live(CloseOne(s, t, u, v))
  {
    CloseCellLive(s, t, u, v);
    CloseCellSolid(s, t, u, v);
    ColourClosedLive(CloseCell(PopOpen(s, t), u, v), u, v);
  }

  // --------------------------------------------- what sweeping does to objects

  /** The object reads the same: an upvalue may have closed, but over the value it had. */
  ghost predicate SameContent(h: Heap, h2: Heap, r: Ref)
    requires r in h && r in h2
  {
    match h[r]
    case Upval(_) => h2[r].Upval? && Succs(h2, r) == Succs(h, r)
    case Thread(g, stack, _) => h2[r].Thread? && h2[r].globals == g && h2[r].stack == stack
    case _ => h2[r] == h[r]
  }

  /** A step of the sweep: live objects stay and read the same; dead ones stay dead if they stay at all. */
  ghost predicate SweepStep(s: State, t: State) {
    && Roots(t) == Roots(s) && t.main == s.main && t.running == s.running
    && t.fixed == s.fixed && t.currentwhite == s.currentwhite && t.hash == s.hash
    && (forall r :: r in t.heap ==> r in s.heap)
    && (forall r :: r in t.heap ==> (Dead(t, r) <==> Dead(s, r)))
    && (forall r :: r in s.heap && !Dead(s, r) ==> r in t.heap && SameContent(s.heap, t.heap, r))
  }

  lemma SweepStepCompose(s: State, t: State, u: State)
    requires SweepStep(s, t) && SweepStep(t, u)
    ensures SweepStep(s, u)
  {
    forall r | r in s.heap && !Dead(s, r) ensures r in u.heap && SameContent(s.heap, u.heap, r) {
      assert SameContent(s.heap, t.heap, r) && SameContent(t.heap, u.heap, r);
    }
  }

  lemma CloseOneStep(s: State, t: Ref, u: Ref, v: Value)
    requires FirstOpen(s, t, u, v) && OpenListOk(s.heap, t) && SolidMarking(s) && s.phase != Propagate
    ensures SweepStep(s, CloseOne(s, t, u, v))
    ensures t in CloseOne(s, t, u, v).heap && CloseOne(s, t, u, v).color[t] == s.color[t]
  {
    hide OpenListOk;
    if Dead(s, u) {
      FreeUpvalStep(s, t, u);
    } else {
      CloseCellStep(s, t, u, v);
    }
  }

  lemma FreeUpvalStep(s: State, t: Ref, u: Ref)
    requires t in s.heap && s.heap[t].Thread? && s.heap[t].open != [] && u in s.heap && s.heap[u].Upval?
    requires s.color.Keys == s.heap.Keys && Dead(s, u)
    ensures SweepStep(s, FreeUpval(PopOpen(s, t), u))
  {
    var s2 := FreeUpval(PopOpen(s, t), u);
    forall r | r in s.heap && !Dead(s, r) ensures r in s2.heap && SameContent(s.heap, s2.heap, r) {}
  }

  lemma CloseCellStep(s: State, t: Ref, u: Ref, v: Value)
    requires FirstOpen(s, t, u, v) && OpenListOk(s.heap, t)
    requires s.color.Keys == s.heap.Keys && !Dead(s, u) && s.phase != Propagate
    ensures SweepStep(s, ColourClosed(CloseCell(PopOpen(s, t), u, v), u, v))
  {
    var s1 := CloseCell(PopOpen(s, t), u, v);
    var s2 := ColourClosed(s1, u, v);
    hide SameContent;
    assert s2.heap == s1.heap;
    forall r | r in s2.heap ensures Dead(s2, r) <==> Dead(s, r) {}
    forall r | r in s.heap ensures SameContent(s.heap, s1.heap, r) {
      CloseCellContent(s, t, u, v, r);
    }
  }

  lemma CloseCellContent(s: State, t: Ref, u: Ref, v: Value, r: Ref)
    requires FirstOpen(s, t, u, v) && OpenListOk(s.heap, t) && r in s.heap
    ensures SameContent(s.heap, CloseCell(PopOpen(s, t), u, v).heap, r)
  {
    CloseCellSuccs(s, t, u, v);
    hide OpenListOk;
  }

  /** The structure does not depend on the phase, the current white or the sweep positions. */
  lemma ShapePhase(s: State, t: State)
    requires Shape(s)
    requires t == s.(phase := t.phase, currentwhite := t.currentwhite, sweepstr := t.sweepstr, sweeppos := t.sweeppos)
    ensures Shape(t)
  {
    hide StringsOk, RootListOk, UpvalsOk;
    StringsSame(s, t);
    RootListSame(s, t, {});
  }
}
