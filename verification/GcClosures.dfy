/**
Open upvalues: `luaF_findupval`, the captures of OP_CLOSURE, and `luaF_close`,
each keeping the invariant, with what a closure reads through its upvalues.
*/
module GcClosures {
  import opened GcState
  import opened GcMark
  import opened GcInvariant
  import opened GcSweep
  import opened GcStrings
  import opened GcCollect
  import opened GcMutator

  // ---------------------------------------------------------- luaF_findupval

  /** How many upvalues of the open list `q` are above `level`: where the search stops. */
  function Above(h: Heap, q: seq<Ref>, level: nat): (k: nat)
    requires forall u :: u in q ==> u in h && OpenUpval(h[u])
    ensures k <= |q|
    ensures forall i :: 0 <= i < k ==> Level(h, q[i]) > level
    ensures k < |q| ==> Level(h, q[k]) <= level
  {
    if q == [] then 0
    else
      assert q[0] in q && forall u :: u in q[1..] ==> u in q;
      if Level(h, q[0]) <= level then 0 else 1 + Above(h, q[1..], level)
  }

  /** `u` becomes a new open upvalue of `t` at `level`, at position `k` of the open list. */
  function OpenNew(s: State, t: Ref, level: nat, k: nat, u: Ref): State
    requires t in s.heap && s.heap[t].Thread? && k <= |s.heap[t].open|
  {
    var q := s.heap[t].open;
    s.(heap := s.heap[t := s.heap[t].(open := q[..k] + [u] + q[k..])][u := Upval(Open(t, level))],
       color := s.color[u := White(s.currentwhite)],
       uvhead := [u] + s.uvhead)
  }

  ghost predicate CanFind(s: State, t: Ref, level: nat, r: Ref) {
    LiveThread(s, t) && OpenListOk(s.heap, t) && level < |s.heap[t].stack| && r !in s.heap
  }

  /** `luaF_findupval`: the state and the upvalue it returns; `r` is the address a new one would get. */
  function FindUpval(s: State, t: Ref, level: nat, r: Ref): (State, Ref)
    requires CanFind(s, t, level, r)
  {
    var q := s.heap[t].open;
    assert forall u :: u in q ==> OpenEntry(s.heap, t, u);
    var k := Above(s.heap, q, level);
    if k < |q| && Level(s.heap, q[k]) == level then (Resurrect(s, q[k]), q[k])
    else (OpenNew(s, t, level, k, r), r)
  }

  ghost predicate AtLevel(h: Heap, u: Ref, level: nat) {
    u in h && OpenUpval(h[u]) && Level(h, u) == level
  }

  ghost predicate AboveLevel(h: Heap, u: Ref, level: nat) {
    u in h && OpenUpval(h[u]) && Level(h, u) > level
  }

  ghost predicate BelowLevel(h: Heap, u: Ref, level: nat) {
    u in h && OpenUpval(h[u]) && Level(h, u) < level
  }

  /** The first `k` upvalues of `q` are above `level` and the others below it. */
  ghost predicate SplitAt(h: Heap, q: seq<Ref>, level: nat, k: nat) {
    && k <= |q|
    && (forall i :: 0 <= i < k ==> AboveLevel(h, q[i], level))
    && (forall i :: k <= i < |q| ==> BelowLevel(h, q[i], level))
  }

  lemma OpenNewOpen(h: Heap, t: Ref, level: nat, k: nat, u: Ref, w: Ref)
    requires t in h && h[t].Thread? && OpenListOk(h, t) && level < |h[t].stack| && u !in h
    requires SplitAt(h, h[t].open, level, k)
    requires w in h && h[w].Thread? && OpenListOk(h, w)
    ensures OpenListOk(OpenHeap(h, t, level, k, u), w)
  {
    var h2 := OpenHeap(h, t, level, k, u);
    assert forall y :: y in h[w].open ==> OpenEntry(h, w, y);
    assert forall y :: y in h2[w].open ==> y == u || y in h[w].open;
    if w != t {
      assert h[w].open[0..] == h[w].open;
      LevelsFallKept(h, h2, h[w].open, 0);
    } else {
      InsertFalls(h, h2, h[t].open, k, u, level);
    }
  }

  lemma InsertFalls(h: Heap, h2: Heap, q: seq<Ref>, k: nat, u: Ref, level: nat)
    requires (forall y :: y in q ==> y in h && OpenUpval(h[y]) && y in h2 && h2[y] == h[y]) && LevelsFall(h, q)
    requires AtLevel(h2, u, level) && SplitAt(h, q, level, k)
    ensures forall y :: y in q[..k] + [u] + q[k..] ==> y in h2 && OpenUpval(h2[y])
    ensures LevelsFall(h2, q[..k] + [u] + q[k..])
  {
    var p := q[..k] + [u] + q[k..];
    assert forall i :: 0 <= i < |p| ==> p[i] == if i < k then q[i] else if i == k then u else q[i - 1];
    assert forall i :: 0 <= i < |q| ==> Level(h2, q[i]) == Level(h, q[i]);
    forall i, j | 0 <= i < j < |p| ensures Level(h2, p[i]) > Level(h2, p[j]) {
      if i < k && j > k {
        assert AboveLevel(h, q[i], level) && BelowLevel(h, q[j - 1], level);
      } else if i < k && j == k {
        assert AboveLevel(h, q[i], level);
      } else if i == k {
        assert BelowLevel(h, q[j - 1], level);
      }
    }
  }

  function OpenHeap(h: Heap, t: Ref, level: nat, k: nat, u: Ref): Heap
    requires t in h && h[t].Thread? && k <= |h[t].open|
  {
    var q := h[t].open;
    h[t := h[t].(open := q[..k] + [u] + q[k..])][u := Upval(Open(t, level))]
  }

  lemma OpenNewUpvals(h: Heap, uvhead: seq<Ref>, t: Ref, level: nat, k: nat, u: Ref)
    requires UpvalsOk(h, uvhead)
    requires t in h && h[t].Thread? && level < |h[t].stack| && k <= |h[t].open| && u !in h
    requires SplitAt(h, h[t].open, level, k)
    ensures UpvalsOk(OpenHeap(h, t, level, k, u), [u] + uvhead)
  {
    var h2 := OpenHeap(h, t, level, k, u);
    forall w | w in h2 && h2[w].Thread? ensures OpenListOk(h2, w) {
      OpenNewOpen(h, t, level, k, u, w);
    }
    var q := h[t].open;
    assert q == q[..k] + q[k..];
    forall y | y in h2 && OpenUpval(h2[y]) ensures Owned(h2, y) {
      if y != u {
        assert Owned(h, y);
      }
    }
  }

  lemma OpenNewShape(s: State, t: Ref, level: nat, k: nat, u: Ref)
    requires Shape(s) && t in s.heap && s.heap[t].Thread? && k <= |s.heap[t].open| && u !in s.heap
    requires UpvalsOk(OpenHeap(s.heap, t, level, k, u), [u] + s.uvhead)
    ensures Shape(OpenNew(s, t, level, k, u))
  {
    hide StringsOk, UpvalsOk, RootListOk;
    SameStrings(s, OpenNew(s, t, level, k, u));
    OpenNewRoot(s, t, level, k, u);
  }

  lemma OpenNewRoot(s: State, t: Ref, level: nat, k: nat, u: Ref)
    requires t in s.heap && s.heap[t].Thread? && k <= |s.heap[t].open| && u !in s.heap
    requires RootListOk(s, {})
    ensures RootListOk(OpenNew(s, t, level, k, u), {})
  {
  }

  lemma OpenNewSuccs(s: State, t: Ref, level: nat, k: nat, u: Ref)
    requires UpvalsOk(s.heap, s.uvhead)
    requires t in s.heap && s.heap[t].Thread? && k <= |s.heap[t].open| && u !in s.heap && level < |s.heap[t].stack|
    ensures var h := OpenNew(s, t, level, k, u).heap;
            Succs(h, u) == [s.heap[t].stack[level]] && forall a :: a in s.heap ==> Succs(h, a) == Succs(s.heap, a)
  {
    forall a | a in s.heap ensures Succs(OpenNew(s, t, level, k, u).heap, a) == Succs(s.heap, a) {
      if OpenUpval(s.heap[a]) {
        assert Owned(s.heap, a);
      }
    }
  }

  lemma OpenNewLive(s: State, t: Ref, level: nat, k: nat, u: Ref)
    requires UpvalsOk(s.heap, s.uvhead) && s.color.Keys == s.heap.Keys && Live(s)
    requires LiveThread(s, t) && k <= |s.heap[t].open| && u !in s.heap && level < |s.heap[t].stack|
    ensures Live(OpenNew(s, t, level, k, u))
  {
    var s2 := OpenNew(s, t, level, k, u);
    OpenNewSuccs(s, t, level, k, u);
    assert forall b :: b in s.heap && !Dead(s, b) ==> b in s2.heap && !Dead(s2, b);
    forall a, b | Edge(s2.heap, a, b) && !Dead(s2, a) ensures b in s2.heap && !Dead(s2, b) {
      if a == u {
        assert Edge(s.heap, t, b);
      } else {
        assert Edge(s.heap, a, b);
      }
    }
  }

  lemma OpenNewPhase(s: State, t: Ref, level: nat, k: nat, u: Ref)
    requires UpvalsOk(s.heap, s.uvhead) && s.color.Keys == s.heap.Keys && Live(s)
    requires LiveThread(s, t) && k <= |s.heap[t].open| && u !in s.heap && level < |s.heap[t].stack|
    requires NeverBlack(s) && PhaseOk(s)
    ensures NeverBlack(OpenNew(s, t, level, k, u)) && PhaseOk(OpenNew(s, t, level, k, u))
  {
    if s.phase == Propagate {
      OpenNewTri(s, t, level, k, u);
    } else {
      OpenNewIdle(s, t, level, k, u);
    }
  }

  lemma OpenNewTri(s: State, t: Ref, level: nat, k: nat, u: Ref)
    requires UpvalsOk(s.heap, s.uvhead) && s.color.Keys == s.heap.Keys && Live(s)
    requires LiveThread(s, t) && k <= |s.heap[t].open| && u !in s.heap && level < |s.heap[t].stack|
    requires NeverBlack(s) && TriColour(s)
    ensures NeverBlack(OpenNew(s, t, level, k, u)) && TriColour(OpenNew(s, t, level, k, u))
  {
    OpenNewSuccs(s, t, level, k, u);
    GrownTri(s, OpenNew(s, t, level, k, u), u);
  }

  lemma OpenNewIdle(s: State, t: Ref, level: nat, k: nat, u: Ref)
    requires s.color.Keys == s.heap.Keys
    requires t in s.heap && s.heap[t].Thread? && k <= |s.heap[t].open| && u !in s.heap
    requires NeverBlack(s) && PhaseOk(s) && s.phase != Propagate
    ensures NeverBlack(OpenNew(s, t, level, k, u)) && PhaseOk(OpenNew(s, t, level, k, u))
  {
    var s2 := OpenNew(s, t, level, k, u);
    assert forall y :: y in s2.heap[t].open ==> y == u || y in s.heap[t].open;
    forall y ensures Resting(s, y) ==> Resting(s2, y) {}
    forall y ensures CurrentWhite(s, y) ==> CurrentWhite(s2, y) {}
    forall y ensures Swept(s, y) ==> Swept(s2, y) {}
  }

  /** The search either stands at the upvalue of that level or at the place for a new one. */
  lemma AboveSplits(h: Heap, t: Ref, level: nat)
    requires t in h && h[t].Thread? && OpenListOk(h, t)
    ensures forall u :: u in h[t].open ==> u in h && OpenUpval(h[u])
    ensures var q := h[t].open; var k := Above(h, q, level);
            SplitAt(h, q, level, k) || (k < |q| && AtLevel(h, q[k], level))
  {
    var q := h[t].open;
    assert forall u :: u in q ==> OpenEntry(h, t, u);
    var k := Above(h, q, level);
    if k == |q| || Level(h, q[k]) != level {
      forall i | k <= i < |q| ensures BelowLevel(h, q[i], level) {
        assert q[i] in q;
      }
      forall i | 0 <= i < k ensures AboveLevel(h, q[i], level) {
        assert q[i] in q;
      }
    }
  }

  /**
  `luaF_findupval` returns a live open upvalue of the thread at the level, the
  same one as before if there was one, and moves no other value.
  */
  lemma FindUpvalInv(s: State, t: Ref, level: nat, r: Ref)
    requires Inv(s) && CanFind(s, t, level, r)
    ensures var (s2, u) := FindUpval(s, t, level, r);
            && Inv(s2) && Found(s, s2, t, level, u)
            && (u == r || u in s.heap[t].open)
  {
    hide StringsOk, RootListOk, UpvalsOk, Live, NeverBlack, PhaseOk;
    var q := s.heap[t].open;
    AboveSplits(s.heap, t, level);
    var k := Above(s.heap, q, level);
    if k < |q| && Level(s.heap, q[k]) == level {
      FoundOld(s, t, level, k);
    } else {
      FoundNew(s, t, level, k, r);
    }
  }

  /** What a search for the upvalue of `t` at `level` guarantees. */
  ghost predicate Found(s: State, s2: State, t: Ref, level: nat, u: Ref)
    requires t in s.heap
  {
    && u in s2.heap && s2.heap[u] == Upval(Open(t, level)) && !Dead(s2, u)
    && (forall w :: w in s.heap && s.heap[w] == Upval(Open(t, level)) ==> w == u)
    && (forall y :: y in s2.heap ==> y == u || y in s.heap)
    && (forall y :: y in s.heap ==> y in s2.heap && (y != t ==> s2.heap[y] == s.heap[y]) && (!Dead(s, y) ==> !Dead(s2, y)))
    && t in s2.heap && s.heap[t].Thread? && s2.heap[t].Thread?
    && s2.heap[t] == s.heap[t].(open := s2.heap[t].open)
    && s2 == s.(heap := s2.heap, color := s2.color, uvhead := s2.uvhead)
    && (forall y :: y in s.color && y != u ==> y in s2.color && s2.color[y] == s.color[y])
  }

  lemma FoundOld(s: State, t: Ref, level: nat, k: nat)
    requires Inv(s) && LiveThread(s, t) && level < |s.heap[t].stack| && k < |s.heap[t].open|
    requires AtLevel(s.heap, s.heap[t].open[k], level)
    ensures var u := s.heap[t].open[k]; Inv(Resurrect(s, u)) && Found(s, Resurrect(s, u), t, level, u)
  {
    hide StringsOk, RootListOk, NeverBlack, PhaseOk;
    var u := s.heap[t].open[k];
    FoundOldFacts(s, t, level, k);
    hide UpvalsOk, Found;
    forall b | Edge(s.heap, u, b) ensures b in s.heap && !Dead(s, b) {
      assert Edge(s.heap, t, b);
    }
    ResurrectInv(s, u);
  }

  lemma FoundOldFacts(s: State, t: Ref, level: nat, k: nat)
    requires UpvalsOk(s.heap, s.uvhead) && t in s.heap && s.heap[t].Thread? && k < |s.heap[t].open|
    requires AtLevel(s.heap, s.heap[t].open[k], level)
    ensures var u := s.heap[t].open[k]; u in s.heap && OpenUpval(s.heap[u]) && Found(s, Resurrect(s, u), t, level, u)
  {
    OnlyAtLevel(s, t, level, k);
    hide UpvalsOk;
  }

  lemma OnlyAtLevel(s: State, t: Ref, level: nat, k: nat)
    requires UpvalsOk(s.heap, s.uvhead) && t in s.heap && s.heap[t].Thread? && k < |s.heap[t].open|
    requires AtLevel(s.heap, s.heap[t].open[k], level)
    ensures s.heap[s.heap[t].open[k]] == Upval(Open(t, level))
    ensures forall w :: w in s.heap && s.heap[w] == Upval(Open(t, level)) ==> w == s.heap[t].open[k]
  {
    var q := s.heap[t].open;
    assert OpenEntry(s.heap, t, q[k]);
    forall w | w in s.heap && s.heap[w] == Upval(Open(t, level)) ensures w == q[k] {
      assert Owned(s.heap, w);
      var i :| 0 <= i < |q| && q[i] == w;
      assert Level(s.heap, q[i]) == Level(s.heap, q[k]);
    }
  }

  lemma FoundNew(s: State, t: Ref, level: nat, k: nat, r: Ref)
    requires Inv(s) && LiveThread(s, t) && level < |s.heap[t].stack| && k <= |s.heap[t].open| && r !in s.heap
    requires SplitAt(s.heap, s.heap[t].open, level, k)
    ensures Inv(OpenNew(s, t, level, k, r)) && Found(s, OpenNew(s, t, level, k, r), t, level, r)
  {
    hide StringsOk, RootListOk, UpvalsOk, Live, NeverBlack, PhaseOk;
    OpenNewUpvals(s.heap, s.uvhead, t, level, k, r);
    OpenNewShape(s, t, level, k, r);
    OpenNewLive(s, t, level, k, r);
    OpenNewPhase(s, t, level, k, r);
    NoneAtLevel(s, t, level, k);
  }

  lemma NoneAtLevel(s: State, t: Ref, level: nat, k: nat)
    requires UpvalsOk(s.heap, s.uvhead) && t in s.heap && s.heap[t].Thread? && k <= |s.heap[t].open|
    requires SplitAt(s.heap, s.heap[t].open, level, k)
    ensures forall w :: w in s.heap ==> s.heap[w] != Upval(Open(t, level))
  {
    forall w | w in s.heap ensures s.heap[w] != Upval(Open(t, level)) {
      if OpenUpval(s.heap[w]) && s.heap[w].place.thread == t {
        assert Owned(s.heap, w);
      }
    }
  }

  /** Two searches for the same level give the same cell: closures over one local share it. */
  lemma FindUpvalShares(s: State, t: Ref, level: nat, r: Ref, r2: Ref)
    requires Inv(s) && CanFind(s, t, level, r) && r2 !in s.heap && r2 != r
    ensures var (s2, u) := FindUpval(s, t, level, r);
            CanFind(s2, t, level, r2) && FindUpval(s2, t, level, r2) == (s2, u)
  {
    hide StringsOk, RootListOk, Live, NeverBlack, PhaseOk;
    FindUpvalInv(s, t, level, r);
    var (s2, u) := FindUpval(s, t, level, r);
    assert OpenListOk(s2.heap, t);
    FindUpvalInv(s2, t, level, r2);
    var (s3, u2) := FindUpval(s2, t, level, r2);
    assert u2 == u;
  }

  // -------------------------------------------------------------- OP_CLOSURE

  /** An upvalue of a new closure: one of the enclosing function's, or a local of it. */
  datatype Capture = Parent(index: nat) | Local(level: nat, cell: Ref)

  ghost predicate CanCaptureOne(s: State, t: Ref, parent: Ref, c: Capture)
    requires t in s.heap && s.heap[t].Thread?
  {
    match c
    case Parent(i) =>
      && parent in s.heap && s.heap[parent].Closure? && !Dead(s, parent)
      && 2 + i < |s.heap[parent].refs| && s.heap[parent].refs[2 + i].Gc?
    case Local(l, r) => l < |s.heap[t].stack| && r !in s.heap
  }

  /** The closure `o`, still white, has room for the captures `caps` from upvalue `j` on. */
  ghost predicate CanCapture(s: State, t: Ref, o: Ref, parent: Ref, caps: seq<Capture>, j: nat) {
    && LiveThread(s, t)
    && o in s.heap && s.heap[o].Closure? && o in s.color && s.color[o] == White(s.currentwhite) && o != parent
    && |s.heap[o].refs| == 2 + j + |caps|
    && (forall c :: c in caps ==> CanCaptureOne(s, t, parent, c))
    && (forall a, b :: 0 <= a < b < |caps| && caps[a].Local? && caps[b].Local? ==> caps[a].cell != caps[b].cell)
  }

  /** The upvalue a capture yields. */
  ghost function CaptureOne(s: State, t: Ref, parent: Ref, c: Capture): (State, Ref)
    requires Inv(s) && LiveThread(s, t) && CanCaptureOne(s, t, parent, c)
  {
    ThreadOk(s, t, {});
    match c
    case Parent(i) => (s, s.heap[parent].refs[2 + i].ref)
    case Local(l, r) => FindUpval(s, t, l, r)
  }

  function WithUpval(o: Obj, j: nat, u: Ref): Obj
    requires o.Closure? && 2 + j < |o.refs|
  {
    Closure(o.refs[2 + j := Gc(u)])
  }

  /** What one capture leaves as it was. */
  ghost predicate Captured(s: State, s2: State, t: Ref, parent: Ref, c: Capture, u: Ref)
    requires t in s.heap && s.heap[t].Thread? && CanCaptureOne(s, t, parent, c)
  {
    && LiveValue(s2, Gc(u))
    && (c.Local? ==> u in s2.heap && s2.heap[u] == Upval(Open(t, c.level)))
    && (c.Parent? ==> s.heap[parent].refs[2 + c.index] == Gc(u))
    && t in s2.heap && s2.heap[t].Thread? && s2.heap[t].stack == s.heap[t].stack
    && s2.heap[t].globals == s.heap[t].globals
    && (forall y :: y in s.heap ==> y in s2.heap && (y != t ==> s2.heap[y] == s.heap[y]) && (!Dead(s, y) ==> !Dead(s2, y)))
    && (forall y :: y in s2.heap ==> y in s.heap || (c.Local? && y == c.cell))
    && (forall y :: y in s.color && y in s.heap && !s.heap[y].Upval? ==> y in s2.color && s2.color[y] == s.color[y])
    && s2 == s.(heap := s2.heap, color := s2.color, uvhead := s2.uvhead)
  }

  lemma CaptureOneInv(s: State, t: Ref, parent: Ref, c: Capture)
    requires Inv(s) && LiveThread(s, t) && CanCaptureOne(s, t, parent, c)
    ensures var (s2, u) := CaptureOne(s, t, parent, c);
            Inv(s2) && Captured(s, s2, t, parent, c, u)
  {
    hide StringsOk, RootListOk, UpvalsOk, NeverBlack, PhaseOk;
    ThreadOk(s, t, {});
    match c {
      case Parent(i) =>
        assert Edge(s.heap, parent, s.heap[parent].refs[2 + i].ref);
      case Local(l, r) =>
        hide Live;
        FindUpvalInv(s, t, l, r);
    }
  }

  /** The loop of OP_CLOSURE: no barrier is needed, as the closure is still white. */
  ghost function CaptureAll(s: State, t: Ref, o: Ref, parent: Ref, caps: seq<Capture>, j: nat): State
    requires Inv(s) && CanCapture(s, t, o, parent, caps, j)
    decreases |caps|
  {
    hide Inv;
    if caps == [] then s
    else
      assert caps[0] in caps;
      var (s1, u) := CaptureOne(s, t, parent, caps[0]);
      CaptureOneInv(s, t, parent, caps[0]);
      CaptureStore(s, s1, t, o, parent, caps, j, u);
      CaptureAll(RawStore(s1, o, WithUpval(s1.heap[o], j, u)), t, o, parent, caps[1..], j + 1)
  }

  lemma CaptureStore(s: State, s1: State, t: Ref, o: Ref, parent: Ref, caps: seq<Capture>, j: nat, u: Ref)
    requires CanCapture(s, t, o, parent, caps, j) && caps != [] && caps[0] in caps
    requires Inv(s1) && Captured(s, s1, t, parent, caps[0], u)
    ensures o in s1.heap && s1.heap[o] == s.heap[o] && 2 + j < |s1.heap[o].refs|
    ensures var s2 := RawStore(s1, o, WithUpval(s1.heap[o], j, u));
            Inv(s2) && CanCapture(s2, t, o, parent, caps[1..], j + 1)
  {
    hide Shape, Live, NeverBlack, PhaseOk;
    var obj := WithUpval(s1.heap[o], j, u);
    assert CanStore(s1, o, obj, Gc(u));
    RawStoreInv(s1, o, obj, Gc(u));
    CaptureRest(s, s1, t, o, parent, caps, j, u);
  }

  lemma RawStoreInv(s: State, o: Ref, obj: Obj, v: Value)
    requires Inv(s) && CanStore(s, o, obj, v) && o in s.color && s.color[o] != Black
    ensures Inv(RawStore(s, o, obj))
  {
    hide StringsOk, RootListOk, UpvalsOk, Live, NeverBlack, PhaseOk;
    RawStoreShape(s, o, obj);
    RawStoreLive(s, o, obj, v);
    RawStorePhase(s, o, obj, v);
  }

  lemma CaptureRest(s: State, s1: State, t: Ref, o: Ref, parent: Ref, caps: seq<Capture>, j: nat, u: Ref)
    requires CanCapture(s, t, o, parent, caps, j) && caps != [] && caps[0] in caps
    requires Captured(s, s1, t, parent, caps[0], u)
    ensures CanCapture(RawStore(s1, o, WithUpval(s1.heap[o], j, u)), t, o, parent, caps[1..], j + 1)
  {
    var s2 := RawStore(s1, o, WithUpval(s1.heap[o], j, u));
    forall c | c in caps[1..] ensures CanCaptureOne(s2, t, parent, c) {
      var a :| 0 < a < |caps| && caps[a] == c;
      assert CanCaptureOne(s, t, parent, caps[a]);
    }
  }

  /** The upvalue of the closure that belongs to a capture: the enclosing one's, or the open one of the local. */
  ghost predicate Binds(h: Heap, t: Ref, o: Ref, parent: Ref, c: Capture, j: nat) {
    && o in h && h[o].Closure? && 2 + j < |h[o].refs| && h[o].refs[2 + j].Gc?
    && match c
       case Parent(i) => parent in h && h[parent].Closure? && 2 + i < |h[parent].refs| && h[o].refs[2 + j] == h[parent].refs[2 + i]
       case Local(l, _) => h[o].refs[2 + j].ref in h && h[h[o].refs[2 + j].ref] == Upval(Open(t, l))
  }

  /** What the captures leave as it was. */
  ghost predicate CapturesKeep(s: State, s2: State, t: Ref, o: Ref) {
    && t in s.heap && s.heap[t].Thread? && t in s2.heap && s2.heap[t].Thread? && o in s.heap && o in s2.heap
    && s2.heap[t].stack == s.heap[t].stack && s2.heap[t].globals == s.heap[t].globals
    && (forall y :: y in s.heap && y != t && y != o ==> y in s2.heap && s2.heap[y] == s.heap[y])
    && (forall y :: y in s.heap && !Dead(s, y) ==> !Dead(s2, y))
    && s2 == s.(heap := s2.heap, color := s2.color, uvhead := s2.uvhead)
    && !Dead(s2, o)
  }

  /** The captures `caps` are bound to the upvalues of `o` from `j` on, and the earlier ones are kept. */
  ghost predicate CapturesDone(s: State, s2: State, t: Ref, o: Ref, parent: Ref, caps: seq<Capture>, j: nat) {
    && CapturesKeep(s, s2, t, o)
    && (forall i :: 0 <= i < |caps| ==> Binds(s2.heap, t, o, parent, caps[i], j + i))
    && s.heap[o].Closure? && s2.heap[o].Closure?
    && |s2.heap[o].refs| == |s.heap[o].refs| >= 2 + j
    && s2.heap[o].refs[..2 + j] == s.heap[o].refs[..2 + j]
  }

  lemma {:induction false} CaptureAllInv(s: State, t: Ref, o: Ref, parent: Ref, caps: seq<Capture>, j: nat)
    requires Inv(s) && CanCapture(s, t, o, parent, caps, j)
    ensures Inv(CaptureAll(s, t, o, parent, caps, j))
    ensures CapturesDone(s, CaptureAll(s, t, o, parent, caps, j), t, o, parent, caps, j)
    decreases |caps|
  {
    hide Inv;
    if caps == [] {
    } else {
      hide CapturesDone, Captured, CanCaptureOne;
      assert caps[0] in caps;
      var (s1, u) := CaptureOne(s, t, parent, caps[0]);
      CaptureOneInv(s, t, parent, caps[0]);
      CaptureStore(s, s1, t, o, parent, caps, j, u);
      var s2 := RawStore(s1, o, WithUpval(s1.heap[o], j, u));
      CaptureAllInv(s2, t, o, parent, caps[1..], j + 1);
      CapturedKeeps(s, s1, s2, CaptureAll(s, t, o, parent, caps, j), t, o, parent, caps, j, u);
    }
  }

  lemma StepKeeps(s: State, s1: State, s2: State, s3: State, t: Ref, o: Ref, parent: Ref, c: Capture, j: nat, u: Ref)
    requires t in s.heap && s.heap[t].Thread? && CanCaptureOne(s, t, parent, c) && Captured(s, s1, t, parent, c, u)
    requires o in s.heap && s.heap[o].Closure? && 2 + j < |s.heap[o].refs|
    requires o in s1.heap && s1.heap[o] == s.heap[o] && s2 == RawStore(s1, o, WithUpval(s1.heap[o], j, u))
    requires CapturesKeep(s2, s3, t, o)
    ensures CapturesKeep(s, s3, t, o)
  {
  }

  lemma CapturedKeeps(s: State, s1: State, s2: State, s3: State, t: Ref, o: Ref, parent: Ref, caps: seq<Capture>, j: nat, u: Ref)
    requires CanCapture(s, t, o, parent, caps, j) && caps != [] && caps[0] in caps
    requires Captured(s, s1, t, parent, caps[0], u)
    requires o in s1.heap && s1.heap[o] == s.heap[o] && s2 == RawStore(s1, o, WithUpval(s1.heap[o], j, u))
    requires CapturesDone(s2, s3, t, o, parent, caps[1..], j + 1)
    ensures CapturesDone(s, s3, t, o, parent, caps, j)
  {
    StepKeeps(s, s1, s2, s3, t, o, parent, caps[0], j, u);
    hide CapturesKeep;
    assert s3.heap[o].refs[2 + j] == s3.heap[o].refs[..3 + j][2 + j] == Gc(u);
    assert s3.heap[o].refs[..2 + j] == s3.heap[o].refs[..3 + j][..2 + j];
    assert s2.heap[o].refs[..2 + j] == s2.heap[o].refs[..3 + j][..2 + j];
    assert Binds(s3.heap, t, o, parent, caps[0], j) by {
      assert CanCaptureOne(s, t, parent, caps[0]);
    }
    forall i | 0 <= i < |caps| ensures Binds(s3.heap, t, o, parent, caps[i], j + i) {
      if i > 0 {
        assert caps[i] == caps[1..][i - 1];
      }
    }
  }

  ghost predicate CanMakeClosure(s: State, t: Ref, r: Ref, env: Value, proto: Value, parent: Ref, caps: seq<Capture>, ra: nat) {
    && LiveThread(s, t) && r !in s.heap && r != parent && LiveValue(s, env) && LiveValue(s, proto)
    && ra < |s.heap[t].stack|
    && (forall c :: c in caps ==> CanCaptureOne(s, t, parent, c) && (c.Local? ==> c.cell != r))
    && (forall a, b :: 0 <= a < b < |caps| && caps[a].Local? && caps[b].Local? ==> caps[a].cell != caps[b].cell)
  }

  /** A closure whose upvalues have not been set. */
  function Unset(env: Value, proto: Value, n: nat): Obj {
    Closure([env, proto] + seq(n, _ => Prim(0)))
  }

  /** OP_CLOSURE up to the store in the stack. */
  ghost function ClosureBuilt(s: State, t: Ref, r: Ref, env: Value, proto: Value, parent: Ref, caps: seq<Capture>, ra: nat): State
    requires Inv(s) && CanMakeClosure(s, t, r, env, proto, parent, caps, ra)
  {
    hide Shape, Live, NeverBlack, PhaseOk;
    MakeClosureReady(s, t, r, env, proto, parent, caps, ra);
    CaptureAll(Alloc(s, r, Unset(env, proto, |caps|)), t, r, parent, caps, 0)
  }

  /** OP_CLOSURE: the closure goes to stack slot `ra`. */
  ghost function MakeClosure(s: State, t: Ref, r: Ref, env: Value, proto: Value, parent: Ref, caps: seq<Capture>, ra: nat): State
    requires Inv(s) && CanMakeClosure(s, t, r, env, proto, parent, caps, ra)
  {
    hide Inv;
    ClosureBuiltInv(s, t, r, env, proto, parent, caps, ra);
    var s2 := ClosureBuilt(s, t, r, env, proto, parent, caps, ra);
    SetThread(s2, t, s2.heap[t].globals, s2.heap[t].stack[ra := Gc(r)])
  }

  lemma MakeClosureReady(s: State, t: Ref, r: Ref, env: Value, proto: Value, parent: Ref, caps: seq<Capture>, ra: nat)
    requires Inv(s) && CanMakeClosure(s, t, r, env, proto, parent, caps, ra)
    ensures var s1 := Alloc(s, r, Unset(env, proto, |caps|));
            Inv(s1) && CanCapture(s1, t, r, parent, caps, 0)
  {
    hide StringsOk, RootListOk, UpvalsOk, Live, NeverBlack, PhaseOk;
    var obj := Unset(env, proto, |caps|);
    assert NewObj(s, r, obj);
    AllocInv(s, r, obj);
    var s1 := Alloc(s, r, obj);
    assert forall y :: y in s.heap ==> y in s1.heap && s1.heap[y] == s.heap[y] && (!Dead(s, y) ==> !Dead(s1, y));
    forall c | c in caps ensures CanCaptureOne(s1, t, parent, c) {
      assert CanCaptureOne(s, t, parent, c);
    }
  }

  lemma ClosureBuiltInv(s: State, t: Ref, r: Ref, env: Value, proto: Value, parent: Ref, caps: seq<Capture>, ra: nat)
    requires Inv(s) && CanMakeClosure(s, t, r, env, proto, parent, caps, ra)
    ensures var s2 := ClosureBuilt(s, t, r, env, proto, parent, caps, ra);
            && Inv(s2) && CapturesDone(Alloc(s, r, Unset(env, proto, |caps|)), s2, t, r, parent, caps, 0)
            && ra < |s2.heap[t].stack|
            && (forall i :: 0 <= i < |caps| ==> Binds(s2.heap, t, r, parent, caps[i], i))
            && r in s2.heap && s2.heap[r].Closure? && |s2.heap[r].refs| == 2 + |caps| && s2.heap[r].refs[..2] == [env, proto]
  {
    hide Shape, Live, NeverBlack, PhaseOk;
    MakeClosureReady(s, t, r, env, proto, parent, caps, ra);
    CaptureAllInv(Alloc(s, r, Unset(env, proto, |caps|)), t, r, parent, caps, 0);
  }

  /** OP_CLOSURE keeps the invariant, and each upvalue of the closure is the variable its capture names. */
  lemma MakeClosureInv(s: State, t: Ref, r: Ref, env: Value, proto: Value, parent: Ref, caps: seq<Capture>, ra: nat)
    requires Inv(s) && CanMakeClosure(s, t, r, env, proto, parent, caps, ra)
    ensures var s3 := MakeClosure(s, t, r, env, proto, parent, caps, ra);
            && Inv(s3)
            && r in s3.heap && s3.heap[r].Closure? && |s3.heap[r].refs| == 2 + |caps| && s3.heap[r].refs[..2] == [env, proto]
            && (forall i :: 0 <= i < |caps| ==> Binds(s3.heap, t, r, parent, caps[i], i))
            && t in s3.heap && s3.heap[t].Thread? && s3.heap[t].stack == s.heap[t].stack[ra := Gc(r)]
  {
    hide StringsOk, RootListOk, UpvalsOk, NeverBlack, PhaseOk;
    ClosureBuiltInv(s, t, r, env, proto, parent, caps, ra);
    var s2 := ClosureBuilt(s, t, r, env, proto, parent, caps, ra);
    StackStoreReady(s2, t, ra, Gc(r));
    SetThreadInv(s2, t, s2.heap[t].globals, s2.heap[t].stack[ra := Gc(r)]);
    BindsKept(s2, t, r, parent, caps, ra);
  }

  lemma BindsKept(s: State, t: Ref, o: Ref, parent: Ref, caps: seq<Capture>, ra: nat)
    requires t in s.heap && s.heap[t].Thread? && ra < |s.heap[t].stack|
    requires forall i :: 0 <= i < |caps| ==> Binds(s.heap, t, o, parent, caps[i], i)
    ensures var h := SetThread(s, t, s.heap[t].globals, s.heap[t].stack[ra := Gc(o)]).heap;
            forall i :: 0 <= i < |caps| ==> Binds(h, t, o, parent, caps[i], i)
  {
    var h := SetThread(s, t, s.heap[t].globals, s.heap[t].stack[ra := Gc(o)]).heap;
    forall i | 0 <= i < |caps| ensures Binds(h, t, o, parent, caps[i], i) {
      assert Binds(s.heap, t, o, parent, caps[i], i);
    }
  }

  /** Storing a live value in a slot of the stack is allowed at any time. */
  lemma StackStoreReady(s: State, t: Ref, i: nat, v: Value)
    requires Shape(s) && Live(s) && LiveThread(s, t) && i < |s.heap[t].stack| && LiveValue(s, v)
    ensures CanSetThread(s, t, s.heap[t].globals, s.heap[t].stack[i := v])
  {
    hide StringsOk, RootListOk;
    forall x | x in [s.heap[t].globals] + s.heap[t].stack ensures LiveValue(s, x) {
      if x.Gc? {
        assert Edge(s.heap, t, x.ref);
      }
    }
    assert forall u :: u in s.heap[t].open ==> OpenEntry(s.heap, t, u);
    forall x | x in s.heap[t].stack[i := v] ensures LiveValue(s, x) {
      if x != v {
        assert x in s.heap[t].stack;
      }
    }
    assert s.heap[t].globals in [s.heap[t].globals] + s.heap[t].stack;
  }

  // ---------------------------------------------------------------- luaF_close

  lemma CloseOneContent(s: State, t: Ref, u: Ref, v: Value)
    requires FirstOpen(s, t, u, v) && OpenListOk(s.heap, t) && SolidMarking(s)
    ensures ContentKept(s, CloseOne(s, t, u, v))
  {
    if s.phase == Propagate {
      CloseOneMarking(s, t, u, v);
    } else {
      CloseOneStep(s, t, u, v);
    }
  }

  lemma CloseOneMarking(s: State, t: Ref, u: Ref, v: Value)
    requires FirstOpen(s, t, u, v) && OpenListOk(s.heap, t) && SolidMarking(s) && s.phase == Propagate
    ensures ContentKept(s, CloseOne(s, t, u, v))
  {
    hide SolidMarking;
    CloseOneOpen(s, t, u, v);
    CloseCellSuccs(s, t, u, v);
    MarkingNoneDead(s);
    MarkingNoneDead(CloseOne(s, t, u, v));
  }

  lemma MarkingNoneDead(s: State)
    requires SolidMarking(s) && s.phase == Propagate
    ensures forall r :: !Dead(s, r)
  {
  }

  /** Live objects stay live and read the same. */
  ghost predicate ContentKept(s: State, t: State) {
    forall r :: r in s.heap && !Dead(s, r) ==> r in t.heap && !Dead(t, r) && SameContent(s.heap, t.heap, r)
  }

  lemma ContentKeptCompose(s: State, t: State, u: State)
    requires ContentKept(s, t) && ContentKept(t, u)
    ensures ContentKept(s, u)
  {
    forall r | r in s.heap && !Dead(s, r) ensures r in u.heap && !Dead(u, r) && SameContent(s.heap, u.heap, r) {
      assert SameContent(s.heap, t.heap, r) && SameContent(t.heap, u.heap, r);
    }
  }

  lemma {:induction false} CloseAllContent(s: State, t: Ref, level: nat)
    requires Inv(s) && t in s.heap && s.heap[t].Thread?
    ensures OpenListOk(s.heap, t) && SolidMarking(s) && ContentKept(s, CloseAll(s, t, level))
    decreases |s.heap[t].open|
  {
    hide Shape, Live, NeverBlack, PhaseOk;
    InvMarking(s, {});
    ThreadOk(s, t, {});
    if s.heap[t].open != [] {
      var u := s.heap[t].open[0];
      assert u in s.heap[t].open && OpenEntry(s.heap, t, u);
      if Level(s.heap, u) >= level {
        var v := s.heap[t].stack[Level(s.heap, u)];
        CloseOneInv(s, t, u, v, {});
        CloseOneOpen(s, t, u, v);
        CloseOneContent(s, t, u, v);
        CloseAllContent(CloseOne(s, t, u, v), t, level);
        ContentKeptCompose(s, CloseOne(s, t, u, v), CloseAll(s, t, level));
      }
    }
  }

  /**
  `luaF_close` is transparent: every live upvalue, open or closed before, reads
  the same value afterwards, and none of the thread is open at or above the level.
  */
  lemma CloseTransparent(s: State, t: Ref, level: nat)
    requires Inv(s) && t in s.heap && s.heap[t].Thread?
    ensures OpenListOk(s.heap, t) && SolidMarking(s)
    ensures var s1 := CloseAll(s, t, level);
            && Inv(s1)
            && (forall u :: u in s.heap && s.heap[u].Upval? && !Dead(s, u) ==>
                  u in s1.heap && s1.heap[u].Upval? && Succs(s1.heap, u) == Succs(s.heap, u))
            && (forall u :: u in s1.heap && OpenUpval(s1.heap[u]) && s1.heap[u].place.thread == t ==> Level(s1.heap, u) < level)
  {
    hide StringsOk, RootListOk, Live, NeverBlack, PhaseOk;
    CloseAllInv(s, t, level, {});
    CloseAllContent(s, t, level);
    var s1 := CloseAll(s, t, level);
    forall u | u in s.heap && s.heap[u].Upval? && !Dead(s, u)
      ensures u in s1.heap && s1.heap[u].Upval? && Succs(s1.heap, u) == Succs(s.heap, u)
    {
      assert SameContent(s.heap, s1.heap, u);
    }
    forall u | u in s1.heap && OpenUpval(s1.heap[u]) && s1.heap[u].place.thread == t ensures Level(s1.heap, u) < level {
      assert Owned(s1.heap, u);
    }
  }
}
