/**
The invariant of the collector and the mutator together, phase by phase.
*/
module GcInvariant {
  import opened GcState
  import opened GcMark

  // ----------------------------------------------------------- the structure

  /** The bucket of the string table a string belongs to, whatever the hash function is. */
  ghost function Bucket(s: State, chars: string): nat
    requires |s.strt| > 0
  {
    s.hash(chars) % |s.strt|
  }

  /** Strings live in the bucket of their hash, once each, and no two have the same characters. */
  ghost predicate StringsOk(s: State) {
    && |s.strt| > 0
    && (forall r :: r in s.heap && s.heap[r].Str? ==> r in s.strt[Bucket(s, s.heap[r].chars)])
    && (forall i, r :: 0 <= i < |s.strt| && r in s.strt[i] ==>
          r in s.heap && s.heap[r].Str? && Bucket(s, s.heap[r].chars) == i)
    && (forall i :: 0 <= i < |s.strt| ==> NoDup(s.strt[i]))
    && (forall a, b :: a in s.heap && b in s.heap && s.heap[a].Str? && s.heap[a] == s.heap[b] ==> a == b)
  }

  /**
  The `rootgc` list holds every object but strings and open upvalues, once.
  `x` holds the object that a sweep has unlinked and is about to free.
  */
  ghost predicate RootListOk(s: State, x: set<Ref>) {
    && NoDup(s.rootgc)
    && (forall r :: r in s.rootgc <==> r in s.heap && InRootList(s.heap[r]) && r !in x)
  }

  /** The stack level an open upvalue refers to. */
  function Level(h: Heap, u: Ref): nat
    requires u in h && OpenUpval(h[u])
  {
    h[u].place.level
  }

  /** `u` is an open upvalue of thread `t`, and its level is below the top of the stack. */
  ghost predicate OpenEntry(h: Heap, t: Ref, u: Ref)
    requires t in h && h[t].Thread?
  {
    u in h && OpenUpval(h[u]) && h[u].place.thread == t && h[u].place.level < |h[t].stack|
  }

  ghost predicate LevelsFall(h: Heap, q: seq<Ref>)
    requires forall u :: u in q ==> u in h && OpenUpval(h[u])
  {
    forall i, j :: 0 <= i < j < |q| ==> Level(h, q[i]) > Level(h, q[j])
  }

  /** The open list of a thread: its own open upvalues, by strictly decreasing level. */
  ghost predicate OpenListOk(h: Heap, t: Ref)
    requires t in h && h[t].Thread?
  {
    && (forall u :: u in h[t].open ==> OpenEntry(h, t, u))
    && LevelsFall(h, h[t].open)
  }

  /** Open upvalue `u` is on the open list of a thread that is in the heap. */
  ghost predicate Owned(h: Heap, u: Ref)
    requires u in h && OpenUpval(h[u])
  {
    var t := h[u].place.thread;
    t in h && h[t].Thread? && u in h[t].open
  }

  /** Every open upvalue is on the open list of its thread and on `uvhead`, once. */
  ghost predicate UpvalsOk(h: Heap, uvhead: seq<Ref>) {
    && (forall t :: t in h && h[t].Thread? ==> OpenListOk(h, t))
    && (forall u :: u in h && OpenUpval(h[u]) ==> Owned(h, u))
    && NoDup(uvhead)
    && (forall u :: u in uvhead <==> u in h && OpenUpval(h[u]))
  }

  ghost predicate Shape(s: State, x: set<Ref> := {}) {
    && s.color.Keys == s.heap.Keys
    && StringsOk(s)
    && RootListOk(s, x)
    && UpvalsOk(s.heap, s.uvhead)
    && s.main in s.heap && s.heap[s.main].Thread?
    && s.running in s.heap && s.heap[s.running].Thread?
    && s.main in s.fixed
    && (forall r :: r in s.fixed ==> r in s.heap && (s.heap[r].Str? || r == s.main))
  }

  // ------------------------------------------------------------- the colours

  /** Nothing that survives a sweep leads to anything that would not. */
  ghost predicate Live(s: State) {
    && (forall b :: Gc(b) in Roots(s) ==> b in s.heap && !Dead(s, b))
    && (forall a, b :: Edge(s.heap, a, b) && !Dead(s, a) ==> b in s.heap && !Dead(s, b))
  }

  predicate CurrentWhite(s: State, r: Ref) {
    r in s.color && s.color[r] == White(s.currentwhite)
  }

  ghost predicate NoOtherWhite(s: State) {
    forall r :: r in s.color ==> s.color[r] != White(!s.currentwhite)
  }

  /** Strings, threads and open upvalues are never black. */
  ghost predicate NeverBlack(s: State) {
    forall r :: r in s.heap && r in s.color && s.color[r] == Black ==>
      !s.heap[r].Str? && !s.heap[r].Thread? && !OpenUpval(s.heap[r])
  }

  /**
  During marking: black leads to no white, and gray is waiting, a string, or an
  open upvalue. `o` holds a black object whose barrier is about to run.
  */
  ghost predicate TriCore(s: State, o: set<Ref> := {}) {
    && NoOtherWhite(s)
    && GrayReady(s)
    && (forall r :: r in s.color && s.color[r] == Black && r !in o ==> Settled(s, r))
    && (forall r :: r in s.heap && r in s.color && s.color[r] == Gray ==>
          s.heap[r].Str? || OpenUpval(s.heap[r]) || r in s.gray || r in s.grayagain)
  }

  /** The main thread and the registry were marked first and are not marked again. */
  ghost predicate TriColour(s: State, o: set<Ref> := {}) {
    && TriCore(s, o)
    && !IsWhite(s, s.main)
    && (s.registry.Gc? ==> !IsWhite(s, s.registry.ref))
  }

  /** Outside marking no list is in use, though `grayagain` may hold objects left from it. */
  ghost predicate GrayIdle(s: State) {
    && s.gray == []
    && NoDup(s.grayagain)
    && (forall i :: 0 <= i < |s.grayagain| ==> Resting(s, s.grayagain[i]))
  }

  ghost predicate Resting(s: State, x: Ref) {
    x in s.heap && x in s.color && Listed(s.heap[x]) && (s.color[x] == Gray || CurrentWhite(s, x))
  }

  /** An object of `rootgc` that the sweep has passed: it, and the open upvalues of a thread, are current white. */
  ghost predicate Swept(s: State, r: Ref) {
    && CurrentWhite(s, r)
    && r in s.heap
    && (s.heap[r].Thread? ==> forall u :: u in s.heap[r].open ==> CurrentWhite(s, u))
  }

  ghost predicate SweepingStrings(s: State) {
    && GrayIdle(s)
    && s.sweeppos == 0
    && s.sweepstr < |s.strt|
    && (forall i, r :: 0 <= i < s.sweepstr && r in s.strt[i] ==> CurrentWhite(s, r))
  }

  ghost predicate Sweeping(s: State) {
    && GrayIdle(s)
    && s.sweeppos <= |s.rootgc|
    && (forall r :: r in s.heap && s.heap[r].Str? ==> CurrentWhite(s, r))
    && (forall i :: 0 <= i < s.sweeppos ==> Swept(s, s.rootgc[i]))
  }

  ghost predicate AllCurrent(s: State) {
    && GrayIdle(s)
    && (forall r :: r in s.heap ==> CurrentWhite(s, r))
  }

  ghost predicate PhaseOk(s: State) {
    match s.phase
    case Pause => AllCurrent(s)
    case Propagate => TriColour(s)
    case SweepString => SweepingStrings(s)
    case Sweep => Sweeping(s)
    case Finalize => AllCurrent(s)
  }

  ghost predicate Inv(s: State, x: set<Ref> := {}) {
    Shape(s, x) && Live(s) && NeverBlack(s) && PhaseOk(s)
  }

  // ---------------------------------------------------- first consequences

  /** What the mutator can reach is in the heap and is not going to be swept. */
  lemma ReachableIsLive(s: State, r: Ref)
    requires Live(s) && Reachable(s, r)
    ensures r in s.heap && !Dead(s, r)
  {
    var p :| PathTo(s, p, r);
    assert p[0] in s.heap && !Dead(s, p[0]);
    for i := 0 to |p| - 1
      invariant p[i] in s.heap && !Dead(s, p[i])
    {
      assert Edge(s.heap, p[i], p[i + 1]);
    }
  }

  lemma ThreadOk(s: State, t: Ref, x: set<Ref>)
    requires Shape(s, x) && t in s.heap && s.heap[t].Thread?
    ensures s.color.Keys == s.heap.Keys && OpenListOk(s.heap, t)
  {
  }

  /** While no object carries the other white, nothing in the heap dangles. */
  lemma NoDangling(s: State, x: set<Ref> := {})
    requires Shape(s, x) && Live(s) && NoOtherWhite(s)
    ensures Solid(s) && ValuesIn(s, Roots(s))
  {
  }

  /**
  Liveness carries over when survivors gain no successor and nothing that was
  live is lost.
  */
  lemma LiveKept(s: State, t: State)
    requires Live(s) && Roots(t) == Roots(s)
    requires forall a :: a in t.heap && !Dead(t, a) ==> a in s.heap && !Dead(s, a)
    requires forall a, b :: a in t.heap && !Dead(t, a) && Gc(b) in Succs(t.heap, a) ==> Edge(s.heap, a, b)
    requires forall b :: b in s.heap && !Dead(s, b) ==> b in t.heap && !Dead(t, b)
    ensures Live(t)
  {
    forall a, b | Edge(t.heap, a, b) && !Dead(t, a) ensures b in t.heap && !Dead(t, b) {
      assert Edge(s.heap, a, b);
    }
  }

  /** Marking what a black object leads to restores the three-colour invariant. */
  lemma TriCoreRestored(s: State, t: State, o: set<Ref>)
    requires Solid(s) && TriCore(s, o) && MarkStep(s, t)
    requires forall r :: r in o ==> Settled(t, r)
    ensures TriCore(t)
  {
    GrayReadyKept(s, t);
    MarkNoOther(s, t);
    forall r | r in t.color && t.color[r] == Black ensures Settled(t, r) {
      if IsWhite(s, r) {
        assert JustMarked(t, r);
      }
    }
    forall r | r in t.heap && r in t.color && t.color[r] == Gray
      ensures t.heap[r].Str? || OpenUpval(t.heap[r]) || r in t.gray || r in t.grayagain
    {
      if IsWhite(s, r) {
        assert JustMarked(t, r);
      } else if r in s.gray {
        GrayKept(s, t, r);
      }
    }
  }

  lemma TriColourRestored(s: State, t: State, o: set<Ref>)
    requires Solid(s) && TriColour(s, o) && MarkStep(s, t)
    requires forall r :: r in o ==> Settled(t, r)
    ensures TriColour(t)
  {
    TriCoreRestored(s, t, o);
  }

  lemma MarkNoOther(s: State, t: State)
    requires MarkStep(s, t) && NoOtherWhite(s)
    ensures NoOtherWhite(t)
  {
    forall r | r in t.color ensures t.color[r] != White(!t.currentwhite) {
      if IsWhite(s, r) && IsWhite(t, r) {
      } else if !IsWhite(s, r) {
      }
    }
  }

  lemma MarkNeverBlack(s: State, t: State)
    requires MarkStep(s, t) && NeverBlack(s)
    ensures NeverBlack(t)
  {
    forall r | r in t.heap && r in t.color && t.color[r] == Black
      ensures !t.heap[r].Str? && !t.heap[r].Thread? && !OpenUpval(t.heap[r])
    {
      if IsWhite(s, r) {
        assert JustMarked(t, r);
      }
    }
  }

  /** `t` is `s` with a new object `u`, current white, and no other change a traversal could see. */
  ghost predicate Grown(s: State, t: State, u: Ref) {
    && u !in s.heap
    && t.color == s.color[u := White(s.currentwhite)]
    && t.gray == s.gray && t.grayagain == s.grayagain && t.currentwhite == s.currentwhite
    && t.main == s.main && t.registry == s.registry
    && t.heap.Keys == s.heap.Keys + {u}
    && forall a :: a in s.heap ==>
         && Succs(t.heap, a) == Succs(s.heap, a)
         && (Listed(t.heap[a]) <==> Listed(s.heap[a])) && (t.heap[a].Str? <==> s.heap[a].Str?)
         && (OpenUpval(t.heap[a]) <==> OpenUpval(s.heap[a])) && (t.heap[a].Thread? <==> s.heap[a].Thread?)
  }

  /** A new object is white, and no black object leads to it. */
  lemma GrownTri(s: State, t: State, u: Ref)
    requires s.color.Keys == s.heap.Keys && Live(s) && NeverBlack(s) && TriColour(s) && Grown(s, t, u)
    ensures NeverBlack(t) && TriColour(t)
  {
    hide Live, NeverBlack, Settled, GrayReady, Grown;
    GrownNeverBlack(s, t, u);
    GrownGray(s, t, u);
    GrownMarks(s, t, u);
    forall x | x in t.color && t.color[x] == Black ensures Settled(t, x) {
      GrownSettled(s, t, u, x);
    }
  }

  lemma GrownGray(s: State, t: State, u: Ref)
    requires s.color.Keys == s.heap.Keys && GrayReady(s) && Grown(s, t, u)
    ensures GrayReady(t)
  {
    forall y ensures Waiting(s, y) ==> Waiting(t, y) {}
  }

  lemma GrownMarks(s: State, t: State, u: Ref)
    requires s.color.Keys == s.heap.Keys && Live(s) && TriColour(s) && Grown(s, t, u)
    ensures NoOtherWhite(t) && !IsWhite(t, t.main) && (t.registry.Gc? ==> !IsWhite(t, t.registry.ref))
    ensures forall r :: r in t.heap && r in t.color && t.color[r] == Gray ==>
              t.heap[r].Str? || OpenUpval(t.heap[r]) || r in t.gray || r in t.grayagain
  {
    hide GrayReady, Settled;
  }

  lemma GrownNeverBlack(s: State, t: State, u: Ref)
    requires s.color.Keys == s.heap.Keys && NeverBlack(s) && Grown(s, t, u)
    ensures NeverBlack(t)
  {
  }

  lemma GrownSettled(s: State, t: State, u: Ref, x: Ref)
    requires s.color.Keys == s.heap.Keys && Live(s) && TriColour(s) && Grown(s, t, u)
    requires x in t.color && t.color[x] == Black
    ensures Settled(t, x)
  {
    assert Settled(s, x);
    forall b | Edge(t.heap, x, b) ensures !IsWhite(t, b) {
      assert Edge(s.heap, x, b);
    }
  }

  /** The string table does not depend on other objects. */
  lemma SameStrings(s: State, t: State)
    requires StringsOk(s) && t.strt == s.strt && t.hash == s.hash
    requires forall x :: x in t.heap && t.heap[x].Str? <==> x in s.heap && s.heap[x].Str?
    requires forall x :: x in s.heap && s.heap[x].Str? ==> t.heap[x] == s.heap[x]
    ensures StringsOk(t)
  {
    assert forall x :: x in s.heap && s.heap[x].Str? ==> Bucket(t, s.heap[x].chars) == Bucket(s, s.heap[x].chars);
  }
}
