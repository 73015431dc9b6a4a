/**
The mark phase: `reallymarkobject`, `propagatemark`, `remarkupvals`, `markroot`
and `atomic`, as functions from state to state, with what each of them marks.
*/
module GcMark {
  import opened GcState

  /** Colours are kept for exactly the objects of the heap, and no reference dangles. */
  ghost predicate Solid(s: State) {
    && s.color.Keys == s.heap.Keys
    && forall a, b :: Edge(s.heap, a, b) ==> b in s.heap
  }

  ghost predicate ValuesIn(s: State, vs: seq<Value>) {
    forall b :: Gc(b) in vs ==> b in s.heap
  }

  ghost function WhiteSet(s: State): set<Ref> {
    set r | r in s.color && s.color[r].White?
  }

  /** Every object `r` leads to has been marked. */
  ghost predicate Settled(s: State, r: Ref) {
    forall b :: Edge(s.heap, r, b) ==> !IsWhite(s, b)
  }

  ghost predicate SameButMarks(s: State, t: State) {
    t == s.(color := t.color, gray := t.gray) && t.color.Keys == s.color.Keys
  }

  // -------------------------------------------------------- reallymarkobject

  /** `reallymarkobject`: a white object leaves white, and either waits in `gray` or is finished at once. */
  ghost function ReallyMark(s: State, r: Ref): (t: State)
    requires Solid(s) && IsWhite(s, r)
    ensures SameButMarks(s, t) && WhiteSet(t) < WhiteSet(s)
    decreases WhiteSet(s), 0
  {
    assert r in WhiteSet(s);
    var s1 := s.(color := s.color[r := Gray]);
    assert r !in WhiteSet(s1) && WhiteSet(s1) < WhiteSet(s);
    match s.heap[r]
    case Str(_) => s1
    case Udata(refs) =>
      var s2 := s.(color := s.color[r := Black]);
      assert r !in WhiteSet(s2) && WhiteSet(s2) < WhiteSet(s);
      assert forall b :: Gc(b) in refs ==> Edge(s.heap, r, b);
      MarkAll(s2, refs)
    case Upval(place) =>
      assert forall b :: Gc(b) in Succs(s.heap, r) ==> Edge(s.heap, r, b);
      var s2 := MarkAll(s1, Succs(s.heap, r));
      if place.Open? then s2 else
        var s3 := s2.(color := s2.color[r := Black]);
        assert WhiteSet(s3) <= WhiteSet(s2);
        s3
    case _ => s1.(gray := [r] + s.gray)
  }

  /** `markvalue` applied to each value in turn. */
  ghost function MarkAll(s: State, vs: seq<Value>): (t: State)
    requires Solid(s) && ValuesIn(s, vs)
    ensures SameButMarks(s, t) && WhiteSet(t) <= WhiteSet(s)
    decreases WhiteSet(s), 1 + |vs|
  {
    if vs == [] then s
    else if vs[0].Gc? && IsWhite(s, vs[0].ref) then
      MarkAll(ReallyMark(s, vs[0].ref), vs[1..])
    else MarkAll(s, vs[1..])
  }

  /** What marking leaves behind for an object it has just reached. */
  ghost predicate JustMarked(t: State, r: Ref)
    requires r in t.color && r in t.heap
  {
    match t.color[r]
    case White(_) => false
    case Black => Settled(t, r) && (t.heap[r].Udata? || (t.heap[r].Upval? && !OpenUpval(t.heap[r])))
    case Gray =>
      || t.heap[r].Str?
      || (OpenUpval(t.heap[r]) && Settled(t, r))
      || (Listed(t.heap[r]) && r in t.gray)
  }

  /** `t.gray` is `s.gray` with objects marked since pushed in front of it. */
  ghost predicate GrayGrown(s: State, t: State) {
    && |t.gray| >= |s.gray|
    && t.gray[|t.gray| - |s.gray|..] == s.gray
    && NoDup(t.gray[..|t.gray| - |s.gray|])
    && forall x :: x in t.gray[..|t.gray| - |s.gray|] ==>
         IsWhite(s, x) && x in t.color && t.color[x] == Gray && x in t.heap && Listed(t.heap[x])
  }

  /** The contract of every marking function. */
  ghost predicate MarkStep(s: State, t: State) {
    && SameButMarks(s, t)
    && (forall r :: r in s.color && !IsWhite(s, r) ==> t.color[r] == s.color[r])
    && (forall r :: IsWhite(s, r) && IsWhite(t, r) ==> t.color[r] == s.color[r])
    && (forall r :: IsWhite(s, r) && !IsWhite(t, r) ==> r in t.heap && JustMarked(t, r))
    && GrayGrown(s, t)
  }

  lemma MarkStepCompose(s: State, t: State, u: State)
    requires Solid(s) && MarkStep(s, t) && MarkStep(t, u)
    ensures MarkStep(s, u)
  {
    GrayGrownCompose(s, t, u);
    forall r | IsWhite(s, r) && !IsWhite(u, r) ensures r in u.heap && JustMarked(u, r) {
      if !IsWhite(t, r) {
        JustMarkedKept(t, u, r);
      }
    }
  }

  lemma JustMarkedKept(t: State, u: State, r: Ref)
    requires MarkStep(t, u) && r in t.heap && r in t.color && JustMarked(t, r)
    ensures JustMarked(u, r)
  {
    if r in t.gray {
      GrayKept(t, u, r);
    }
  }

  lemma GrayGrownCompose(s: State, t: State, u: State)
    requires MarkStep(s, t) && MarkStep(t, u)
    ensures GrayGrown(s, u)
  {
    var k := |u.gray| - |t.gray|;
    var j := |t.gray| - |s.gray|;
    var p, q := u.gray[..k], t.gray[..j];
    assert u.gray == p + t.gray && t.gray == q + s.gray;
    assert u.gray[..k + j] == p + q;
    assert u.gray[k + j..] == s.gray;
    assert forall x :: x in p ==> IsWhite(t, x) && IsWhite(s, x);
    assert forall x :: x in q ==> !IsWhite(t, x) && u.color[x] == Gray;
    NoDupConcat(p, q);
  }

  lemma NoDupConcat(p: seq<Ref>, q: seq<Ref>)
    requires NoDup(p) && NoDup(q) && forall x :: x in p ==> x !in q
    ensures NoDup(p + q)
  {
    forall i, j | 0 <= i < j < |p + q| ensures (p + q)[i] != (p + q)[j] {
      if i < |p| <= j {
        assert p[i] in p && q[j - |p|] in q;
      }
    }
  }

  lemma GrayKept(s: State, t: State, x: Ref)
    requires GrayGrown(s, t) && x in s.gray
    ensures x in t.gray
  {
    assert t.gray == t.gray[..|t.gray| - |s.gray|] + t.gray[|t.gray| - |s.gray|..];
  }

  lemma {:induction false} ReallyMarkStep(s: State, r: Ref)
    requires Solid(s) && IsWhite(s, r)
    ensures MarkStep(s, ReallyMark(s, r)) && !IsWhite(ReallyMark(s, r), r)
    decreases WhiteSet(s), 1
  {
    match s.heap[r] {
      case Str(_) =>
      case Udata(refs) => MarkUdataStep(s, r);
      case Upval(place) => MarkUpvalStep(s, r);
      case _ => MarkListedStep(s, r);
    }
  }

  lemma MarkListedStep(s: State, r: Ref)
    requires Solid(s) && IsWhite(s, r) && Listed(s.heap[r])
    ensures MarkStep(s, ReallyMark(s, r)) && !IsWhite(ReallyMark(s, r), r)
  {
    PushedStep(s, s.(color := s.color[r := Gray], gray := [r] + s.gray), r);
    hide MarkStep;
  }

  lemma PushedStep(s: State, t: State, r: Ref)
    requires IsWhite(s, r) && r in s.heap && Listed(s.heap[r])
    requires t == s.(color := s.color[r := Gray], gray := [r] + s.gray)
    ensures MarkStep(s, t) && !IsWhite(t, r)
  {
    assert t.gray[1..] == s.gray;
    assert t.gray[..1] == [r];
  }

  lemma {:induction false} MarkUdataStep(s: State, r: Ref)
    requires Solid(s) && IsWhite(s, r) && s.heap[r].Udata?
    ensures MarkStep(s, ReallyMark(s, r)) && !IsWhite(ReallyMark(s, r), r)
    decreases WhiteSet(s), 0
  {
    var s2 := s.(color := s.color[r := Black]);
    RecolourShrinks(s, s2, r);
    assert forall b :: Gc(b) in Succs(s.heap, r) ==> Edge(s.heap, r, b);
    MarkAllStep(s2, s.heap[r].refs);
    MarkedThrough(s, s2, ReallyMark(s, r), r);
  }

  lemma {:induction false} MarkUpvalStep(s: State, r: Ref)
    requires Solid(s) && IsWhite(s, r) && s.heap[r].Upval?
    ensures MarkStep(s, ReallyMark(s, r)) && !IsWhite(ReallyMark(s, r), r)
    decreases WhiteSet(s), 0
  {
    var s1 := s.(color := s.color[r := Gray]);
    RecolourShrinks(s, s1, r);
    assert forall b :: Gc(b) in Succs(s.heap, r) ==> Edge(s.heap, r, b);
    var s2 := MarkAll(s1, Succs(s.heap, r));
    MarkAllStep(s1, Succs(s.heap, r));
    UpvalMarked(s, s1, s2, r);
    assert ReallyMark(s, r) == FinishUpval(s2, r);
  }

  lemma RecolourShrinks(s: State, s1: State, r: Ref)
    requires IsWhite(s, r)
    requires s1 == s.(color := s.color[r := Gray]) || s1 == s.(color := s.color[r := Black])
    ensures WhiteSet(s1) < WhiteSet(s)
  {
    assert r in WhiteSet(s) && r !in WhiteSet(s1);
  }

  /** The last step for an upvalue: a closed one turns black. */
  ghost function FinishUpval(s: State, r: Ref): State
    requires r in s.heap && s.heap[r].Upval?
  {
    if s.heap[r].place.Open? then s else s.(color := s.color[r := Black])
  }

  lemma UpvalMarked(s: State, s1: State, s2: State, r: Ref)
    requires Solid(s) && IsWhite(s, r) && s.heap[r].Upval?
    requires s1 == s.(color := s.color[r := Gray])
    requires MarkStep(s1, s2)
    requires forall b :: Gc(b) in Succs(s.heap, r) ==> !IsWhite(s2, b)
    ensures MarkStep(s, FinishUpval(s2, r)) && !IsWhite(FinishUpval(s2, r), r)
  {
    MarkedThroughBut(s, s1, s2, r);
    assert Settled(s2, r);
    BlackenUpval(s, s2, FinishUpval(s2, r), r);
  }

  lemma BlackenUpval(s: State, s2: State, t: State, r: Ref)
    requires Solid(s) && IsWhite(s, r) && s.heap[r].Upval?
    requires MarkStepBut(s, s2, r) && s2.color[r] == Gray && Settled(s2, r)
    requires t == if s.heap[r].place.Open? then s2 else s2.(color := s2.color[r := Black])
    ensures MarkStep(s, t)
  {
    assert forall x :: IsWhite(t, x) <==> IsWhite(s2, x);
    forall x | IsWhite(s, x) && !IsWhite(t, x) ensures x in t.heap && JustMarked(t, x) {
      if x != r {
        assert JustMarked(s2, x);
      }
    }
    assert GrayGrown(s, t);
  }

  /** Like `MarkStep`, with nothing said of how `r` itself was left. */
  ghost predicate MarkStepBut(s: State, t: State, r: Ref) {
    && SameButMarks(s, t)
    && (forall x :: x in s.color && !IsWhite(s, x) ==> t.color[x] == s.color[x])
    && (forall x :: IsWhite(s, x) && IsWhite(t, x) ==> t.color[x] == s.color[x])
    && (forall x :: IsWhite(s, x) && x != r && !IsWhite(t, x) ==> x in t.heap && JustMarked(t, x))
    && GrayGrownBut(s, t, r)
  }

  /** Like `GrayGrown`, and `r` was not pushed. */
  ghost predicate GrayGrownBut(s: State, t: State, r: Ref) {
    GrayGrown(s, t) && r !in t.gray[..|t.gray| - |s.gray|]
  }

  /** The step from `s` to `t` when `r` alone is recoloured first and the rest follows from `s1`. */
  lemma MarkedThroughBut(s: State, s1: State, t: State, r: Ref)
    requires Solid(s) && IsWhite(s, r)
    requires s1 == s.(color := s.color[r := Gray]) || s1 == s.(color := s.color[r := Black])
    requires MarkStep(s1, t)
    ensures MarkStepBut(s, t, r) && t.color[r] == s1.color[r]
  {
    forall x | IsWhite(s, x) && x != r && !IsWhite(t, x) ensures x in t.heap && JustMarked(t, x) {
      assert IsWhite(s1, x);
    }
  }

  lemma MarkedThrough(s: State, s1: State, t: State, r: Ref)
    requires Solid(s) && IsWhite(s, r) && s.heap[r].Udata?
    requires s1 == s.(color := s.color[r := Black])
    requires MarkStep(s1, t)
    requires forall b :: Gc(b) in Succs(s.heap, r) ==> !IsWhite(t, b)
    ensures MarkStep(s, t) && !IsWhite(t, r)
  {
    MarkedThroughBut(s, s1, t, r);
    assert Settled(t, r);
  }

  lemma {:induction false} MarkAllStep(s: State, vs: seq<Value>)
    requires Solid(s) && ValuesIn(s, vs)
    ensures MarkStep(s, MarkAll(s, vs))
    ensures forall b :: Gc(b) in vs ==> !IsWhite(MarkAll(s, vs), b)
    decreases WhiteSet(s), 1 + |vs|
  {
    if vs == [] {
    } else {
      var s1 := if vs[0].Gc? && IsWhite(s, vs[0].ref) then ReallyMark(s, vs[0].ref) else s;
      if vs[0].Gc? && IsWhite(s, vs[0].ref) {
        ReallyMarkStep(s, vs[0].ref);
      }
      MarkAllStep(s1, vs[1..]);
      var t := MarkAll(s, vs);
      assert t == MarkAll(s1, vs[1..]);
      MarkStepCompose(s, s1, t);
      forall b | Gc(b) in vs ensures !IsWhite(t, b) {
        if Gc(b) != vs[0] {
          assert Gc(b) in vs[1..];
        }
      }
    }
  }

  /** Marking reaches nothing outside a set that is closed under edges. */
  lemma {:induction false} MarkAllBound(s: State, vs: seq<Value>, z: set<Ref>)
    requires Solid(s) && ValuesIn(s, vs)
    requires forall a, b :: a in z && Edge(s.heap, a, b) ==> b in z
    requires forall b :: Gc(b) in vs ==> b in z
    ensures WhiteSet(s) - WhiteSet(MarkAll(s, vs)) <= z
    decreases WhiteSet(s), 1 + |vs|
  {
    if vs != [] {
      if vs[0].Gc? && IsWhite(s, vs[0].ref) {
        var r := vs[0].ref;
        var s1 := ReallyMark(s, r);
        ReallyMarkBound(s, r, z);
        MarkAllBound(s1, vs[1..], z);
      } else {
        MarkAllBound(s, vs[1..], z);
      }
    }
  }

  lemma {:induction false} ReallyMarkBound(s: State, r: Ref, z: set<Ref>)
    requires Solid(s) && IsWhite(s, r) && r in z
    requires forall a, b :: a in z && Edge(s.heap, a, b) ==> b in z
    ensures WhiteSet(s) - WhiteSet(ReallyMark(s, r)) <= z
    decreases WhiteSet(s), 0
  {
    assert r in WhiteSet(s);
    assert forall b :: Gc(b) in Succs(s.heap, r) ==> Edge(s.heap, r, b);
    var s1 := s.(color := s.color[r := Gray]);
    assert WhiteSet(s1) == WhiteSet(s) - {r};
    match s.heap[r] {
      case Udata(refs) =>
        var s2 := s.(color := s.color[r := Black]);
        assert WhiteSet(s2) == WhiteSet(s) - {r};
        MarkAllBound(s2, refs, z);
      case Upval(place) =>
        MarkAllBound(s1, Succs(s.heap, r), z);
        if place.Closed? {
          var s2 := MarkAll(s1, Succs(s.heap, r));
          assert WhiteSet(s2.(color := s2.color[r := Black])) == WhiteSet(s2) - {r};
        }
      case _ =>
        assert WhiteSet(ReallyMark(s, r)) == WhiteSet(s) - {r};
    }
  }

  // ----------------------------------------------------------- propagatemark

  /**
  The gray lists are in order: every object on them is gray and of a kind that
  is traversed, and no object is on them twice, so the single `gclist` field of
  an object is never claimed by two list positions.
  */
  ghost predicate GrayReady(s: State) {
    && NoDup(s.gray)
    && NoDup(s.grayagain)
    && (forall x :: x in s.gray ==> x !in s.grayagain)
    && (forall i :: 0 <= i < |s.gray| ==> Waiting(s, s.gray[i]))
    && (forall i :: 0 <= i < |s.grayagain| ==> Waiting(s, s.grayagain[i]))
  }

  ghost predicate Waiting(s: State, x: Ref) {
    x in s.heap && x in s.color && s.color[x] == Gray && Listed(s.heap[x])
  }

  /** The state in which `propagatemark` starts to traverse the object it took. */
  ghost function TakeGray(s: State): State
    requires s.gray != [] && s.gray[0] in s.heap
  {
    var o := s.gray[0];
    if s.heap[o].Thread? then s.(gray := s.gray[1..], grayagain := [o] + s.grayagain)
    else s.(gray := s.gray[1..], color := s.color[o := Black])
  }

  /** `propagatemark`: traverse one gray object; a thread goes to `grayagain` and stays gray. */
  ghost function PropagateMark(s: State): State
    requires Solid(s) && GrayReady(s) && s.gray != []
  {
    var o := s.gray[0];
    assert forall b :: Gc(b) in Succs(s.heap, o) ==> Edge(s.heap, o, b);
    MarkAll(TakeGray(s), Succs(s.heap, o))
  }

  lemma PropagateMarkStep(s: State)
    requires Solid(s) && GrayReady(s) && s.gray != []
    ensures SameButMarks(TakeGray(s), PropagateMark(s))
    ensures MarkStep(TakeGray(s), PropagateMark(s)) && GrayReady(PropagateMark(s))
    ensures WhiteSet(TakeGray(s)) == WhiteSet(s)
    ensures forall r :: IsWhite(TakeGray(s), r) <==> IsWhite(s, r)
    ensures Settled(PropagateMark(s), s.gray[0])
    ensures WhiteSet(PropagateMark(s)) < WhiteSet(s)
            || (WhiteSet(PropagateMark(s)) == WhiteSet(s) && |PropagateMark(s).gray| < |s.gray|)
  {
    var o := s.gray[0];
    assert o in s.gray;
    var s1 := TakeGray(s);
    var t := PropagateMark(s);
    assert forall b :: Gc(b) in Succs(s.heap, o) ==> Edge(s.heap, o, b);
    MarkAllStep(s1, Succs(s.heap, o));
    TakeGrayWhites(s);
    GrayReadyKept(s1, t);
    MarkProgress(s1, t);
  }

  lemma TakeGrayWhites(s: State)
    requires GrayReady(s) && s.gray != []
    ensures GrayReady(TakeGray(s))
    ensures WhiteSet(TakeGray(s)) == WhiteSet(s)
    ensures forall r :: IsWhite(TakeGray(s), r) <==> IsWhite(s, r)
  {
    var o := s.gray[0];
    assert o in s.gray;
    assert forall x :: x in s.gray[1..] ==> x in s.gray && x != o;
    forall i, j | 0 <= i < j < |TakeGray(s).grayagain|
      ensures TakeGray(s).grayagain[i] != TakeGray(s).grayagain[j]
    {
      if i == 0 && s.heap[o].Thread? {
        assert TakeGray(s).grayagain[j] == s.grayagain[j - 1];
      }
    }
  }

  /** Marking either marks something or leaves the gray list alone. */
  lemma MarkProgress(s: State, t: State)
    requires MarkStep(s, t) && WhiteSet(t) <= WhiteSet(s)
    ensures WhiteSet(t) < WhiteSet(s) || (WhiteSet(t) == WhiteSet(s) && t.gray == s.gray)
  {
    if |t.gray| > |s.gray| {
      var x := t.gray[0];
      assert x in t.gray[..|t.gray| - |s.gray|];
      assert x in WhiteSet(s) && x !in WhiteSet(t);
    } else {
      assert t.gray[0..] == t.gray;
    }
  }

  lemma GrayReadyKept(s: State, t: State)
    requires GrayReady(s) && MarkStep(s, t)
    ensures GrayReady(t)
  {
    var p := t.gray[..|t.gray| - |s.gray|];
    assert t.gray == p + s.gray;
    NoDupConcat(p, s.gray);
  }

  lemma PropagateMarkShape(s: State)
    requires Solid(s) && GrayReady(s) && s.gray != []
    ensures SameButGray(s, PropagateMark(s)) && Solid(PropagateMark(s)) && GrayReady(PropagateMark(s))
    ensures WhiteSet(PropagateMark(s)) < WhiteSet(s)
            || (WhiteSet(PropagateMark(s)) == WhiteSet(s) && |PropagateMark(s).gray| < |s.gray|)
  {
    PropagateMarkStep(s);
  }

  /** Only marks and the two gray lists differ. */
  ghost predicate SameButGray(s: State, t: State) {
    t == s.(color := t.color, gray := t.gray, grayagain := t.grayagain) && t.color.Keys == s.color.Keys
  }

  /** `propagateall`. */
  ghost function PropagateAll(s: State): (t: State)
    requires Solid(s) && GrayReady(s)
    ensures SameButGray(s, t) && GrayReady(t) && t.gray == []
    decreases WhiteSet(s), |s.gray|
  {
    if s.gray == [] then s
    else
      PropagateMarkShape(s);
      PropagateAll(PropagateMark(s))
  }

  /** `remarkupvals` over the rest `q` of the `uvhead` list. */
  ghost function RemarkUpvals(s: State, q: seq<Ref>): (t: State)
    requires Solid(s) && forall x :: x in q ==> x in s.heap
    ensures SameButMarks(s, t)
    decreases q
  {
    if q == [] then s
    else
      assert q[0] in q;
      assert forall b :: Gc(b) in Succs(s.heap, q[0]) ==> Edge(s.heap, q[0], b);
      var s1 := if s.color[q[0]] == Gray then MarkAll(s, Succs(s.heap, q[0])) else s;
      RemarkUpvals(s1, q[1..])
  }

  lemma {:induction false} RemarkUpvalsStep(s: State, q: seq<Ref>)
    requires Solid(s) && forall x :: x in q ==> x in s.heap
    ensures MarkStep(s, RemarkUpvals(s, q))
    ensures forall x :: x in q && s.color[x] == Gray ==> Settled(RemarkUpvals(s, q), x)
    decreases q
  {
    if q == [] {
    } else {
      assert q[0] in q;
      assert forall b :: Gc(b) in Succs(s.heap, q[0]) ==> Edge(s.heap, q[0], b);
      var s1 := if s.color[q[0]] == Gray then MarkAll(s, Succs(s.heap, q[0])) else s;
      if s.color[q[0]] == Gray {
        MarkAllStep(s, Succs(s.heap, q[0]));
      }
      RemarkUpvalsStep(s1, q[1..]);
      var t := RemarkUpvals(s, q);
      assert t == RemarkUpvals(s1, q[1..]);
      MarkStepCompose(s, s1, t);
      forall x | x in q && s.color[x] == Gray ensures Settled(t, x) {
        if x != q[0] {
          assert x in q[1..];
        } else {
          assert Settled(s1, x);
        }
      }
    }
  }

  /** Every marked object is settled, waits in `gray`, or is in `x`. */
  ghost predicate Cover(s: State, x: set<Ref>) {
    forall r :: r in s.color && !IsWhite(s, r) ==> Settled(s, r) || r in s.gray || r in x
  }

  ghost predicate MarkedKept(s: State, t: State) {
    forall r :: r in s.color && !IsWhite(s, r) ==> r in t.color && !IsWhite(t, r)
  }

  lemma MarkStepCover(s: State, t: State, x: set<Ref>)
    requires Solid(s) && MarkStep(s, t) && Cover(s, x)
    ensures Cover(t, x) && MarkedKept(s, t)
  {
    forall r | r in t.color && !IsWhite(t, r) ensures Settled(t, r) || r in t.gray || r in x {
      if IsWhite(s, r) {
        assert JustMarked(t, r);
      } else if r in s.gray {
        GrayKept(s, t, r);
      }
    }
  }

  lemma PropagateMarkCover(s: State, x: set<Ref>)
    requires Solid(s) && GrayReady(s) && s.gray != [] && Cover(s, x)
    ensures Cover(PropagateMark(s), x) && MarkedKept(s, PropagateMark(s))
    ensures forall r :: r in s.grayagain ==> r in PropagateMark(s).grayagain
  {
    PropagateMarkStep(s);
    var o, s1, t := s.gray[0], TakeGray(s), PropagateMark(s);
    forall r | r in s1.color && !IsWhite(s1, r) && r != o
      ensures Settled(s1, r) || r in s1.gray || r in x
    {
      assert !IsWhite(s, r);
      if r in s.gray {
        assert r in s.gray[1..];
      }
    }
    assert Cover(s1, x + {o});
    MarkStepCover(s1, t, x + {o});
  }

  lemma {:induction false} PropagateAllCover(s: State, x: set<Ref>)
    requires Solid(s) && GrayReady(s) && Cover(s, x)
    ensures Cover(PropagateAll(s), x) && MarkedKept(s, PropagateAll(s))
    ensures forall r :: r in s.grayagain ==> r in PropagateAll(s).grayagain
    decreases WhiteSet(s), |s.gray|
  {
    if s.gray != [] {
      PropagateMarkShape(s);
      PropagateMarkCover(s, x);
      PropagateAllCover(PropagateMark(s), x);
    }
  }

  /** `markroot`: start a collection. */
  ghost function MarkRoot(s: State): (t: State)
    requires Solid(s) && ValuesIn(s, Roots(s)) && s.main in s.heap && s.heap[s.main].Thread?
    ensures t == s.(color := t.color, gray := t.gray, grayagain := [], phase := Propagate)
    ensures t.color.Keys == s.color.Keys
  {
    var s0 := s.(gray := [], grayagain := []);
    EarlyRootsIn(s);
    MarkAll(s0, EarlyRoots(s)).(phase := Propagate)
  }

  function EarlyRoots(s: State): seq<Value>
    requires s.main in s.heap && s.heap[s.main].Thread?
  {
    [Gc(s.main), s.heap[s.main].globals, s.registry] + s.mt
  }

  lemma EarlyRootsIn(s: State)
    requires Solid(s) && ValuesIn(s, Roots(s)) && s.main in s.heap && s.heap[s.main].Thread?
    ensures ValuesIn(s, EarlyRoots(s))
  {
    assert Gc(s.main) in Roots(s);
    forall b | Gc(b) in EarlyRoots(s) ensures b in s.heap {
      if Gc(b) == s.heap[s.main].globals {
        assert Edge(s.heap, s.main, b);
      } else {
        assert Gc(b) in Roots(s);
      }
    }
  }

  /** The running thread and the basic metatables, marked again in `atomic`. */
  function LateRoots(s: State): seq<Value> {
    [Gc(s.running)] + s.mt
  }

  /** What `atomic` needs: gray lists in order, none left in `gray`, no stale entry in `uvhead`. */
  ghost predicate AtomicReady(s: State) {
    && Solid(s) && GrayReady(s) && s.gray == []
    && ValuesIn(s, Roots(s))
    && (forall x :: x in s.uvhead ==> x in s.heap)
  }

  /** `atomic` up to the second traversal: open upvalues, running thread and metatables are marked. */
  ghost function AtomicMark(s: State): (t: State)
    requires AtomicReady(s)
    ensures SameButGray(s, t) && GrayReady(t) && t.gray == []
  {
    var s1 := RemarkUpvals(s, s.uvhead);
    RemarkUpvalsStep(s, s.uvhead);
    GrayReadyKept(s, s1);
    var s2 := PropagateAll(s1);
    assert forall b :: Gc(b) in LateRoots(s2) ==> Gc(b) in Roots(s);
    var s3 := MarkAll(s2, LateRoots(s2));
    MarkAllStep(s2, LateRoots(s2));
    GrayReadyKept(s2, s3);
    PropagateAll(s3)
  }

  /** `atomic` up to the flip: the `grayagain` list is traversed as well. */
  ghost function AtomicRemark(s: State): (t: State)
    requires AtomicReady(s)
    ensures SameButGray(s, t) && GrayReady(t) && t.gray == []
  {
    var s4 := AtomicMark(s);
    PropagateAll(s4.(gray := s4.grayagain, grayagain := []))
  }

  /** `atomic`: finish marking, then flip the current white and start the sweep. */
  ghost function Atomic(s: State): (t: State)
    requires AtomicReady(s)
  {
    AtomicRemark(s).(currentwhite := !s.currentwhite, sweepstr := 0, sweeppos := 0, phase := SweepString)
  }
}
