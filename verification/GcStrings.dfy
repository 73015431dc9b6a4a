/**
The string table: sweeping one bucket, resizing, and interning with the
resurrection of dead strings.
*/
module GcStrings {
  import opened GcState
  import opened GcMark
  import opened GcInvariant
  import opened GcSweep

  // ------------------------------------------------------- sweeping a bucket

  lemma SweepBucketInv(s: State)
    requires Inv(s) && s.phase == SweepString
    ensures Inv(AfterBucket(s)) && SweepStep(s, AfterBucket(s))
  {
    hide StringsOk, RootListOk, UpvalsOk, Live, NeverBlack, PhaseOk, SweepStep;
    BucketPhase(s);
    DeadInBucket(s, s.sweepstr);
    BucketStrings(s, s.sweepstr);
    BucketShape(s, s.sweepstr);
    BucketLive(s, s.sweepstr);
    AfterBucketSame(s);
  }

  /** One step of the string sweep: a bucket is swept, and after the last one the root list is next. */
  function AfterBucket(s: State): State
    requires s.sweepstr < |s.strt|
  {
    SweepBucket(s, s.sweepstr).(
      sweepstr := s.sweepstr + 1,
      phase := if s.sweepstr + 1 >= |s.strt| then Sweep else SweepString)
  }

  lemma DeadInBucket(s: State, i: nat)
    requires StringsOk(s) && i < |s.strt|
    ensures forall r :: r in DeadIn(s, s.strt[i]) ==> r in s.heap && s.heap[r].Str?
  {
  }

  lemma BucketStrings(s: State, i: nat)
    requires StringsOk(s) && i < |s.strt|
    ensures StringsOk(SweepBucket(s, i))
  {
    var dead := DeadIn(s, s.strt[i]);
    var t := SweepBucket(s, i);
    assert forall r :: r in t.heap ==> t.heap[r] == s.heap[r];
    assert forall r :: r in t.heap && t.heap[r].Str? ==> Bucket(t, t.heap[r].chars) == Bucket(s, s.heap[r].chars);
  }

  lemma BucketShape(s: State, i: nat)
    requires Shape(s) && i < |s.strt| && StringsOk(SweepBucket(s, i))
    requires forall r :: r in DeadIn(s, s.strt[i]) ==> r in s.heap && s.heap[r].Str?
    ensures Shape(SweepBucket(s, i))
  {
    hide StringsOk;
    DropStringsUpvals(s.heap, s.uvhead, DeadIn(s, s.strt[i]));
  }

  lemma DropStringsUpvals(h: Heap, uvhead: seq<Ref>, dead: set<Ref>)
    requires UpvalsOk(h, uvhead) && forall r :: r in dead ==> r in h && h[r].Str?
    ensures UpvalsOk(h - dead, uvhead)
  {
    var h2 := h - dead;
    forall w | w in h2 && h2[w].Thread? ensures OpenListOk(h2, w) {
      assert OpenListOk(h, w);
      assert forall y :: y in h[w].open ==> OpenEntry(h, w, y);
      assert h[w].open[0..] == h[w].open;
      LevelsFallKept(h, h2, h[w].open, 0);
    }
    forall y | y in h2 && OpenUpval(h2[y]) ensures Owned(h2, y) {
      assert Owned(h, y);
    }
  }

  lemma BucketLive(s: State, i: nat)
    requires s.color.Keys == s.heap.Keys && UpvalsOk(s.heap, s.uvhead) && i < |s.strt|
    requires forall r :: r in DeadIn(s, s.strt[i]) ==> r in s.heap && s.heap[r].Str?
    requires Live(s)
    ensures Live(SweepBucket(s, i)) && SweepStep(s, SweepBucket(s, i))
  {
    var t := SweepBucket(s, i);
    assert forall a :: a in t.heap ==> Succs(t.heap, a) == Succs(s.heap, a);
    forall a, b | a in t.heap && !Dead(t, a) && Gc(b) in Succs(t.heap, a) ensures Edge(s.heap, a, b) {}
    forall r | r in s.heap && !Dead(s, r) ensures r in t.heap && SameContent(s.heap, t.heap, r) {}
    LiveKept(s, t);
  }

  lemma BucketPhase(s: State)
    requires StringsOk(s) && s.color.Keys == s.heap.Keys && NeverBlack(s) && PhaseOk(s) && s.phase == SweepString
    ensures s.sweepstr < |s.strt| && NeverBlack(AfterBucket(s)) && PhaseOk(AfterBucket(s))
  {
    var t := AfterBucket(s);
    DeadInBucket(s, s.sweepstr);
    BucketWhites(s);
    forall i | 0 <= i < |t.grayagain| ensures Resting(t, t.grayagain[i]) {
      assert Resting(s, s.grayagain[i]);
    }
  }

  lemma BucketWhites(s: State)
    requires StringsOk(s) && s.color.Keys == s.heap.Keys && SweepingStrings(s)
    ensures var t := AfterBucket(s);
            && (forall i, r :: 0 <= i < t.sweepstr && r in t.strt[i] ==> CurrentWhite(t, r))
            && (t.phase == Sweep ==> forall r :: r in t.heap && t.heap[r].Str? ==> CurrentWhite(t, r))
  {
    var t := AfterBucket(s);
    assert forall r :: CurrentWhite(s, r) ==> CurrentWhite(t, r);
    forall i, r | 0 <= i < t.sweepstr && r in t.strt[i] ensures CurrentWhite(t, r) {
      if i == s.sweepstr {
        assert r in s.strt[i];
      }
    }
    forall r | t.phase == Sweep && r in t.heap && t.heap[r].Str? ensures CurrentWhite(t, r) {
      var i := Bucket(s, s.heap[r].chars);
      assert r in s.strt[i] && i < |s.strt|;
    }
  }

  /** Moving on to the next bucket or phase touches no object. */
  lemma AfterBucketSame(s: State)
    requires s.sweepstr < |s.strt|
    requires Shape(SweepBucket(s, s.sweepstr)) && Live(SweepBucket(s, s.sweepstr))
    requires SweepStep(s, SweepBucket(s, s.sweepstr))
    ensures Shape(AfterBucket(s)) && Live(AfterBucket(s)) && SweepStep(s, AfterBucket(s))
  {
    hide Shape, Live, SweepStep;
    var t, u := SweepBucket(s, s.sweepstr), AfterBucket(s);
    ShapePhase(t, u);
    MovedOn(s, t, u);
  }

  lemma MovedOn(s: State, t: State, u: State)
    requires Live(t) && SweepStep(s, t) && u == t.(phase := u.phase, sweepstr := u.sweepstr)
    ensures Live(u) && SweepStep(s, u)
  {
    assert forall r :: Dead(u, r) <==> Dead(t, r);
  }

  /** `nuse`: the number of strings in the table. */
  function Nuse(strt: seq<seq<Ref>>): nat {
    if strt == [] then 0 else |strt[0]| + Nuse(strt[1..])
  }

  // ---------------------------------------------------------------- resizing

  /** The inner loop of `luaS_resize`: move the strings of one old bucket. */
  ghost function Relink(s: State, q: seq<Ref>, nb: seq<seq<Ref>>): (r: seq<seq<Ref>>)
    requires |nb| > 0 && forall r :: r in q ==> r in s.heap && s.heap[r].Str?
    ensures |r| == |nb|
    decreases q
  {
    if q == [] then nb
    else
      assert q[0] in q;
      var i := s.hash(s.heap[q[0]].chars) % |nb|;
      Relink(s, q[1..], nb[i := [q[0]] + nb[i]])
  }

  /** The outer loop of `luaS_resize`, from old bucket `i`. */
  ghost function RelinkFrom(s: State, i: nat, nb: seq<seq<Ref>>): (r: seq<seq<Ref>>)
    requires StringsOk(s) && |nb| > 0 && i <= |s.strt|
    ensures |r| == |nb|
    decreases |s.strt| - i
  {
    if i == |s.strt| then nb
    else RelinkFrom(s, i + 1, Relink(s, s.strt[i], nb))
  }

  /** `luaS_resize`: nothing happens while the string table is being swept. */
  ghost function Resize(s: State, size: nat): State
    requires StringsOk(s) && size > 0
  {
    if s.phase == SweepString then s
    else s.(strt := RelinkFrom(s, 0, seq(size, _ => [])))
  }

  lemma {:induction false} NuseUpdate(strt: seq<seq<Ref>>, i: nat, b: seq<Ref>)
    requires i < |strt|
    ensures Nuse(strt[i := b]) == Nuse(strt) - |strt[i]| + |b|
  {
    if i > 0 {
      assert strt[i := b][1..] == strt[1..][i - 1 := b];
      NuseUpdate(strt[1..], i - 1, b);
    } else {
      assert strt[i := b][1..] == strt[1..];
    }
  }

  lemma {:induction false} NuseEmpty(q: seq<seq<Ref>>)
    requires forall i :: 0 <= i < |q| ==> q[i] == []
    ensures Nuse(q) == 0
  {
    if q != [] {
      NuseEmpty(q[1..]);
    }
  }

  lemma {:induction false} RelinkNuse(s: State, q: seq<Ref>, nb: seq<seq<Ref>>)
    requires |nb| > 0 && forall r :: r in q ==> r in s.heap && s.heap[r].Str?
    ensures Nuse(Relink(s, q, nb)) == Nuse(nb) + |q|
  {
    if q != [] {
      assert q[0] in q;
      var i := s.hash(s.heap[q[0]].chars) % |nb|;
      NuseUpdate(nb, i, [q[0]] + nb[i]);
      RelinkNuse(s, q[1..], nb[i := [q[0]] + nb[i]]);
    }
  }

  lemma {:induction false} RelinkFromNuse(s: State, i: nat, nb: seq<seq<Ref>>)
    requires StringsOk(s) && |nb| > 0 && i <= |s.strt|
    ensures Nuse(RelinkFrom(s, i, nb)) == Nuse(nb) + Nuse(s.strt[i..])
    decreases |s.strt| - i
  {
    if i < |s.strt| {
      assert s.strt[i] == s.strt[i..][0] && s.strt[i..][1..] == s.strt[i + 1..];
      RelinkNuse(s, s.strt[i], nb);
      RelinkFromNuse(s, i + 1, Relink(s, s.strt[i], nb));
    }
  }

  /** `nb` holds exactly the strings of `done`, each in its bucket, once. */
  ghost predicate Chained(s: State, nb: seq<seq<Ref>>, done: set<Ref>) {
    && |nb| > 0
    && (forall r :: r in done ==> r in s.heap && s.heap[r].Str? && r in nb[s.hash(s.heap[r].chars) % |nb|])
    && (forall i, r :: 0 <= i < |nb| && r in nb[i] ==> r in done && s.hash(s.heap[r].chars) % |nb| == i)
    && (forall i :: 0 <= i < |nb| ==> NoDup(nb[i]))
  }

  lemma {:induction false} RelinkChained(s: State, q: seq<Ref>, nb: seq<seq<Ref>>, done: set<Ref>)
    requires Chained(s, nb, done) && NoDup(q)
    requires forall r :: r in q ==> r in s.heap && s.heap[r].Str? && r !in done
    ensures Chained(s, Relink(s, q, nb), done + Members(q))
    decreases q
  {
    if q == [] {
      assert done + Members(q) == done;
    } else {
      assert q[0] in q;
      ChainOne(s, q[0], nb, done);
      var i := s.hash(s.heap[q[0]].chars) % |nb|;
      hide Chained;
      assert forall r :: r in q[1..] ==> r in q && r != q[0];
      RelinkChained(s, q[1..], nb[i := [q[0]] + nb[i]], done + {q[0]});
      assert done + Members(q) == done + {q[0]} + Members(q[1..]) by {
        assert forall r :: r in q <==> r == q[0] || r in q[1..];
      }
    }
  }

  lemma ChainOne(s: State, p: Ref, nb: seq<seq<Ref>>, done: set<Ref>)
    requires Chained(s, nb, done) && p in s.heap && s.heap[p].Str? && p !in done
    ensures var i := s.hash(s.heap[p].chars) % |nb|; Chained(s, nb[i := [p] + nb[i]], done + {p})
  {
    var i := s.hash(s.heap[p].chars) % |nb|;
    var nb1 := nb[i := [p] + nb[i]];
    assert p !in nb[i];
    forall k | 0 <= k < |nb1| ensures NoDup(nb1[k]) {
      assert NoDup(nb[k]);
    }
  }

  lemma {:induction false} RelinkFromChained(s: State, i: nat, nb: seq<seq<Ref>>, done: set<Ref>)
    requires StringsOk(s) && i <= |s.strt|
    requires Chained(s, nb, done)
    requires forall r :: r in done <==> r in s.heap && s.heap[r].Str? && Bucket(s, s.heap[r].chars) < i
    ensures Chained(s, RelinkFrom(s, i, nb), set r | r in s.heap && s.heap[r].Str?)
    decreases |s.strt| - i
  {
    if i == |s.strt| {
      assert done == set r | r in s.heap && s.heap[r].Str?;
    } else {
      var q := s.strt[i];
      RelinkChained(s, q, nb, done);
      forall r | r in s.heap && s.heap[r].Str? && Bucket(s, s.heap[r].chars) == i ensures r in q {}
      RelinkFromChained(s, i + 1, Relink(s, q, nb), done + Members(q));
    }
  }

  lemma ResizeStrings(s: State, size: nat)
    requires StringsOk(s) && size > 0
    ensures StringsOk(Resize(s, size))
  {
    if s.phase != SweepString {
      var nb := seq(size, _ => []);
      RelinkFromChained(s, 0, nb, {});
      var t := Resize(s, size);
      assert forall r :: r in t.heap && t.heap[r].Str? ==> Bucket(t, t.heap[r].chars) == s.hash(s.heap[r].chars) % |t.strt|;
    }
  }

  lemma ResizeInv(s: State, size: nat)
    requires Inv(s) && size > 0
    ensures Inv(Resize(s, size)) && SweepStep(s, Resize(s, size))
    ensures Resize(s, size) == s.(strt := Resize(s, size).strt)
  {
    hide StringsOk, UpvalsOk, RootListOk, Live, NeverBlack, PhaseOk, SweepStep;
    ResizeStrings(s, size);
    SweepStepSame(s);
    if s.phase != SweepString {
      var t := Resize(s, size);
      RootListSame(s, t, {});
      ResizedLive(s, t);
      ResizedPhase(s, t);
    }
  }

  lemma SweepStepSame(s: State)
    ensures SweepStep(s, s)
  {
    forall r | r in s.heap && !Dead(s, r) ensures r in s.heap && SameContent(s.heap, s.heap, r) {}
  }

  lemma ResizedLive(s: State, t: State)
    requires Live(s) && t == s.(strt := t.strt)
    ensures Live(t) && SweepStep(s, t)
  {
    assert forall r :: Dead(t, r) <==> Dead(s, r);
    forall r | r in s.heap && !Dead(s, r) ensures r in t.heap && SameContent(s.heap, t.heap, r) {}
  }

  lemma ResizedPhase(s: State, t: State)
    requires NeverBlack(s) && PhaseOk(s) && s.phase != SweepString && t == s.(strt := t.strt)
    ensures NeverBlack(t) && PhaseOk(t)
  {
    assert forall r :: CurrentWhite(t, r) <==> CurrentWhite(s, r);
    RestingSame(s, t);
    hide GrayIdle, TriColour;
  }

  lemma RestingSame(s: State, t: State)
    requires t == s.(strt := t.strt)
    ensures GrayIdle(s) ==> GrayIdle(t)
    ensures GrayReady(s) ==> GrayReady(t)
    ensures Sweeping(s) ==> Sweeping(t)
    ensures TriColour(s) ==> TriColour(t)
  {
    forall x ensures Resting(s, x) ==> Resting(t, x) {}
    forall x ensures Waiting(s, x) ==> Waiting(t, x) {}
    forall x ensures Swept(s, x) ==> Swept(t, x) {}
    forall x ensures Settled(s, x) ==> Settled(t, x) {}
  }

  // ---------------------------------------------------------------- interning

  const MAX_INT: int := 0x7fff_ffff

  /** The position in bucket `q` of the string `chars`, or the length of `q`. */
  ghost function Find(s: State, q: seq<Ref>, chars: string): (i: nat)
    requires forall x :: x in q ==> x in s.heap && s.heap[x].Str?
    ensures i <= |q|
    ensures i < |q| ==> s.heap[q[i]] == Str(chars)
    ensures i == |q| ==> forall x :: x in q ==> s.heap[x] != Str(chars)
  {
    if q == [] then 0
    else
      assert q[0] in q && forall x :: x in q ==> x == q[0] || x in q[1..];
      if s.heap[q[0]].chars == chars then 0 else 1 + Find(s, q[1..], chars)
  }

  /** `changewhite` on a dead string or upvalue found by a lookup. */
  function Resurrect(s: State, x: Ref): State {
    if x in s.color && s.color[x] == White(!s.currentwhite) then s.(color := s.color[x := White(s.currentwhite)])
    else s
  }

  /** `newlstr`, up to the growth of the table. */
  ghost function NewString(s: State, chars: string, r: Ref): State
    requires |s.strt| > 0
  {
    var h := Bucket(s, chars);
    s.(heap := s.heap[r := Str(chars)], color := s.color[r := White(s.currentwhite)],
       strt := s.strt[h := [r] + s.strt[h]])
  }

  /** `luaS_newlstr`: the state and the string it returns; `r` is the address a new string would get. */
  ghost function Intern(s: State, chars: string, r: Ref): (State, Ref)
    requires StringsOk(s) && r !in s.heap
  {
    var q := s.strt[Bucket(s, chars)];
    var i := Find(s, q, chars);
    if i < |q| then (Resurrect(s, q[i]), q[i])
    else
      NewStringStrings(s, chars, r);
      var t := NewString(s, chars, r);
      if Nuse(t.strt) > |t.strt| && |t.strt| <= MAX_INT / 2 then (Resize(t, |t.strt| * 2), r) else (t, r)
  }

  lemma NewStringStrings(s: State, chars: string, r: Ref)
    requires StringsOk(s) && r !in s.heap
    requires forall x :: x in s.strt[Bucket(s, chars)] ==> s.heap[x] != Str(chars)
    ensures StringsOk(NewString(s, chars, r))
  {
    NotInterned(s, chars);
    NewStringBuckets(s, chars, r);
  }

  /** A string is in the heap only if it is in its bucket. */
  lemma NotInterned(s: State, chars: string)
    requires StringsOk(s)
    requires forall x :: x in s.strt[Bucket(s, chars)] ==> s.heap[x] != Str(chars)
    ensures forall x :: x in s.heap ==> s.heap[x] != Str(chars)
  {
    forall x | x in s.heap ensures s.heap[x] != Str(chars) {
      if s.heap[x].Str? {
        assert x in s.strt[Bucket(s, s.heap[x].chars)];
      }
    }
  }

  lemma NewStringBuckets(s: State, chars: string, r: Ref)
    requires StringsOk(s) && r !in s.heap
    requires forall x :: x in s.heap ==> s.heap[x] != Str(chars)
    ensures StringsOk(NewString(s, chars, r))
  {
    var h, t := Bucket(s, chars), NewString(s, chars, r);
    assert forall x :: x in s.heap && s.heap[x].Str? ==> Bucket(t, s.heap[x].chars) == Bucket(s, s.heap[x].chars);
    assert Bucket(t, chars) == h && r !in s.strt[h];
    forall i, x | 0 <= i < |t.strt| && x in t.strt[i]
      ensures x in t.heap && t.heap[x].Str? && Bucket(t, t.heap[x].chars) == i
    {
      assert x == r || x in s.strt[i];
    }
    forall i | 0 <= i < |t.strt| ensures NoDup(t.strt[i]) {
      assert NoDup(s.strt[i]);
    }
  }

  /** A resurrected object is live again if what it leads to is. */
  lemma ResurrectInv(s: State, x: Ref)
    requires Inv(s) && x in s.heap && (s.heap[x].Str? || OpenUpval(s.heap[x]))
    requires forall b :: Edge(s.heap, x, b) ==> b in s.heap && !Dead(s, b)
    ensures Inv(Resurrect(s, x)) && !Dead(Resurrect(s, x), x)
  {
    hide StringsOk, RootListOk, UpvalsOk;
    var t := Resurrect(s, x);
    ShapeColour(s, t, {});
    if t != s {
      ResurrectPhase(s, x);
      ResurrectLive(s, x);
    }
  }

  lemma ResurrectLive(s: State, x: Ref)
    requires Live(s) && x in s.heap && x in s.color && s.color[x] == White(!s.currentwhite)
    requires forall b :: Edge(s.heap, x, b) ==> b in s.heap && !Dead(s, b)
    ensures Live(Resurrect(s, x))
  {
    var t := Resurrect(s, x);
    assert forall r :: Dead(t, r) ==> Dead(s, r);
    forall a, b | Edge(t.heap, a, b) && !Dead(t, a) ensures b in t.heap && !Dead(t, b) {
      assert Edge(s.heap, a, b);
    }
  }

  lemma ResurrectPhase(s: State, x: Ref)
    requires x in s.heap && s.color.Keys == s.heap.Keys && s.color[x] == White(!s.currentwhite)
    requires NeverBlack(s) && PhaseOk(s)
    ensures NeverBlack(Resurrect(s, x)) && PhaseOk(Resurrect(s, x))
  {
    var t := Resurrect(s, x);
    assert s.phase == SweepString || s.phase == Sweep;
    forall y ensures Resting(s, y) ==> Resting(t, y) {}
    forall y ensures CurrentWhite(s, y) ==> CurrentWhite(t, y) {}
    forall y ensures Swept(s, y) ==> Swept(t, y) {}
  }

  lemma NewStringInv(s: State, chars: string, r: Ref)
    requires Inv(s) && r !in s.heap && |s.strt| > 0 && StringsOk(NewString(s, chars, r))
    ensures Inv(NewString(s, chars, r))
  {
    hide StringsOk, RootListOk, UpvalsOk, Live, NeverBlack, PhaseOk;
    NewStringUpvals(s.heap, s.uvhead, chars, r);
    NewStringRoots(s, chars, r);
    NewStringLive(s, chars, r);
    NewStringPhase(s, chars, r);
  }

  lemma NewStringPhase(s: State, chars: string, r: Ref)
    requires UpvalsOk(s.heap, s.uvhead) && |s.strt| > 0 && s.color.Keys == s.heap.Keys && Live(s) && r !in s.heap
    requires NeverBlack(s) && PhaseOk(s)
    ensures NeverBlack(NewString(s, chars, r)) && PhaseOk(NewString(s, chars, r))
  {
    hide UpvalsOk, Live;
    if s.phase == Propagate {
      NewStringTri(s, chars, r);
    } else {
      NewStringIdle(s, chars, r);
    }
  }

  lemma NewStringRoots(s: State, chars: string, r: Ref)
    requires RootListOk(s, {}) && |s.strt| > 0 && r !in s.heap
    ensures RootListOk(NewString(s, chars, r), {})
  {
  }

  lemma NewStringUpvals(h: Heap, uvhead: seq<Ref>, chars: string, r: Ref)
    requires UpvalsOk(h, uvhead) && r !in h
    ensures UpvalsOk(h[r := Str(chars)], uvhead)
  {
    var h2 := h[r := Str(chars)];
    forall w | w in h2 && h2[w].Thread? ensures OpenListOk(h2, w) {
      assert OpenListOk(h, w);
      assert forall y :: y in h[w].open ==> OpenEntry(h, w, y);
      assert h[w].open[0..] == h[w].open;
      LevelsFallKept(h, h2, h[w].open, 0);
    }
    forall y | y in h2 && OpenUpval(h2[y]) ensures Owned(h2, y) {
      assert Owned(h, y);
    }
  }

  lemma NewStringSuccs(s: State, chars: string, r: Ref)
    requires UpvalsOk(s.heap, s.uvhead) && |s.strt| > 0 && r !in s.heap
    ensures var h := NewString(s, chars, r).heap;
            Succs(h, r) == [] && forall a :: a in s.heap ==> Succs(h, a) == Succs(s.heap, a)
  {
    forall a | a in s.heap ensures Succs(NewString(s, chars, r).heap, a) == Succs(s.heap, a) {
      if OpenUpval(s.heap[a]) {
        assert Owned(s.heap, a);
      }
    }
  }

  lemma NewStringLive(s: State, chars: string, r: Ref)
    requires UpvalsOk(s.heap, s.uvhead) && |s.strt| > 0 && s.color.Keys == s.heap.Keys && Live(s) && r !in s.heap
    ensures Live(NewString(s, chars, r))
  {
    var t := NewString(s, chars, r);
    NewStringSuccs(s, chars, r);
    assert forall b :: b in s.heap && !Dead(s, b) ==> b in t.heap && !Dead(t, b);
    forall a, b | Edge(t.heap, a, b) && !Dead(t, a) ensures b in t.heap && !Dead(t, b) {
      assert Edge(s.heap, a, b);
    }
  }

  lemma NewStringTri(s: State, chars: string, r: Ref)
    requires UpvalsOk(s.heap, s.uvhead) && |s.strt| > 0 && s.color.Keys == s.heap.Keys && Live(s) && r !in s.heap
    requires NeverBlack(s) && TriColour(s)
    ensures NeverBlack(NewString(s, chars, r)) && TriColour(NewString(s, chars, r))
  {
    NewStringSuccs(s, chars, r);
    GrownTri(s, NewString(s, chars, r), r);
  }

  lemma NewStringIdle(s: State, chars: string, r: Ref)
    requires |s.strt| > 0 && s.color.Keys == s.heap.Keys && r !in s.heap
    requires NeverBlack(s) && PhaseOk(s) && s.phase != Propagate
    ensures NeverBlack(NewString(s, chars, r)) && PhaseOk(NewString(s, chars, r))
  {
    var t := NewString(s, chars, r);
    forall y ensures Resting(s, y) ==> Resting(t, y) {}
    forall y ensures CurrentWhite(s, y) ==> CurrentWhite(t, y) {}
    forall i | 0 <= i < t.sweeppos && t.phase == Sweep ensures Swept(t, t.rootgc[i]) {
      assert Swept(s, s.rootgc[i]);
    }
  }

  /**
  Interning returns a live string with the characters asked for, and the one
  there was, dead or alive, if there was one; no other object changes.
  */
  lemma InternInv(s: State, chars: string, r: Ref)
    requires Inv(s) && r !in s.heap
    ensures var (t, x) := Intern(s, chars, r);
            && Inv(t)
            && x in t.heap && t.heap[x] == Str(chars) && !Dead(t, x)
            && (forall y :: y in s.heap && s.heap[y] == Str(chars) ==> y == x)
            && t.heap == s.heap[x := Str(chars)]
            && t == s.(heap := t.heap, color := t.color, strt := t.strt)
            && (forall y :: y in s.heap && !Dead(s, y) ==> !Dead(t, y))
  {
    hide RootListOk, UpvalsOk, Live, NeverBlack, PhaseOk;
    var q := s.strt[Bucket(s, chars)];
    var i := Find(s, q, chars);
    if i < |q| {
      InternFound(s, chars, q[i]);
    } else {
      NewStringStrings(s, chars, r);
      NotInterned(s, chars);
      InternNew(s, chars, r);
    }
  }

  lemma InternFound(s: State, chars: string, x: Ref)
    requires Inv(s) && x in s.heap && s.heap[x] == Str(chars)
    ensures var t := Resurrect(s, x);
            && Inv(t) && !Dead(t, x)
            && (forall y :: y in s.heap && s.heap[y] == Str(chars) ==> y == x)
            && s.heap == s.heap[x := Str(chars)]
            && t == s.(color := t.color)
            && (forall y :: y in s.heap && !Dead(s, y) ==> !Dead(t, y))
  {
    hide RootListOk, UpvalsOk, Live, NeverBlack, PhaseOk;
    ResurrectInv(s, x);
  }

  lemma InternNew(s: State, chars: string, r: Ref)
    requires Inv(s) && r !in s.heap && |s.strt| > 0 && StringsOk(NewString(s, chars, r))
    ensures var t := NewString(s, chars, r);
            && Inv(t) && Inv(Resize(t, |t.strt| * 2)) && !Dead(t, r) && !Dead(Resize(t, |t.strt| * 2), r)
            && Resize(t, |t.strt| * 2) == t.(strt := Resize(t, |t.strt| * 2).strt)
            && (forall y :: y in s.heap && !Dead(s, y) ==> !Dead(t, y) && !Dead(Resize(t, |t.strt| * 2), y))
  {
    hide StringsOk, RootListOk, UpvalsOk, Live, NeverBlack, PhaseOk;
    NewStringInv(s, chars, r);
    var t := NewString(s, chars, r);
    ResizeInv(t, |t.strt| * 2);
  }
}
