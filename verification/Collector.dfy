/**
The collector as the program runs it: one object whose fields `lgc.c` and
`lfunc.c` update in place. Every method is proved to do what the function of the
same name in the modules above does to the state as a value, so the theorems
about those functions are theorems about these methods.
*/
module Collector {
  import opened GcState
  import opened GcMark
  import opened GcInvariant
  import opened GcSweep
  import opened GcStrings
  import opened GcCollect
  import opened GcAtomic
  import opened GcStep
  import opened GcMutator
  import opened GcClosures
  import opened GcRun

  class Global {
    var heap: Heap
    var color: map<Ref, Color>
    var fixed: set<Ref>
    var rootgc: seq<Ref>
    var strt: seq<seq<Ref>>
    var nuse: int
    var uvhead: seq<Ref>
    var gray: seq<Ref>
    var grayagain: seq<Ref>
    var phase: Phase
    var currentwhite: bool
    var sweepstr: nat
    var sweeppos: nat
    var main: Ref
    var running: Ref
    var registry: Value
    var mt: seq<Value>
    const hash: string -> nat

    /** The fields as one value. */
    ghost function View(): State
      reads this
    {
      State(heap, color, fixed, rootgc, strt, uvhead, gray, grayagain, phase, currentwhite,
            sweepstr, sweeppos, main, running, registry, mt, hash)
    }

    /** The count of strings is right. */
    ghost predicate Counted()
      reads this
    {
      nuse == Nuse(strt)
    }

    /** `lua_newstate`, with the tables `f_luaopen` adds. */
    constructor (h: string -> nat)
      ensures View() == Initial(h) && Counted()
    {
      heap := map[0 := Thread(Gc(1), [Prim(0)], []), 1 := Table([]), 2 := Table([])];
      color := map[0 := White(false), 1 := White(false), 2 := White(false)];
      fixed := {0};
      rootgc := [2, 1, 0];
      strt := seq(MINSTRTABSIZE, _ => []);
      nuse := 0;
      uvhead, gray, grayagain := [], [], [];
      phase, currentwhite := Pause, false;
      sweepstr, sweeppos, main, running := 0, 0, 0, 0;
      registry := Gc(2);
      mt := seq(NUM_TAGS, _ => Prim(0));
      hash := h;
      new;
      NuseEmpty(strt);
      assert strt == Initial(h).strt && mt == Initial(h).mt;
    }

    // ---------------------------------------------------------------- marking

    /** `reallymarkobject`. */
    method ReallyMarkObject(o: Ref)
      requires Solid(View()) && IsWhite(View(), o)
      modifies this`color, this`gray
      ensures View() == ReallyMark(old(View()), o)
      decreases WhiteSet(View()), 0
    {
      hide MarkAll, ReallyMark;
      ghost var s := View();
      MarkedObject(s, o);
      color := color[o := Gray];
      match heap[o] {
        case Str(_) =>
        case Udata(refs) =>
          color := color[o := Black];
          assert color == s.color[o := Black];
          MarkValues(refs);
        case Upval(place) =>
          MarkValues(Succs(heap, o));
          if place.Closed? {
            color := color[o := Black];
          }
        case _ => gray := [o] + gray;
      }
    }

    /** `markvalue` on each of a list of values. */
    method MarkValues(vs: seq<Value>)
      requires Solid(View()) && ValuesIn(View(), vs)
      modifies this`color, this`gray
      ensures View() == MarkAll(old(View()), vs)
      decreases WhiteSet(View()), 1 + |vs|
    {
      var i := 0;
      while i < |vs|
        invariant 0 <= i <= |vs|
        invariant Solid(View()) && ValuesIn(View(), vs[i..]) && WhiteSet(View()) <= WhiteSet(old(View()))
        invariant MarkAll(View(), vs[i..]) == MarkAll(old(View()), vs)
      {
        assert vs[i] == vs[i..][0] && vs[i..][1..] == vs[i + 1..];
        assert vs[i] in vs[i..];
        if vs[i].Gc? && color[vs[i].ref].White? {
          ReallyMarkObject(vs[i].ref);
        }
        i := i + 1;
      }
      assert vs[i..] == [];
    }

    /** `propagatemark`. */
    method PropagateOne()
      requires Solid(View()) && GrayReady(View()) && gray != []
      modifies this`color, this`gray, this`grayagain
      ensures View() == PropagateMark(old(View()))
    {
      var o := gray[0];
      assert Waiting(View(), o);
      assert forall b :: Gc(b) in Succs(heap, o) ==> Edge(heap, o, b);
      color := color[o := Black];
      gray := gray[1..];
      if heap[o].Thread? {
        grayagain := [o] + grayagain;
        color := color[o := Gray];
        assert color == old(color);
      }
      assert View() == TakeGray(old(View()));
      MarkValues(Succs(heap, o));
    }

    /** `propagateall`. */
    method PropagateGray()
      requires Solid(View()) && GrayReady(View())
      modifies this`color, this`gray, this`grayagain
      ensures View() == PropagateAll(old(View()))
    {
      while gray != []
        invariant Solid(View()) && GrayReady(View())
        invariant PropagateAll(View()) == PropagateAll(old(View()))
        decreases WhiteSet(View()), |gray|
      {
        PropagateMarkShape(View());
        PropagateOne();
      }
    }

    /** `remarkupvals`. */
    method RemarkUpvalues()
      requires Solid(View()) && forall x :: x in uvhead ==> x in heap
      modifies this`color, this`gray
      ensures View() == RemarkUpvals(old(View()), uvhead)
    {
      var i := 0;
      while i < |uvhead|
        invariant 0 <= i <= |uvhead|
        invariant SameButMarks(old(View()), View()) && Solid(View())
        invariant RemarkUpvals(View(), uvhead[i..]) == RemarkUpvals(old(View()), uvhead)
      {
        var u := uvhead[i];
        assert u in uvhead && u == uvhead[i..][0] && uvhead[i..][1..] == uvhead[i + 1..];
        assert forall b :: Gc(b) in Succs(heap, u) ==> Edge(heap, u, b);
        if color[u] == Gray {
          MarkValues(Succs(heap, u));
        }
        i := i + 1;
      }
      assert uvhead[i..] == [];
    }

    /** `markroot`. */
    method MarkRoots()
      requires Solid(View()) && ValuesIn(View(), Roots(View())) && main in heap && heap[main].Thread?
      modifies this`color, this`gray, this`grayagain, this`phase
      ensures View() == MarkRoot(old(View()))
    {
      EarlyRootsIn(View());
      gray := [];
      grayagain := [];
      MarkValues([Gc(main), heap[main].globals, registry] + mt);
      phase := Propagate;
    }

    /** `atomic`, as far as the traversal of `grayagain`. */
    method AtomicFirstHalf()
      requires AtomicReady(View())
      modifies this`color, this`gray, this`grayagain
      ensures View() == AtomicMark(old(View()))
    {
      ghost var s := View();
      RemarkUpvalsStep(s, uvhead);
      GrayReadyKept(s, RemarkUpvals(s, uvhead));
      RemarkUpvalues();
      PropagateGray();
      assert forall b :: Gc(b) in LateRoots(View()) ==> Gc(b) in Roots(s);
      MarkAllStep(View(), LateRoots(View()));
      GrayReadyKept(View(), MarkAll(View(), LateRoots(View())));
      MarkValues([Gc(running)] + mt);
      PropagateGray();
    }

    /** `atomic`, as far as the flip of the current white. */
    method AtomicTraversals()
      requires AtomicReady(View())
      modifies this`color, this`gray, this`grayagain
      ensures View() == AtomicRemark(old(View()))
    {
      hide Solid, GrayReady, AtomicReady;
      AgainReady(View());
      AtomicFirstHalf();
      gray := grayagain;
      grayagain := [];
      PropagateGray();
    }

    /** `atomic`. */
    method AtomicStep()
      requires AtomicReady(View())
      modifies this`color, this`gray, this`grayagain, this`phase, this`currentwhite, this`sweepstr, this`sweeppos
      ensures View() == Atomic(old(View()))
    {
      hide Solid, GrayReady, AtomicReady, AtomicRemark;
      AtomicTraversals();
      currentwhite := !currentwhite;
      sweepstr := 0;
      sweeppos := 0;
      phase := SweepString;
    }

    // --------------------------------------------------------------- sweeping

    /** `sweepwholelist` on a bucket: unlink and free the dead strings, whiten the others. */
    method SweepStrings(i: nat)
      requires i < |strt| && NoDup(strt[i]) && Counted()
      requires forall r :: r in strt[i] ==> r in heap && r in color
      modifies this`heap, this`color, this`strt, this`nuse
      ensures View() == SweepBucket(old(View()), i) && Counted()
    {
      hide Whiten, DeadIn, Nuse, Keep;
      ghost var s := View();
      var q := strt[i];
      ghost var dead := DeadIn(s, q);
      SweepNone(s, q);
      var kept := [];
      var j := 0;
      while j < |q|
        invariant 0 <= j <= |q|
        invariant strt == s.strt && kept == Keep(q[..j], dead)
        invariant heap == s.heap - DeadIn(s, q[..j])
        invariant color == Whiten(s, q[..j], DeadIn(s, q[..j]))
        invariant nuse == old(nuse) - (j - |kept|)
      {
        var curr := q[j];
        SweepRound(s, q, j);
        if color[curr] == White(!currentwhite) && curr !in fixed {
          heap := heap - {curr};
          color := color - {curr};
          nuse := nuse - 1;
        } else {
          color := color[curr := White(currentwhite)];
          kept := kept + [curr];
        }
        j := j + 1;
      }
      assert q[..j] == q;
      NuseUpdate(strt, i, kept);
      strt := strt[i := kept];
    }

    /** `sweepwholelist` on the open upvalues of thread `t`, with `luaF_freeupval` for the dead ones. */
    method SweepOpenList(t: Ref)
      requires t in heap && heap[t].Thread? && NoDup(heap[t].open)
      requires forall r :: r in heap[t].open ==> r in heap && r in color && r !in fixed && r != t
      modifies this`heap, this`color, this`uvhead
      ensures View() == SweepOpen(old(View()), t)
    {
      hide Whiten, DeadIn, SweepOpen, Keep;
      ghost var s := View();
      var q := heap[t].open;
      ghost var dead := DeadIn(s, q);
      SweepNone(s, q);
      KeepNothing(uvhead);
      assert DeadIn(s, q[..0]) == {} by {
        DeadInNone(s, q);
      }
      var kept := [];
      var j := 0;
      while j < |q|
        invariant 0 <= j <= |q|
        invariant kept == Keep(q[..j], dead)
        invariant heap == s.heap - DeadIn(s, q[..j])
        invariant color == Whiten(s, q[..j], DeadIn(s, q[..j]))
        invariant uvhead == Keep(s.uvhead, DeadIn(s, q[..j]))
      {
        var curr := q[j];
        SweepRound(s, q, j);
        UvheadRound(s, q, j);
        if color[curr] == White(!currentwhite) {
          heap := heap - {curr};
          color := color - {curr};
          uvhead := Keep(uvhead, {curr});
        } else {
          color := color[curr := White(currentwhite)];
          kept := kept + [curr];
        }
        j := j + 1;
      }
      assert q[..j] == q;
      SweepOpenFinal(s, t);
      assert heap[t] == s.heap[t];
      heap := heap[t := heap[t].(open := kept)];
    }

    // ------------------------------------------------------------ luaF_close

    /** `luaC_linkupval`. */
    method LinkUpval(u: Ref, v: Value)
      requires u in color && (phase == Propagate ==> Solid(View()) && ValuesIn(View(), [v]))
      modifies this`color, this`gray, this`rootgc, this`sweeppos
      ensures View() == ColourClosed(LinkRoot(old(View()), u), u, v)
    {
      rootgc := [u] + rootgc;
      sweeppos := if sweeppos > 0 then sweeppos + 1 else 0;
      if color[u] == Gray {
        if phase == Propagate {
          color := color[u := Black];
          MarkValues([v]);
        } else {
          color := color[u := White(currentwhite)];
        }
      }
    }

    /** `luaF_close`; `x` names the thread when it has been unlinked to be freed. */
    method CloseUpvals(t: Ref, level: nat, ghost x: set<Ref>)
      requires Inv(View(), x) && x <= {t} && t in heap && heap[t].Thread?
      modifies this`heap, this`color, this`gray, this`rootgc, this`sweeppos, this`uvhead
      ensures OpenListOk(old(heap), t) && SolidMarking(old(View()))
      ensures View() == CloseAll(old(View()), t, level)
    {
      hide Shape, Live, NeverBlack, PhaseOk;
      InvMarking(View(), x);
      ThreadOk(View(), t, x);
      while heap[t].open != [] && Level(heap, heap[t].open[0]) >= level
        invariant Inv(View(), x) && t in heap && heap[t].Thread?
        invariant OpenListOk(heap, t) && SolidMarking(View())
        invariant heap[t].open != [] ==> OpenEntry(heap, t, heap[t].open[0])
        invariant CloseAll(View(), t, level) == CloseAll(old(View()), t, level)
        decreases |heap[t].open|
      {
        ghost var s := View();
        var u := heap[t].open[0];
        var v := heap[t].stack[Level(heap, u)];
        NotFixed(s, u, x);
        CloseOneInv(s, t, u, v, x);
        CloseOneOpen(s, t, u, v);
        CloseFirst(t, u, v);
        assert heap[t].open != [] ==> heap[t].open[0] in heap[t].open;
      }
    }

    /** One round of the loop in `luaF_close`. */
    method CloseFirst(t: Ref, u: Ref, v: Value)
      requires FirstOpen(View(), t, u, v) && OpenListOk(heap, t) && SolidMarking(View())
      requires u !in fixed
      modifies this`heap, this`color, this`gray, this`rootgc, this`sweeppos, this`uvhead
      ensures View() == CloseOne(old(View()), t, u, v)
    {
      hide OpenListOk, SolidMarking, Solid;
      ghost var s := View();
      CloseCellSolid(s, t, u, v);
      heap := heap[t := heap[t].(open := heap[t].open[1..])];
      if color[u] == White(!currentwhite) {
        uvhead := Keep(uvhead, {u});
        heap := heap - {u};
        color := color - {u};
        assert View() == FreeUpval(PopOpen(s, t), u);
      } else {
        uvhead := Keep(uvhead, {u});
        heap := heap[u := Upval(Closed(v))];
        ClosedReady(s, View(), t, u, v);
        LinkUpval(u, v);
      }
    }

    /** `freeobj` on an object the sweep has unlinked. */
    method FreeObject(c: Ref)
      requires Inv(View(), {c}) && c in heap
      modifies this`heap, this`color, this`gray, this`rootgc, this`sweeppos, this`uvhead
      ensures View() == FreeObj(old(View()), c)
    {
      hide Shape, Live, NeverBlack, PhaseOk;
      if heap[c].Thread? {
        CloseUpvals(c, 0, {c});
      }
      heap := heap - {c};
      color := color - {c};
    }

    /** One round of `sweeplist` on the root list. */
    method SweepRootObject()
      requires InSweep(View())
      modifies this`heap, this`color, this`gray, this`rootgc, this`sweeppos, this`uvhead
      ensures View() == SweepOne(old(View()))
    {
      hide Inv, SweepOne, SweepOpen, FreeObj;
      SweptObject(View());
      var curr := rootgc[sweeppos];
      if heap[curr].Thread? {
        OpenListFacts(View(), curr);
        SweepOpenList(curr);
      }
      ColourKnown(View(), curr);
      if color[curr] == White(!currentwhite) && curr !in fixed {
        rootgc := rootgc[..sweeppos] + rootgc[sweeppos + 1..];
        FreeObject(curr);
      } else {
        color := color[curr := White(currentwhite)];
        sweeppos := sweeppos + 1;
      }
    }

    /** `sweeplist` on the root list, at most `count` objects. */
    method SweepRootList(count: nat)
      requires Inv(View()) && phase == Sweep
      modifies this`heap, this`color, this`gray, this`rootgc, this`sweeppos, this`uvhead
      ensures View() == SweepRoots(old(View()), count)
    {
      hide Shape, Live, NeverBlack, PhaseOk, SweepOne, SweepStep;
      var n := count;
      while sweeppos < |rootgc| && n > 0
        invariant Inv(View()) && phase == Sweep
        invariant SweepRoots(View(), n) == SweepRoots(old(View()), count)
        decreases n
      {
        SweepOneInv(View());
        SweepRootObject();
        n := n - 1;
      }
    }

    // ------------------------------------------------------- the string table

    /** `luaS_resize`. */
    method ResizeTable(size: nat)
      requires StringsOk(View()) && size > 0 && Counted()
      modifies this`strt
      ensures View() == Resize(old(View()), size) && Counted()
    {
      if phase == SweepString {
        return;
      }
      ghost var s := View();
      ghost var empty := seq(size, _ => []);
      var newhash: seq<seq<Ref>> := seq(size, _ => []);
      var i := 0;
      while i < |strt|
        invariant View() == s && 0 <= i <= |strt| && |newhash| == size
        invariant RelinkFrom(s, i, newhash) == RelinkFrom(s, 0, empty)
      {
        newhash := MoveBucket(strt[i], newhash);
        i := i + 1;
      }
      NuseEmpty(empty);
      RelinkFromNuse(s, 0, empty);
      strt := newhash;
    }

    /** The inner loop of `luaS_resize`. */
    method MoveBucket(q: seq<Ref>, nb: seq<seq<Ref>>) returns (r: seq<seq<Ref>>)
      requires |nb| > 0 && forall x :: x in q ==> x in heap && heap[x].Str?
      ensures r == Relink(View(), q, nb)
    {
      r := nb;
      var j := 0;
      while j < |q|
        invariant 0 <= j <= |q| && |r| == |nb|
        invariant Relink(View(), q[j..], r) == Relink(View(), q, nb)
      {
        var p := q[j];
        assert p == q[j..][0] && q[j..][1..] == q[j + 1..];
        var h := hash(heap[p].chars) % |nb|;
        r := r[h := [p] + r[h]];
        j := j + 1;
      }
    }

    /** `luaS_newlstr` and `newlstr`; `r` is the address the allocator would return. */
    method InternString(chars: string, r: Ref) returns (x: Ref)
      requires StringsOk(View()) && color.Keys == heap.Keys && r !in heap && Counted()
      modifies this`heap, this`color, this`strt, this`nuse
      ensures (View(), x) == Intern(old(View()), chars, r) && Counted()
    {
      ghost var s := View();
      var h := hash(chars) % |strt|;
      var q := strt[h];
      hide Nuse;
      var j := 0;
      while j < |q|
        invariant 0 <= j <= |q| && View() == s
        invariant j + Find(s, q[j..], chars) == Find(s, q, chars)
      {
        assert q[j] in q && q[j] == q[j..][0] && q[j..][1..] == q[j + 1..];
        if heap[q[j]].chars == chars {
          x := q[j];
          if color[x] == White(!currentwhite) {
            color := color[x := White(currentwhite)];
          }
          return;
        }
        j := j + 1;
      }
      x := r;
      NewStringStrings(s, chars, r);
      AddString(chars, r);
    }

    /** `newlstr`. */
    method AddString(chars: string, r: Ref)
      requires |strt| > 0 && Counted() && StringsOk(NewString(View(), chars, r))
      modifies this`heap, this`color, this`strt, this`nuse
      ensures Counted()
      ensures var t := NewString(old(View()), chars, r);
              View() == if Nuse(t.strt) > |t.strt| && |t.strt| <= MAX_INT / 2 then Resize(t, |t.strt| * 2) else t
    {
      var h := hash(chars) % |strt|;
      heap := heap[r := Str(chars)];
      color := color[r := White(currentwhite)];
      NuseUpdate(strt, h, [r] + strt[h]);
      strt := strt[h := [r] + strt[h]];
      nuse := nuse + 1;
      assert View() == NewString(old(View()), chars, r);
      if nuse > |strt| && |strt| <= MAX_INT / 2 {
        ResizeTable(|strt| * 2);
      }
    }

    // -------------------------------------------------------------- the steps

    /** The `GCSsweep` case of `singlestep`, with `checkSizes`. */
    method SweepStepObjects()
      requires Inv(View()) && phase == Sweep && Counted()
      modifies this
      ensures View() == SweepStepRoots(old(View())) && Counted()
    {
      hide Shape, Live, NeverBlack, PhaseOk, SweepStep;
      SweepRootsInv(View(), GCSWEEPMAX);
      SweepRootList(GCSWEEPMAX);
      if sweeppos >= |rootgc| {
        StringTableOk(View());
        if nuse < |strt| / 4 && |strt| > MINSTRTABSIZE * 2 {
          ResizeTable(|strt| / 2);
        }
        phase := Finalize;
      }
    }

    /** `singlestep`. */
    method Step()
      requires Inv(View()) && Counted()
      modifies this
      ensures View() == SingleStep(old(View())) && Counted()
    {
      hide Shape, Live, NeverBlack, TriColour, SweepingStrings, Sweeping, AllCurrent;
      match phase {
        case Pause =>
          MarkRootReady(View());
          MarkRoots();
        case Propagate =>
          MarkingReady(View());
          if gray != [] {
            PropagateOne();
          } else {
            AtomicStart(View());
            AtomicStep();
          }
        case SweepString =>
          BucketReady(View());
          SweepStrings(sweepstr);
          sweepstr := sweepstr + 1;
          if sweepstr >= |strt| {
            phase := Sweep;
          }
        case Sweep => SweepStepObjects();
        case Finalize => phase := Pause;
      }
    }

    /** `luaC_fullgc`. */
    method FullCollection()
      requires Inv(View()) && Counted()
      modifies this
      ensures View() == FullGc(old(View())) && Counted()
    {
      hide Inv, SingleStep, WorkSet, Work, StartSweep;
      StartSweepInv(View());
      RunSweep(StartSweep(View()), Finalize);
      AbandonMarking();
      StepUntil(Finalize);
      MarkRootReady(View());
      MarkRoots();
      StepUntil(Pause);
    }

    /** The start of `luaC_fullgc`: a sweep will return every object to white. */
    method AbandonMarking()
      modifies this`sweepstr, this`sweeppos, this`gray, this`grayagain, this`phase
      ensures View() == StartSweep(old(View()))
    {
      if phase == Pause || phase == Propagate {
        sweepstr := 0;
        sweeppos := 0;
        gray := [];
        grayagain := [];
        phase := SweepString;
      }
    }

    /** The two loops of `luaC_fullgc`: step until the collector is in phase `goal`. */
    method StepUntil(goal: Phase)
      requires Inv(View()) && Counted()
      requires goal == Pause || (goal == Finalize && phase != Pause)
      modifies this
      ensures View() == RunTo(old(View()), goal) && Counted()
    {
      hide Inv, SingleStep, WorkSet, Work, Counted;
      while phase != goal
        invariant Inv(View()) && Counted()
        invariant goal == Pause || (goal == Finalize && phase != Pause)
        invariant RunTo(View(), goal) == RunTo(old(View()), goal)
        decreases Rank(phase), WorkSet(View()), Work(View())
      {
        SingleStepInv(View());
        SingleStepProgress(View());
        WorkNonNegative(View());
        WorkNonNegative(SingleStep(View()));
        StaysBusy(View());
        Step();
      }
    }

    // ------------------------------------------------------------ the mutator

    /** `luaC_link` and the insertion of userdata behind the main thread. */
    method NewObject(r: Ref, obj: Obj)
      modifies this`heap, this`color, this`rootgc, this`sweeppos
      ensures View() == Alloc(old(View()), r, obj)
    {
      var i := 0;
      if obj.Udata? {
        i := AfterMain(rootgc, main);
      }
      heap := heap[r := obj];
      color := color[r := White(currentwhite)];
      rootgc := rootgc[..i] + [r] + rootgc[i..];
      if sweeppos > i {
        sweeppos := sweeppos + 1;
      }
    }

    /** A store in a table, with `luaC_barriert` and `luaC_barrierback`. */
    method StoreInTable(o: Ref, obj: Obj, v: Value)
      requires Inv(View()) && CanStore(View(), o, obj, v)
      modifies this`heap, this`color, this`grayagain
      ensures View() == StoreTable(old(View()), o, obj, v)
    {
      hide Shape, Live, NeverBlack, PhaseOk;
      ghost var s := View();
      heap := heap[o := obj];
      StoreColours(s, o, obj, v);
      if v.Gc? && color[v.ref].White? && color[o] == Black {
        color := color[o := Gray];
        grayagain := [o] + grayagain;
      }
    }

    /** A store in another object, with `luaC_barrier` and `luaC_barrierf`. */
    method StoreInObject(o: Ref, obj: Obj, v: Value)
      requires Inv(View()) && CanStore(View(), o, obj, v)
      modifies this`heap, this`color, this`gray
      ensures View() == StoreField(old(View()), o, obj, v)
    {
      hide Shape, Live, NeverBlack, PhaseOk;
      ghost var s := View();
      RawStoreSolid(s, o, obj, v);
      StoreColours(s, o, obj, v);
      heap := heap[o := obj];
      if v.Gc? && color[v.ref].White? && color[o] == Black {
        if phase == Propagate {
          MarkValues([v]);
        } else {
          color := color[o := White(currentwhite)];
        }
      }
    }

    /** The walk of `luaF_findupval` along an open list, down to the first entry not above `level`. */
    method SearchOpen(q: seq<Ref>, level: nat) returns (k: nat)
      requires forall y :: y in q ==> y in heap && OpenUpval(heap[y])
      ensures k == Above(heap, q, level)
    {
      k := 0;
      while k < |q| && Level(heap, q[k]) >= level
        invariant 0 <= k <= |q|
        invariant forall y :: y in q[k..] ==> y in q
        invariant k + Above(heap, q[k..], level) == Above(heap, q, level)
      {
        assert q[k] in q && q[k] == q[k..][0] && q[k..][1..] == q[k + 1..];
        if Level(heap, q[k]) == level {
          break;
        }
        k := k + 1;
      }
      SearchEnds(heap, q, k, level);
    }

    /** `luaF_findupval`. */
    method FindUpvalue(t: Ref, level: nat, r: Ref) returns (u: Ref)
      requires CanFind(View(), t, level, r) && color.Keys == heap.Keys
      modifies this`heap, this`color, this`uvhead
      ensures (View(), u) == FindUpval(old(View()), t, level, r)
    {
      var q := heap[t].open;
      assert forall y :: y in q ==> OpenEntry(heap, t, y);
      hide OpenListOk, Above;
      var k := SearchOpen(q, level);
      if k < |q| && Level(heap, q[k]) == level {
        u := q[k];
        if color[u] == White(!currentwhite) {
          color := color[u := White(currentwhite)];
        }
      } else {
        u := r;
        AddOpenUpval(t, level, k, u);
      }
    }

    /** The end of `luaF_findupval`: a new upvalue at its place in the open list and first in `uvhead`. */
    method AddOpenUpval(t: Ref, level: nat, k: nat, u: Ref)
      requires t in heap && heap[t].Thread? && k <= |heap[t].open|
      modifies this`heap, this`color, this`uvhead
      ensures View() == OpenNew(old(View()), t, level, k, u)
    {
      var q := heap[t].open;
      heap := heap[t := heap[t].(open := q[..k] + [u] + q[k..])][u := Upval(Open(t, level))];
      color := color[u := White(currentwhite)];
      uvhead := [u] + uvhead;
    }
  }

  lemma SearchEnds(h: Heap, q: seq<Ref>, k: nat, level: nat)
    requires k <= |q| && forall u :: u in q ==> u in h && OpenUpval(h[u])
    requires k < |q| ==> Level(h, q[k]) <= level
    ensures forall u :: u in q[k..] ==> u in q
    ensures Above(h, q[k..], level) == 0
  {
    if k < |q| {
      assert q[k] == q[k..][0] && q[k] in q;
    }
  }

  lemma ColourKnown(s: State, c: Ref)
    requires Inv(s) && c in s.heap
    ensures c in s.color
  {
    hide StringsOk, RootListOk, UpvalsOk, Live, NeverBlack, PhaseOk;
  }

  lemma StringTableOk(s: State)
    requires Inv(s)
    ensures StringsOk(s) && s.color.Keys == s.heap.Keys
  {
    hide StringsOk, RootListOk, UpvalsOk, Live, NeverBlack, PhaseOk;
  }

  lemma StoreColours(s: State, o: Ref, obj: Obj, v: Value)
    requires Inv(s) && CanStore(s, o, obj, v)
    ensures o in s.heap && o in s.color && (v.Gc? ==> v.ref in s.color)
  {
    hide StringsOk, RootListOk, UpvalsOk, Live, NeverBlack, PhaseOk;
  }

  lemma MarkingReady(s: State)
    requires Inv(s) && s.phase == Propagate
    ensures Solid(s) && GrayReady(s)
  {
    NoDangling(s);
  }

  lemma BucketReady(s: State)
    requires Inv(s) && s.phase == SweepString
    ensures s.sweepstr < |s.strt| && NoDup(s.strt[s.sweepstr])
    ensures forall r :: r in s.strt[s.sweepstr] ==> r in s.heap && r in s.color
  {
    hide RootListOk, UpvalsOk, Live, NeverBlack, GrayIdle;
    assert NoDup(s.strt[s.sweepstr]);
  }

  /** What `reallymarkobject` makes of each kind of object. */
  lemma MarkedObject(s: State, o: Ref)
    requires Solid(s) && IsWhite(s, o)
    ensures s.heap[o].Str? ==> ReallyMark(s, o) == s.(color := s.color[o := Gray])
    ensures s.heap[o].Udata? ==>
      var s2 := s.(color := s.color[o := Black]);
      && Solid(s2) && ValuesIn(s2, s.heap[o].refs) && WhiteSet(s2) < WhiteSet(s)
      && ReallyMark(s, o) == MarkAll(s2, s.heap[o].refs)
    ensures s.heap[o].Upval? ==>
      var s1 := s.(color := s.color[o := Gray]);
      && Solid(s1) && ValuesIn(s1, Succs(s.heap, o)) && WhiteSet(s1) < WhiteSet(s)
      && ReallyMark(s, o) == FinishUpval(MarkAll(s1, Succs(s.heap, o)), o)
    ensures !s.heap[o].Str? && !s.heap[o].Udata? && !s.heap[o].Upval? ==>
      ReallyMark(s, o) == s.(color := s.color[o := Gray], gray := [o] + s.gray)
  {
    hide MarkAll;
    assert forall b :: Gc(b) in Succs(s.heap, o) ==> Edge(s.heap, o, b);
    RecolourShrinks(s, s.(color := s.color[o := Gray]), o);
    RecolourShrinks(s, s.(color := s.color[o := Black]), o);
  }

  /** What `sweeplist` makes of the next root object, once its open upvalues are swept. */
  lemma SweptObject(s: State)
    requires InSweep(s)
    ensures var c := s.rootgc[s.sweeppos];
            && c in s.heap
            && var s1 := if s.heap[c].Thread? then SweepOpen(s, c) else s;
            && InSweep(s1) && c in s1.heap && s1.rootgc == s.rootgc && s1.sweeppos == s.sweeppos
            && (Dead(s1, c) ==> Inv(Unlink(s1), {c}) && SweepOne(s) == FreeObj(Unlink(s1), c))
            && (!Dead(s1, c) ==> SweepOne(s) == Pass(s1, c))
  {
    hide Inv, SweepOpen, FreeObj;
    AtSweep(s);
    SweepOneOpen(s);
    var c := s.rootgc[s.sweeppos];
    UnlinkInv(if s.heap[c].Thread? then SweepOpen(s, c) else s);
  }

  lemma OpenListFacts(s: State, t: Ref)
    requires Inv(s) && t in s.heap && s.heap[t].Thread?
    ensures NoDup(s.heap[t].open)
    ensures forall r :: r in s.heap[t].open ==> r in s.heap && r in s.color && r !in s.fixed && r != t
  {
    hide StringsOk, RootListOk, Live, NeverBlack, PhaseOk;
    var q := s.heap[t].open;
    assert forall r :: r in q ==> OpenEntry(s.heap, t, r);
    forall i, j | 0 <= i < j < |q| ensures q[i] != q[j] {
      assert q[i] in q && q[j] in q;
      assert Level(s.heap, q[i]) > Level(s.heap, q[j]);
    }
  }

  lemma ClosedReady(s: State, s2: State, t: Ref, u: Ref, v: Value)
    requires FirstOpen(s, t, u, v) && SolidMarking(CloseCell(PopOpen(s, t), u, v))
    requires s2 == PopOpen(s, t).(heap := PopOpen(s, t).heap[u := Upval(Closed(v))], uvhead := Keep(s.uvhead, {u}))
    ensures s2.phase == Propagate ==> Solid(s2)
    ensures LinkRoot(s2, u) == CloseCell(PopOpen(s, t), u, v)
  {
    if s2.phase == Propagate {
      SolidKept(CloseCell(PopOpen(s, t), u, v), s2);
    }
  }

  lemma NotFixed(s: State, u: Ref, x: set<Ref>)
    requires Inv(s, x) && u in s.heap && s.heap[u].Upval?
    ensures u !in s.fixed
  {
    hide StringsOk, RootListOk, UpvalsOk, Live, NeverBlack, PhaseOk;
  }

  lemma DeadInNone(s: State, q: seq<Ref>)
    ensures DeadIn(s, q[..0]) == {}
  {
  }

  lemma UvheadRound(s: State, q: seq<Ref>, j: nat)
    requires j < |q|
    ensures var d, d2 := DeadIn(s, q[..j]), DeadIn(s, q[..j + 1]);
            Keep(s.uvhead, d2) == if Dead(s, q[j]) then Keep(Keep(s.uvhead, d), {q[j]}) else Keep(s.uvhead, d)
  {
    assert q[..j + 1] == q[..j] + [q[j]];
    var d, d2 := DeadIn(s, q[..j]), DeadIn(s, q[..j + 1]);
    assert d2 == if Dead(s, q[j]) then d + {q[j]} else d;
    KeepKeep(s.uvhead, d, {q[j]});
  }

  lemma {:induction false} KeepKeep(q: seq<Ref>, a: set<Ref>, b: set<Ref>)
    ensures Keep(Keep(q, a), b) == Keep(q, a + b)
  {
    if q != [] {
      KeepKeep(q[1..], a, b);
      if q[0] !in a {
        assert Keep(q, a)[1..] == Keep(q[1..], a);
      }
    }
  }

  lemma SweepOpenFinal(s: State, t: Ref)
    requires t in s.heap && s.heap[t].Thread? && t !in s.heap[t].open
    ensures t !in DeadIn(s, s.heap[t].open)
    ensures var q := s.heap[t].open; var dead := DeadIn(s, q);
            SweepOpen(s, t) == s.(heap := (s.heap - dead)[t := s.heap[t].(open := Keep(q, dead))],
                                  color := Whiten(s, q, dead), uvhead := Keep(s.uvhead, dead))
  {
  }

  lemma AgainReady(s: State)
    requires AtomicReady(s)
    ensures var s4 := AtomicMark(s);
            var s5 := s4.(gray := s4.grayagain, grayagain := []);
            Solid(s5) && GrayReady(s5)
  {
    var s4 := AtomicMark(s);
    var s5 := s4.(gray := s4.grayagain, grayagain := []);
    forall x ensures Waiting(s4, x) ==> Waiting(s5, x) {}
  }

  /** One round of `sweeplist`: what the prefix of the list up to and with position `j` amounts to. */
  lemma SweepRound(s: State, q: seq<Ref>, j: nat)
    requires NoDup(q) && j < |q| && forall r :: r in q ==> r in s.heap && r in s.color
    ensures var d, d2 := DeadIn(s, q[..j]), DeadIn(s, q[..j + 1]);
            var c := Whiten(s, q[..j], d);
            && q[j] in c && c[q[j]] == s.color[q[j]]
            && (Dead(s, q[j]) ==> s.heap - d2 == (s.heap - d) - {q[j]} && Whiten(s, q[..j + 1], d2) == c - {q[j]})
            && (!Dead(s, q[j]) ==> s.heap - d2 == s.heap - d && Whiten(s, q[..j + 1], d2) == c[q[j] := White(s.currentwhite)])
    ensures Keep(q[..j + 1], DeadIn(s, q)) == Keep(q[..j], DeadIn(s, q)) + if Dead(s, q[j]) then [] else [q[j]]
  {
    assert q[..j + 1] == q[..j] + [q[j]];
    assert q[j] !in q[..j];
    KeepAppend(q[..j], q[j], DeadIn(s, q));
    var d, d2 := DeadIn(s, q[..j]), DeadIn(s, q[..j + 1]);
    assert d2 == if Dead(s, q[j]) then d + {q[j]} else d;
  }

  lemma SweepNone(s: State, q: seq<Ref>)
    ensures s.heap - DeadIn(s, q[..0]) == s.heap && Whiten(s, q[..0], DeadIn(s, q[..0])) == s.color
    ensures Keep(q[..0], DeadIn(s, q)) == []
  {
  }

  lemma {:induction false} KeepAppend(q: seq<Ref>, x: Ref, dead: set<Ref>)
    ensures Keep(q + [x], dead) == Keep(q, dead) + if x in dead then [] else [x]
  {
    if q == [] {
      assert [] + [x] == [x];
    } else {
      assert (q + [x])[1..] == q[1..] + [x];
      KeepAppend(q[1..], x, dead);
    }
  }

}
