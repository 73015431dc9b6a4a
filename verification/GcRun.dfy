/**
Runs: any interleaving of collector steps, full collections and mutator steps,
where the mutator uses only what it can reach. Over every run the invariant
holds, no step frees an object that was reachable, and nothing reachable dangles.
*/
module GcRun {
  import opened GcState
  import opened GcMark
  import opened GcInvariant
  import opened GcSweep
  import opened GcStrings
  import opened GcCollect
  import opened GcStep
  import opened GcFull
  import opened GcMutator
  import opened GcClosures

  const NUM_TAGS: nat := 9

  /** The state `lua_newstate` sets up: the main thread, its global table and the registry. */
  function Initial(hash: string -> nat): State {
    State(
      map[0 := Thread(Gc(1), [Prim(0)], []), 1 := Table([]), 2 := Table([])],
      map[0 := White(false), 1 := White(false), 2 := White(false)],
      {0}, [2, 1, 0], seq(MINSTRTABSIZE, _ => []), [], [], [],
      Pause, false, 0, 0, 0, 0, Gc(2), seq(NUM_TAGS, _ => Prim(0)), hash)
  }

  datatype Event =
    | Step
    | FullCollect
    | Create(r: Ref, obj: Obj)
    | Push(v: Value)
    | Poke(i: nat, v: Value)
    | Return(level: nat)
    | StoreInTable(o: Ref, obj: Obj, v: Value)
    | StoreInObject(o: Ref, obj: Obj, v: Value)
    | StoreThrough(u: Ref, v: Value)
    | InternString(chars: string, r: Ref)
    | NewClosure(r: Ref, env: Value, proto: Value, parent: Ref, caps: seq<Capture>, i: nat)
    | CloseUpvals(level: nat)
    | SetBasicMetatable(i: nat, v: Value)
    | SetGlobals(v: Value)
    | Resume(t: Ref)
    | FixString(r: Ref)

  /** Events that write to the stack or the roots. */
  predicate OnStack(e: Event) {
    e.Push? || e.Poke? || e.Return? || e.CloseUpvals? || e.SetGlobals? || e.Resume? || e.SetBasicMetatable? || e.FixString?
  }

  /** The mutator can get at `v`. */
  ghost predicate Known(s: State, v: Value) {
    v.Gc? ==> Reachable(s, v.ref)
  }

  ghost predicate KnownAll(s: State, vs: seq<Value>) {
    forall v :: v in vs ==> Known(s, v)
  }

  /** What each step asks of its arguments: references the mutator can reach, fresh addresses, and indices in range. */
  ghost predicate Enabled(s: State, e: Event)
    requires Inv(s)
  {
    if OnStack(e) then EnabledOnStack(s, e) else EnabledOnHeap(s, e)
  }

  ghost predicate EnabledOnStack(s: State, e: Event)
    requires Inv(s) && OnStack(e)
  {
    hide StringsOk, RootListOk, UpvalsOk, Live, NeverBlack, PhaseOk;
    var stack := s.heap[s.running].stack;
    match e
    case Push(v) => Known(s, v)
    case Poke(i, v) => i < |stack| && Known(s, v)
    case Return(level) => level <= |stack|
    case CloseUpvals(level) => true
    case SetBasicMetatable(i, v) => i < |s.mt| && Known(s, v)
    case SetGlobals(v) => Known(s, v)
    case Resume(t2) => Reachable(s, t2) && t2 in s.heap && s.heap[t2].Thread?
    case FixString(r) => Reachable(s, r) && r in s.heap && s.heap[r].Str?
  }

  ghost predicate EnabledOnHeap(s: State, e: Event)
    requires Inv(s) && !OnStack(e)
  {
    hide StringsOk, RootListOk, UpvalsOk, Live, NeverBlack, PhaseOk;
    var t := s.running;
    match e
    case Step => true
    case FullCollect => true
    case Create(r, obj) =>
      && r !in s.heap
      && (obj.Table? || obj.Closure? || obj.Proto? || obj.Udata? || (obj.Thread? && obj.open == []))
      && KnownAll(s, ObjValues(obj))
    case StoreInTable(o, obj, v) => Reachable(s, o) && Known(s, v) && StoreShape(s, o, obj, v) && obj.Table?
    case StoreInObject(o, obj, v) => Reachable(s, o) && Known(s, v) && StoreShape(s, o, obj, v) && !obj.Table?
    case StoreThrough(u, v) => Reachable(s, u) && u in s.heap && s.heap[u].Upval? && Known(s, v)
    case InternString(chars, r) => r !in s.heap
    case NewClosure(r, env, proto, parent, caps, i) =>
      && r !in s.heap && r != parent && Known(s, env) && Known(s, proto) && Reachable(s, parent)
      && i < |s.heap[t].stack|
      && (forall c :: c in caps ==> CaptureKnown(s, t, parent, c) && (c.Local? ==> c.cell != r))
      && (forall a, b :: 0 <= a < b < |caps| && caps[a].Local? && caps[b].Local? ==> caps[a].cell != caps[b].cell)
  }

  /** The object of a store keeps its kind and every value it holds afterwards it held before, or is `v`. */
  ghost predicate StoreShape(s: State, o: Ref, obj: Obj, v: Value) {
    && o in s.heap && SameKind(s.heap[o], obj)
    && forall x :: x in Fields(obj) ==> x == v || x in Fields(s.heap[o])
  }

  ghost predicate CaptureKnown(s: State, t: Ref, parent: Ref, c: Capture)
    requires t in s.heap && s.heap[t].Thread?
  {
    match c
    case Parent(i) =>
      parent in s.heap && s.heap[parent].Closure? && 2 + i < |s.heap[parent].refs| && s.heap[parent].refs[2 + i].Gc?
    case Local(l, r) => l < |s.heap[t].stack| && r !in s.heap
  }

  /** Replace the stack of the running thread. */
  function WithStack(s: State, stack: seq<Value>): State
    requires s.running in s.heap && s.heap[s.running].Thread?
  {
    SetThread(s, s.running, s.heap[s.running].globals, stack)
  }

  /** The slot an open upvalue refers to is assigned; the thread may even be dead. */
  function StoreSlot(s: State, t: Ref, level: nat, v: Value): State
    requires t in s.heap && s.heap[t].Thread? && level < |s.heap[t].stack|
  {
    SetThread(s, t, s.heap[t].globals, s.heap[t].stack[level := v])
  }

  lemma KnownLive(s: State, v: Value)
    requires Live(s) && Known(s, v)
    ensures LiveValue(s, v)
  {
    if v.Gc? {
      ReachableIsLive(s, v.ref);
    }
  }

  lemma KnownAllLive(s: State, vs: seq<Value>)
    requires Live(s) && KnownAll(s, vs)
    ensures LiveValues(s, vs)
  {
    forall v | v in vs ensures LiveValue(s, v) {
      KnownLive(s, v);
    }
  }

  lemma RunningLive(s: State)
    requires Inv(s)
    ensures LiveThread(s, s.running) && OpenListOk(s.heap, s.running) && SolidMarking(s)
    ensures LiveValue(s, s.heap[s.running].globals) && LiveValues(s, s.heap[s.running].stack)
  {
    hide StringsOk, RootListOk;
    assert Gc(s.running) in Roots(s);
    InvMarking(s, {});
    var t := s.running;
    forall v | v == s.heap[t].globals || v in s.heap[t].stack ensures LiveValue(s, v) {
      if v.Gc? {
        assert Edge(s.heap, t, v.ref);
      }
    }
  }

  /** Which objects a step must leave alone: those that are not dead. */
  ghost predicate Keeps(s: State, t: State) {
    forall r :: r in s.heap && !Dead(s, r) ==> r in t.heap && !Dead(t, r)
  }

  // ------------------------------------------------------ steps on the stack

  lemma StackInv(s: State, stack: seq<Value>)
    requires Inv(s) && LiveValues(s, stack)
    requires forall u :: u in s.heap[s.running].open ==> u in s.heap && OpenUpval(s.heap[u]) && Level(s.heap, u) < |stack|
    ensures Inv(WithStack(s, stack)) && Keeps(s, WithStack(s, stack))
  {
    hide Shape, Live, NeverBlack, PhaseOk;
    RunningInHeap(s);
    RunningLive(s);
    OpenSlotsLive(s, stack);
    SetThreadInv(s, s.running, s.heap[s.running].globals, stack);
  }

  lemma RunningInHeap(s: State)
    requires Inv(s)
    ensures s.running in s.heap && s.heap[s.running].Thread?
  {
  }

  lemma OpenSlotsLive(s: State, stack: seq<Value>)
    requires s.running in s.heap && s.heap[s.running].Thread? && LiveValues(s, stack)
    requires forall u :: u in s.heap[s.running].open ==> u in s.heap && OpenUpval(s.heap[u]) && Level(s.heap, u) < |stack|
    ensures forall u :: u in s.heap[s.running].open && !Dead(s, u) ==> LiveValue(s, stack[Level(s.heap, u)])
  {
    forall u | u in s.heap[s.running].open && !Dead(s, u) ensures LiveValue(s, stack[Level(s.heap, u)]) {
      assert stack[Level(s.heap, u)] in stack;
    }
  }

  lemma PushInv(s: State, v: Value)
    requires Inv(s) && LiveValue(s, v)
    ensures s.running in s.heap && s.heap[s.running].Thread?
    ensures var t := WithStack(s, s.heap[s.running].stack + [v]); Inv(t) && Keeps(s, t)
  {
    hide StringsOk, RootListOk, Live, NeverBlack, PhaseOk;
    RunningLive(s);
    assert forall u :: u in s.heap[s.running].open ==> OpenEntry(s.heap, s.running, u);
    StackInv(s, s.heap[s.running].stack + [v]);
  }

  lemma PokeInv(s: State, i: nat, v: Value)
    requires Inv(s) && LiveValue(s, v) && i < |s.heap[s.running].stack|
    ensures var t := WithStack(s, s.heap[s.running].stack[i := v]); Inv(t) && Keeps(s, t)
  {
    hide StringsOk, RootListOk, Live, NeverBlack, PhaseOk;
    RunningLive(s);
    assert forall u :: u in s.heap[s.running].open ==> OpenEntry(s.heap, s.running, u);
    var q := s.heap[s.running].stack;
    assert forall x :: x in q[i := v] ==> x == v || x in q;
    StackInv(s, q[i := v]);
  }

  /** Leaving a function: close the upvalues of its frame, then drop the frame. */
  ghost function ReturnTo(s: State, level: nat): State
    requires Inv(s) && level <= |s.heap[s.running].stack|
  {
    hide Shape, Live, NeverBlack, PhaseOk;
    RunningInHeap(s);
    RunningLive(s);
    CloseAllInv(s, s.running, level, {});
    CloseAllRunning(s, level);
    var t := CloseAll(s, s.running, level);
    WithStack(t, t.heap[t.running].stack[..level])
  }

  lemma CloseAllRunning(s: State, level: nat)
    requires Inv(s) && s.running in s.heap && s.heap[s.running].Thread?
    ensures OpenListOk(s.heap, s.running) && SolidMarking(s)
    ensures CloseAll(s, s.running, level).running == s.running
  {
    hide Shape, Live, NeverBlack, PhaseOk;
    RunningLive(s);
    CloseAllFrame(s, s.running, level);
  }

  lemma {:induction false} CloseAllFrame(s: State, t: Ref, level: nat)
    requires t in s.heap && s.heap[t].Thread? && OpenListOk(s.heap, t) && SolidMarking(s)
    ensures CloseAll(s, t, level).running == s.running
    decreases |s.heap[t].open|
  {
    if s.heap[t].open != [] {
      var u := s.heap[t].open[0];
      assert u in s.heap[t].open && OpenEntry(s.heap, t, u);
      if Level(s.heap, u) >= level {
        var v := s.heap[t].stack[Level(s.heap, u)];
        CloseOneOpen(s, t, u, v);
        CloseCellSolid(s, t, u, v);
        CloseAllFrame(CloseOne(s, t, u, v), t, level);
      }
    }
  }

  lemma ReturnInv(s: State, level: nat)
    requires Inv(s) && level <= |s.heap[s.running].stack|
    ensures Inv(ReturnTo(s, level)) && Keeps(s, ReturnTo(s, level))
  {
    hide StringsOk, RootListOk, UpvalsOk, Live, NeverBlack, PhaseOk;
    RunningInHeap(s);
    RunningLive(s);
    CloseAllInv(s, s.running, level, {});
    CloseAllRunning(s, level);
    CloseAllContent(s, s.running, level);
    var t := CloseAll(s, s.running, level);
    RunningLive(t);
    StackInv(t, t.heap[t.running].stack[..level]);
  }

  lemma CloseUpvalsInv(s: State, level: nat)
    requires Inv(s) && s.running in s.heap && s.heap[s.running].Thread?
    ensures OpenListOk(s.heap, s.running) && SolidMarking(s)
    ensures Inv(CloseAll(s, s.running, level)) && Keeps(s, CloseAll(s, s.running, level))
  {
    hide Shape, Live, NeverBlack, PhaseOk;
    CloseAllInv(s, s.running, level, {});
    CloseAllContent(s, s.running, level);
  }

  // --------------------------------------------------- steps that make objects

  ghost function CreateObj(s: State, r: Ref, obj: Obj): State
    requires s.running in s.heap && s.heap[s.running].Thread? && r !in s.heap
  {
    var t := Alloc(s, r, obj);
    WithStack(t, t.heap[t.running].stack + [Gc(r)])
  }

  lemma CreateInv(s: State, r: Ref, obj: Obj)
    requires Inv(s) && NewObj(s, r, obj)
    ensures s.running in s.heap && s.heap[s.running].Thread?
    ensures Inv(CreateObj(s, r, obj)) && Keeps(s, CreateObj(s, r, obj))
  {
    hide Shape, Live, NeverBlack, PhaseOk;
    RunningInHeap(s);
    AllocInv(s, r, obj);
    PushInv(Alloc(s, r, obj), Gc(r));
  }

  ghost function InternPush(s: State, chars: string, r: Ref): State
    requires Inv(s) && r !in s.heap
  {
    hide RootListOk, Live, NeverBlack, PhaseOk;
    InternInv(s, chars, r);
    var (t, x) := Intern(s, chars, r);
    RunningInHeap(t);
    WithStack(t, t.heap[t.running].stack + [Gc(x)])
  }

  lemma InternPushInv(s: State, chars: string, r: Ref)
    requires Inv(s) && r !in s.heap
    ensures Inv(InternPush(s, chars, r)) && Keeps(s, InternPush(s, chars, r))
  {
    hide RootListOk, UpvalsOk, Live, NeverBlack, PhaseOk;
    InternInv(s, chars, r);
    var (t, x) := Intern(s, chars, r);
    InternKeeps(s, t, x, chars);
    PushInv(t, Gc(x));
  }

  lemma InternKeeps(s: State, t: State, x: Ref, chars: string)
    requires t.heap == s.heap[x := Str(chars)] && forall y :: y in s.heap && !Dead(s, y) ==> !Dead(t, y)
    ensures Keeps(s, t)
  {
  }

  lemma NewClosureInv(s: State, r: Ref, env: Value, proto: Value, parent: Ref, caps: seq<Capture>, i: nat)
    requires Inv(s) && Enabled(s, NewClosure(r, env, proto, parent, caps, i))
    ensures CanMakeClosure(s, s.running, r, env, proto, parent, caps, i)
    ensures Inv(MakeClosure(s, s.running, r, env, proto, parent, caps, i))
    ensures Keeps(s, MakeClosure(s, s.running, r, env, proto, parent, caps, i))
  {
    hide StringsOk, RootListOk, UpvalsOk, NeverBlack, PhaseOk;
    NewClosureReady(s, r, env, proto, parent, caps, i);
    MakeClosureInv(s, s.running, r, env, proto, parent, caps, i);
    NewClosureKeeps(s, s.running, r, env, proto, parent, caps, i);
  }

  lemma NewClosureReady(s: State, r: Ref, env: Value, proto: Value, parent: Ref, caps: seq<Capture>, i: nat)
    requires Inv(s) && Enabled(s, NewClosure(r, env, proto, parent, caps, i))
    ensures CanMakeClosure(s, s.running, r, env, proto, parent, caps, i)
  {
    hide StringsOk, RootListOk, UpvalsOk, NeverBlack, PhaseOk;
    RunningLive(s);
    KnownLive(s, env);
    KnownLive(s, proto);
    ReachableIsLive(s, parent);
    forall c | c in caps ensures CanCaptureOne(s, s.running, parent, c) && (c.Local? ==> c.cell != r) {
      assert CaptureKnown(s, s.running, parent, c);
    }
  }

  lemma NewClosureKeeps(s: State, t: Ref, r: Ref, env: Value, proto: Value, parent: Ref, caps: seq<Capture>, i: nat)
    requires Inv(s) && CanMakeClosure(s, t, r, env, proto, parent, caps, i)
    ensures Keeps(s, MakeClosure(s, t, r, env, proto, parent, caps, i))
  {
    hide Inv;
    ClosureBuiltInv(s, t, r, env, proto, parent, caps, i);
    var s1, s2 := Alloc(s, r, Unset(env, proto, |caps|)), ClosureBuilt(s, t, r, env, proto, parent, caps, i);
    assert Keeps(s, s1) by {
      AllocKeeps(s, r, Unset(env, proto, |caps|));
    }
    assert CapturesKeep(s1, s2, t, r);
  }

  lemma AllocKeeps(s: State, r: Ref, obj: Obj)
    requires r !in s.heap
    ensures Keeps(s, Alloc(s, r, obj))
  {
  }

  // ------------------------------------------------------------------ stores

  lemma StoreReady(s: State, o: Ref, obj: Obj, v: Value)
    requires Live(s) && Reachable(s, o) && Known(s, v) && StoreShape(s, o, obj, v)
    ensures CanStore(s, o, obj, v)
  {
    ReachableIsLive(s, o);
    KnownLive(s, v);
  }

  lemma StoreFieldKeeps(s: State, o: Ref, obj: Obj, v: Value)
    requires Inv(s) && CanStore(s, o, obj, v)
    ensures Keeps(s, StoreField(s, o, obj, v))
  {
    hide StringsOk, RootListOk, UpvalsOk, Live, NeverBlack;
    RawStoreSolid(s, o, obj, v);
    var s1 := RawStore(s, o, obj);
    if NeedsBarrier(s1, o, v) && s.phase == Propagate {
      MarkAllStep(s1, [v]);
      assert NoOtherWhite(s1);
      MarkNoOther(s1, MarkAll(s1, [v]));
    }
  }

  /** An assignment through an upvalue: to the cell of a closed one, to the stack slot of an open one. */
  ghost function StoreUpval(s: State, u: Ref, v: Value): State
    requires Inv(s) && u in s.heap && s.heap[u].Upval? && !Dead(s, u) && LiveValue(s, v)
  {
    StoreUpvalReady(s, u, v);
    match s.heap[u].place
    case Closed(_) => StoreField(s, u, Upval(Closed(v)), v)
    case Open(t, l) => StoreSlot(s, t, l, v)
  }

  lemma StoreUpvalReady(s: State, u: Ref, v: Value)
    requires Inv(s) && u in s.heap && s.heap[u].Upval? && !Dead(s, u) && LiveValue(s, v)
    ensures s.heap[u].place.Closed? ==> CanStore(s, u, Upval(Closed(v)), v)
    ensures s.heap[u].place.Open? ==>
              var t, l := s.heap[u].place.thread, s.heap[u].place.level;
              && t in s.heap && s.heap[t].Thread? && l < |s.heap[t].stack|
              && CanSetThread(s, t, s.heap[t].globals, s.heap[t].stack[l := v])
  {
    hide StringsOk, RootListOk, NeverBlack, PhaseOk;
    if s.heap[u].place.Open? {
      assert Owned(s.heap, u);
      SlotReady(s, s.heap[u].place.thread, s.heap[u].place.level, v);
    }
  }

  lemma SlotReady(s: State, t: Ref, l: nat, v: Value)
    requires UpvalsOk(s.heap, s.uvhead) && Live(s) && t in s.heap && s.heap[t].Thread? && l < |s.heap[t].stack|
    requires LiveValue(s, v)
    ensures CanSetThread(s, t, s.heap[t].globals, s.heap[t].stack[l := v])
  {
    var stack := s.heap[t].stack[l := v];
    if !Dead(s, t) {
      forall x | x == s.heap[t].globals || x in s.heap[t].stack ensures LiveValue(s, x) {
        if x.Gc? {
          assert Edge(s.heap, t, x.ref);
        }
      }
      assert forall x :: x in stack ==> x == v || x in s.heap[t].stack;
    }
    forall u | u in s.heap[t].open
      ensures u in s.heap && OpenUpval(s.heap[u]) && Level(s.heap, u) < |stack|
      ensures !Dead(s, u) ==> LiveValue(s, stack[Level(s.heap, u)])
    {
      assert OpenEntry(s.heap, t, u);
      var x := s.heap[t].stack[Level(s.heap, u)];
      if x.Gc? {
        assert Edge(s.heap, u, x.ref);
      }
    }
  }

  lemma StoreUpvalInv(s: State, u: Ref, v: Value)
    requires Inv(s) && u in s.heap && s.heap[u].Upval? && !Dead(s, u) && LiveValue(s, v)
    ensures Inv(StoreUpval(s, u, v)) && Keeps(s, StoreUpval(s, u, v))
  {
    hide Shape, Live, NeverBlack, PhaseOk, CanStore, CanSetThread;
    StoreUpvalReady(s, u, v);
    match s.heap[u].place {
      case Closed(_) =>
        StoreFieldInv(s, u, Upval(Closed(v)), v);
        StoreFieldKeeps(s, u, Upval(Closed(v)), v);
      case Open(t, l) =>
        SetThreadInv(s, t, s.heap[t].globals, s.heap[t].stack[l := v]);
    }
  }

  // ------------------------------------------------------------------- roots

  lemma RootsInv(s: State, t: State)
    requires Inv(s)
    requires t == s.(running := t.running, mt := t.mt)
    requires LiveThread(s, t.running) && LiveValues(s, t.mt)
    ensures Inv(t) && Keeps(s, t)
  {
    hide StringsOk, RootListOk, UpvalsOk;
    StringsSame(s, t);
    RootListSame(s, t, {});
    assert forall r :: Dead(t, r) <==> Dead(s, r);
    RootsPhase(s, t);
    forall b | Gc(b) in Roots(t) ensures b in t.heap && !Dead(t, b) {
      if Gc(b) in t.mt {
        assert LiveValue(s, Gc(b));
      } else if b != t.running {
        assert Gc(b) in Roots(s);
      }
    }
  }

  lemma RootsPhase(s: State, t: State)
    requires t == s.(running := t.running, mt := t.mt) || (t == s.(fixed := t.fixed))
    requires NeverBlack(s) && PhaseOk(s)
    ensures NeverBlack(t) && PhaseOk(t)
  {
    forall x ensures Resting(s, x) ==> Resting(t, x) {}
    forall x ensures Waiting(s, x) ==> Waiting(t, x) {}
    forall x ensures Swept(s, x) ==> Swept(t, x) {}
    forall x ensures Settled(s, x) ==> Settled(t, x) {}
    forall x ensures CurrentWhite(s, x) ==> CurrentWhite(t, x) {}
  }

  lemma MetatableInv(s: State, i: nat, v: Value)
    requires Inv(s) && i < |s.mt| && LiveValue(s, v)
    ensures Inv(s.(mt := s.mt[i := v])) && Keeps(s, s.(mt := s.mt[i := v]))
  {
    hide StringsOk, RootListOk, UpvalsOk, NeverBlack, PhaseOk;
    RunningLive(s);
    forall x | x in s.mt[i := v] ensures LiveValue(s, x) {
      if x != v {
        assert x in s.mt && x in Roots(s);
      }
    }
    RootsInv(s, s.(mt := s.mt[i := v]));
  }

  lemma ResumeInv(s: State, t: Ref)
    requires Inv(s) && LiveThread(s, t)
    ensures Inv(s.(running := t)) && Keeps(s, s.(running := t))
  {
    hide StringsOk, RootListOk, UpvalsOk, NeverBlack, PhaseOk;
    forall x | x in s.mt ensures LiveValue(s, x) {
      assert x in Roots(s);
    }
    RootsInv(s, s.(running := t));
  }

  lemma GlobalsInv(s: State, v: Value)
    requires Inv(s) && LiveValue(s, v)
    ensures s.running in s.heap && s.heap[s.running].Thread?
    ensures var t := SetThread(s, s.running, v, s.heap[s.running].stack); Inv(t) && Keeps(s, t)
  {
    hide StringsOk, RootListOk, Live, NeverBlack, PhaseOk;
    RunningLive(s);
    assert forall u :: u in s.heap[s.running].open ==> OpenEntry(s.heap, s.running, u);
    OpenSlotsLive(s, s.heap[s.running].stack);
    SetThreadInv(s, s.running, v, s.heap[s.running].stack);
  }

  /** `luaS_fix`. */
  lemma FixInv(s: State, r: Ref)
    requires Inv(s) && r in s.heap && s.heap[r].Str? && !Dead(s, r)
    ensures Inv(s.(fixed := s.fixed + {r})) && Keeps(s, s.(fixed := s.fixed + {r}))
  {
    hide StringsOk, RootListOk, UpvalsOk;
    var t := s.(fixed := s.fixed + {r});
    StringsSame(s, t);
    RootListSame(s, t, {});
    assert forall x :: Dead(t, x) <==> Dead(s, x);
    RootsPhase(s, t);
    LiveKept(s, t);
  }

  // -------------------------------------------------------------------- runs

  ghost function ApplyOnStack(s: State, e: Event): State
    requires Inv(s) && OnStack(e) && EnabledOnStack(s, e)
  {
    hide Inv, OpenListOk, SolidMarking, LiveThread, LiveValue, LiveValues;
    RunningInHeap(s);
    RunningLive(s);
    match e
    case Push(v) => WithStack(s, s.heap[s.running].stack + [v])
    case Poke(i, v) => WithStack(s, s.heap[s.running].stack[i := v])
    case Return(level) => ReturnTo(s, level)
    case CloseUpvals(level) => CloseAll(s, s.running, level)
    case SetBasicMetatable(i, v) => s.(mt := s.mt[i := v])
    case SetGlobals(v) => SetThread(s, s.running, v, s.heap[s.running].stack)
    case Resume(t) => s.(running := t)
    case FixString(r) => s.(fixed := s.fixed + {r})
  }

  ghost function ApplyOnHeap(s: State, e: Event): State
    requires Inv(s) && !OnStack(e) && Enabled(s, e)
  {
    hide StringsOk, RootListOk, UpvalsOk, NeverBlack, PhaseOk;
    match e
    case Step => SingleStep(s)
    case FullCollect => FullGc(s)
    case Create(r, obj) => CreateObj(s, r, obj)
    case StoreInTable(o, obj, v) => StoreTable(s, o, obj, v)
    case StoreInObject(o, obj, v) =>
      StoreReady(s, o, obj, v);
      StoreField(s, o, obj, v)
    case StoreThrough(u, v) =>
      ReachableIsLive(s, u);
      KnownLive(s, v);
      StoreUpval(s, u, v)
    case InternString(chars, r) => InternPush(s, chars, r)
    case NewClosure(r, env, proto, parent, caps, i) =>
      NewClosureReady(s, r, env, proto, parent, caps, i);
      MakeClosure(s, s.running, r, env, proto, parent, caps, i)
  }

  /** The state after an event. */
  ghost function Apply(s: State, e: Event): State
    requires Inv(s) && Enabled(s, e)
  {
    if OnStack(e) then ApplyOnStack(s, e) else ApplyOnHeap(s, e)
  }

  lemma OnStackInv(s: State, e: Event)
    requires Inv(s) && OnStack(e) && Enabled(s, e)
    ensures Inv(Apply(s, e)) && Keeps(s, Apply(s, e))
  {
    hide StringsOk, RootListOk, UpvalsOk, NeverBlack, PhaseOk, Keeps;
    RunningInHeap(s);
    match e {
      case Push(v) => KnownLive(s, v); PushInv(s, v);
      case Poke(i, v) => KnownLive(s, v); PokeInv(s, i, v);
      case Return(level) => ReturnInv(s, level);
      case CloseUpvals(level) => CloseUpvalsInv(s, level);
      case SetBasicMetatable(i, v) => KnownLive(s, v); MetatableInv(s, i, v);
      case SetGlobals(v) => KnownLive(s, v); GlobalsInv(s, v);
      case Resume(t) => ReachableIsLive(s, t); ResumeInv(s, t);
      case FixString(r) => ReachableIsLive(s, r); FixInv(s, r);
    }
  }

  lemma OnHeapInv(s: State, e: Event)
    requires Inv(s) && !OnStack(e) && Enabled(s, e)
    ensures Inv(Apply(s, e))
    ensures e.Step? || e.FullCollect? || Keeps(s, Apply(s, e))
  {
    hide Shape, NeverBlack, PhaseOk, SingleStep, FullGc;
    match e {
      case Step => SingleStepInv(s);
      case FullCollect => FullGcExact(s);
      case Create(r, obj) => KnownAllLive(s, ObjValues(obj)); CreateInv(s, r, obj);
      case StoreInTable(o, obj, v) => StoreReady(s, o, obj, v); StoreTableInv(s, o, obj, v);
      case StoreInObject(o, obj, v) =>
        StoreReady(s, o, obj, v);
        StoreFieldInv(s, o, obj, v);
        StoreFieldKeeps(s, o, obj, v);
      case StoreThrough(u, v) => ReachableIsLive(s, u); KnownLive(s, v); StoreUpvalInv(s, u, v);
      case InternString(chars, r) => InternPushInv(s, chars, r);
      case NewClosure(r, env, proto, parent, caps, i) => NewClosureInv(s, r, env, proto, parent, caps, i);
    }
  }

  /** Every event keeps the invariant. */
  lemma ApplyInv(s: State, e: Event)
    requires Inv(s) && Enabled(s, e)
    ensures Inv(Apply(s, e))
  {
    hide Inv, Enabled;
    if OnStack(e) {
      OnStackInv(s, e);
    } else {
      OnHeapInv(s, e);
    }
  }

  /** No event frees an object that is reachable when it happens. */
  lemma ReachableSurvives(s: State, e: Event, r: Ref)
    requires Inv(s) && Enabled(s, e) && Reachable(s, r)
    ensures r in s.heap && r in Apply(s, e).heap
  {
    hide StringsOk, RootListOk, UpvalsOk, NeverBlack, PhaseOk;
    ReachableIsLive(s, r);
    match e {
      case Step => SingleStepKeeps(s, r);
      case FullCollect => FullGcExact(s);
      case _ => if OnStack(e) { OnStackInv(s, e); } else { OnHeapInv(s, e); }
    }
  }

  /** Each event of the run is enabled when it happens. */
  ghost predicate Runs(s: State, es: seq<Event>)
    requires Inv(s)
    decreases |es|
  {
    if es == [] then true
    else if Enabled(s, es[0]) then
      ApplyInv(s, es[0]);
      Runs(Apply(s, es[0]), es[1..])
    else false
  }

  ghost function Run(s: State, es: seq<Event>): State
    requires Inv(s) && Runs(s, es)
    decreases |es|
  {
    if es == [] then s
    else
      ApplyInv(s, es[0]);
      Run(Apply(s, es[0]), es[1..])
  }

  lemma InitialInv(hash: string -> nat)
    ensures Inv(Initial(hash))
  {
    hide StringsOk, UpvalsOk, RootListOk;
    InitialStrings(hash);
    InitialUpvals(hash);
    InitialRoots(hash);
    InitialLive(hash);
  }

  lemma InitialRoots(hash: string -> nat)
    ensures RootListOk(Initial(hash), {})
  {
    var s := Initial(hash);
    assert forall r :: r in s.heap <==> r == 0 || r == 1 || r == 2;
  }

  lemma InitialLive(hash: string -> nat)
    ensures Live(Initial(hash))
  {
    var s := Initial(hash);
    assert forall r :: r in s.color ==> s.color[r] == White(false);
    assert Succs(s.heap, 0) == [Gc(1), Prim(0)] && Succs(s.heap, 1) == [] && Succs(s.heap, 2) == [];
    assert forall b :: Gc(b) in Roots(s) ==> b == 0 || b == 2;
  }

  lemma InitialStrings(hash: string -> nat)
    ensures StringsOk(Initial(hash))
  {
    var s := Initial(hash);
    assert forall i :: 0 <= i < |s.strt| ==> s.strt[i] == [];
  }

  lemma InitialUpvals(hash: string -> nat)
    ensures UpvalsOk(Initial(hash).heap, [])
  {
    var h := Initial(hash).heap;
    assert h[0].open == [];
  }

  /**
  Safety over every run: whatever the mutator and the collector have done since
  the state was created, every reachable object is in the heap, is not due to be
  swept, and survives the next event, whichever it is.
  */
  lemma {:induction false} SafeRun(s: State, es: seq<Event>)
    requires Inv(s) && Runs(s, es)
    ensures Inv(Run(s, es))
    ensures forall r :: Reachable(Run(s, es), r) ==> r in Run(s, es).heap && !Dead(Run(s, es), r)
    ensures forall e, r :: Enabled(Run(s, es), e) && Reachable(Run(s, es), r) ==> r in Apply(Run(s, es), e).heap
    decreases |es|
  {
    hide Shape, NeverBlack, PhaseOk, Enabled;
    if es == [] {
      forall r | Reachable(s, r) ensures r in s.heap && !Dead(s, r) {
        ReachableIsLive(s, r);
      }
      forall e, r | Enabled(s, e) && Reachable(s, r) ensures r in Apply(s, e).heap {
        ReachableSurvives(s, e, r);
      }
    } else {
      ApplyInv(s, es[0]);
      SafeRun(Apply(s, es[0]), es[1..]);
    }
  }

  /** The same from the state that `lua_newstate` creates, which meets the invariant: `InitialInv`. */
  lemma SafeFromStart(hash: string -> nat, es: seq<Event>)
    requires Inv(Initial(hash)) && Runs(Initial(hash), es)
    ensures Inv(Run(Initial(hash), es))
    ensures forall e, r :: Enabled(Run(Initial(hash), es), e) && Reachable(Run(Initial(hash), es), r) ==>
              r in Apply(Run(Initial(hash), es), e).heap
  {
    hide Inv, Initial, Enabled;
    SafeRun(Initial(hash), es);
  }
}
