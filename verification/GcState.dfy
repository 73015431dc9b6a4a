/**
The heap of the incremental collector as a value: objects, mark colours, the
lists the collector threads through objects, and the collector's phase.

Lists that the C code threads through `next`, `gclist` and `u.l.next` are
sequences here. An object sits on at most one list per link field; that this
is so is part of the invariant in `GcInvariant`, not an assumption.
*/
module GcState {

  type Ref = nat

  /** A Lua value: collectable (a reference) or not (everything else). */
  datatype Value = Prim(n: int) | Gc(ref: Ref)

  /** The colour held in bits 0-2 of `marked`; `MarkBits` relates it to the bits. */
  datatype Color = White(which: bool) | Gray | Black

  /** Where the `v` field of an upvalue points: a stack slot, or the upvalue itself. */
  datatype Place = Open(thread: Ref, level: nat) | Closed(value: Value)

  /**
  Collectable objects. `refs` lists the values a traversal visits, in the order
  it visits them: for a table the metatable, the array and the non-empty nodes;
  for a Lua closure the environment, the prototype and then the upvalues; for
  userdata the metatable and the environment.
  */
  datatype Obj =
    | Str(chars: string)
    | Table(refs: seq<Value>)
    | Closure(refs: seq<Value>)
    | Proto(refs: seq<Value>)
    | Udata(refs: seq<Value>)
    | Upval(place: Place)
    | Thread(globals: Value, stack: seq<Value>, open: seq<Ref>)

  datatype Phase = Pause | Propagate | SweepString | Sweep | Finalize

  type Heap = map<Ref, Obj>

  datatype State = State(
    heap: Heap,
    color: map<Ref, Color>,
    fixed: set<Ref>,
    rootgc: seq<Ref>,
    strt: seq<seq<Ref>>,
    uvhead: seq<Ref>,
    gray: seq<Ref>,
    grayagain: seq<Ref>,
    phase: Phase,
    currentwhite: bool,
    sweepstr: nat,
    sweeppos: nat,
    main: Ref,
    running: Ref,
    registry: Value,
    mt: seq<Value>,
    hash: string -> nat)

  /** The values a traversal of `r` visits; an open upvalue leads to the stack slot it points at. */
  function Succs(h: Heap, r: Ref): seq<Value>
    requires r in h
  {
    match h[r]
    case Str(_) => []
    case Table(refs) => refs
    case Closure(refs) => refs
    case Proto(refs) => refs
    case Udata(refs) => refs
    case Upval(Closed(v)) => [v]
    case Upval(Open(t, l)) => if t in h && h[t].Thread? && l < |h[t].stack| then [h[t].stack[l]] else []
    case Thread(g, stack, _) => [g] + stack
  }

  ghost predicate Edge(h: Heap, a: Ref, b: Ref) {
    a in h && Gc(b) in Succs(h, a)
  }

  predicate OpenUpval(o: Obj) {
    o.Upval? && o.place.Open?
  }

  /** Objects that wait on a gray list to be traversed. */
  predicate Listed(o: Obj) {
    o.Table? || o.Closure? || o.Proto? || o.Thread?
  }

  /** Objects kept on the `rootgc` list. */
  predicate InRootList(o: Obj) {
    !o.Str? && !OpenUpval(o)
  }

  predicate NoDup(q: seq<Ref>) {
    forall i, j :: 0 <= i < j < |q| ==> q[i] != q[j]
  }

  function Members(q: seq<Ref>): set<Ref> {
    set r | r in q
  }

  /** The test a sweep makes: white of the other kind and not fixed. */
  predicate Dead(s: State, r: Ref) {
    r in s.color && s.color[r] == White(!s.currentwhite) && r !in s.fixed
  }

  predicate IsWhite(s: State, r: Ref) {
    r in s.color && s.color[r].White?
  }

  /** The values the mutator and the collector start from. */
  function Roots(s: State): seq<Value> {
    [Gc(s.main), Gc(s.running), s.registry] + s.mt
  }

  /** `p` is a path along edges that starts at a root and ends at `r`. */
  ghost predicate PathTo(s: State, p: seq<Ref>, r: Ref) {
    && |p| > 0
    && Gc(p[0]) in Roots(s)
    && (forall i :: 0 <= i < |p| - 1 ==> Edge(s.heap, p[i], p[i + 1]))
    && p[|p| - 1] == r
  }

  ghost predicate Reachable(s: State, r: Ref) {
    exists p :: PathTo(s, p, r)
  }

  lemma RootReachable(s: State, r: Ref)
    requires Gc(r) in Roots(s)
    ensures Reachable(s, r)
  {
    assert PathTo(s, [r], r);
  }

  lemma ReachableStep(s: State, a: Ref, b: Ref)
    requires Reachable(s, a) && Edge(s.heap, a, b)
    ensures Reachable(s, b)
  {
    var p :| PathTo(s, p, a);
    var q := p + [b];
    forall i | 0 <= i < |q| - 1 ensures Edge(s.heap, q[i], q[i + 1]) {
      if i < |p| - 1 {
        assert Edge(s.heap, p[i], p[i + 1]);
      }
    }
    assert PathTo(s, q, b);
  }
}
