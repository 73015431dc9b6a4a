/**
When it does not matter that a sum reads a local variable on its left last:
which programs mean the same whichever order is taken, and one that does not.
*/
module ScopeOrder {
  import opened Scopes
  import opened ScopeLang
  import C = ScopeCode
  import V = ScopeVm
  import S = ScopeSim
  import K = ScopeLimits

  // ------------------------------------------------------------- calls

  /** Evaluating `e` may call a function. */
  predicate HasCall(e: Exp) {
    match e
    case Add(l, r) => HasCall(l) || HasCall(r)
    case Call(_, _) => true
    case _ => false
  }

  /** Without a call nothing is assigned, and the order does not matter. */
  lemma {:induction false} CallFree(e: Exp, env: Env, st: Store, fuel: nat)
    requires !HasCall(e)
    ensures EvalExp(LeftToRight, e, env, st, fuel) == EvalExp(LocalsLast, e, env, st, fuel)
    ensures var r := EvalExp(LocalsLast, e, env, st, fuel); !r.TimedOut? && (r.Value? ==> r.st == st)
  {
    if e.Add? {
      CallFree(e.l, env, st, fuel);
      CallFree(e.r, env, st, fuel);
    }
  }

  /** Both orders give the same, in every scope and store. */
  ghost predicate AlwaysSame(e: Exp) {
    forall env, st, fuel :: SameIn(e, env, st, fuel)
  }

  ghost predicate SameIn(e: Exp, env: Env, st: Store, fuel: nat) {
    EvalExp(LeftToRight, e, env, st, fuel) == EvalExp(LocalsLast, e, env, st, fuel)
  }

  /** A value that is there without evaluating anything. */
  predicate Plain(e: Exp) {
    !e.Add? && !e.Call?
  }

  /** `e` computes a number: names of `funs` are called with one argument, the others are numbers. */
  predicate Typed(e: Exp, funs: set<Name>) {
    match e
    case Num(_) => true
    case Var(x) => x !in funs
    case Add(l, r) => Typed(l, funs) && Typed(r, funs)
    case Call(f, a) => f.Var? && f.x in funs && (Plain(a) || Typed(a, funs))
    case _ => false
  }

  function Names(e: Exp): set<Name> {
    match e
    case Var(x) => {x}
    case Add(l, r) => Names(l) + Names(r)
    case Call(f, a) => Names(f) + Names(a)
    case _ => {}
  }

  /** The scope of `x` alone, and a function made in it that assigns 10 to `x` and returns 1. */
  function RaceEnv(x: Name): Env {
    [[Binding(x, 0)]]
  }

  function Assigner(x: Name): ScopeLang.Value {
    FunV(x + "'", Seq(Assign(x, Num(10)), Return(Num(1))), RaceEnv(x))
  }

  function RaceGlobals(x: Name, names: set<Name>, funs: set<Name>): map<Name, ScopeLang.Value> {
    map y | y in names :: if y in funs then Assigner(x) else NumV(1)
  }

  predicate RaceStore(st: Store, globals: map<Name, ScopeLang.Value>) {
    st.globals == globals && st.cells != [] && st.cells[0] in [NumV(1), NumV(10)]
  }

  lemma RaceLookup(x: Name, y: Name)
    ensures Lookup(RaceEnv(x), y) == if y == x then Cell(0) else NoCell
    ensures IsOwn(RaceEnv(x), x)
  {
    assert RaceEnv(x)[0][..0] == [] && RaceEnv(x)[..0] == [];
  }

  /** A call changes `x`. */
  lemma AssignerRuns(order: Order, x: Name, arg: ScopeLang.Value, st: Store, fuel: nat)
    requires fuel > 0 && RaceStore(st, st.globals)
    ensures var st2 := Alloc(st, arg);
      Apply(order, Assigner(x), arg, st, fuel) == Value(NumV(1), st2.(cells := st2.cells[0 := NumV(10)]))
  {
    var f := Assigner(x);
    var env, st2 := RaceEnv(x) + [[Binding(f.param, |st.cells|)]], Alloc(st, arg);
    var st3 := st2.(cells := st2.cells[0 := NumV(10)]);
    assert |f.param| == |x| + 1;
    assert env[1][..0] == [];
    assert LastIn(env[1], x) == -1;
    assert env[..1] == RaceEnv(x);
    RaceLookup(x, x);
    assert ExecStat(order, Assign(x, Num(10)), env, st2, fuel - 1) == Normal(env, st3);
    assert ExecStat(order, Return(Num(1)), env, st3, fuel - 1) == Returned(NumV(1), st3);
  }

  lemma AssignerCalled(order: Order, f: Name, a: Exp, x: Name, st: Store, fuel: nat)
    requires f != x && f in st.globals && st.globals[f] == Assigner(x) && fuel > 0
    requires EvalExp(order, a, RaceEnv(x), st, fuel).Value?
    ensures var b := EvalExp(order, a, RaceEnv(x), st, fuel);
      EvalExp(order, Call(Var(f), a), RaceEnv(x), st, fuel) == Apply(order, Assigner(x), b.v, b.st, fuel)
  {
    RaceLookup(x, f);
    assert EvalExp(order, Var(f), RaceEnv(x), st, fuel) == Value(Assigner(x), st);
  }

  /** What `e` gives from left to right in `st`, and with the locals last in `st2`. */
  ghost predicate Ahead(e: Exp, x: Name, st: Store, st2: Store, fuel: nat) {
    var a, b := EvalExp(LeftToRight, e, RaceEnv(x), st, fuel), EvalExp(LocalsLast, e, RaceEnv(x), st2, fuel);
    && a.Value? && b.Value? && a.v.NumV? && b.v.NumV? && a.v.n <= b.v.n
    && RaceStore(a.st, st.globals) && RaceStore(b.st, st.globals)
    && (if HasCall(e) then a.st.cells[0] == b.st.cells[0] == NumV(10) else a.st == st && b.st == st2)
  }

  predicate Races(e: Exp, x: Name, funs: set<Name>, names: set<Name>, st: Store, st2: Store) {
    && x !in funs && Names(e) <= names
    && RaceStore(st, RaceGlobals(x, names, funs)) && RaceStore(st2, st.globals)
    && st.cells[0].n <= st2.cells[0].n
  }

  /** With locals last the value is never smaller, and the first call settles that `x` is 10. */
  lemma {:induction false} TypedRuns(
      e: Exp, x: Name, funs: set<Name>, names: set<Name>, st: Store, st2: Store, fuel: nat)
    requires Typed(e, funs) && Races(e, x, funs, names, st, st2) && fuel > 0
    ensures Ahead(e, x, st, st2, fuel)
    decreases e, 1
  {
    match e {
      case Num(_) =>
      case Var(y) => RaceLookup(x, y);
      case Add(l, r) => TypedSum(l, r, x, funs, names, st, st2, fuel);
      case Call(f, a) => TypedCall(f.x, a, x, funs, names, st, st2, fuel);
    }
  }

  lemma {:induction false} TypedSum(
      l: Exp, r: Exp, x: Name, funs: set<Name>, names: set<Name>, st: Store, st2: Store, fuel: nat)
    requires Typed(Exp.Add(l, r), funs) && Races(Exp.Add(l, r), x, funs, names, st, st2) && fuel > 0
    ensures Ahead(Exp.Add(l, r), x, st, st2, fuel)
    decreases Exp.Add(l, r), 0
  {
    TypedRuns(l, x, funs, names, st, st2, fuel);
    var a := EvalExp(LeftToRight, l, RaceEnv(x), st, fuel);
    if ReadLast(LocalsLast, l, RaceEnv(x)) {
      RaceLookup(x, l.x);
      TypedRuns(r, x, funs, names, st, st2, fuel);
    } else {
      TypedRuns(r, x, funs, names, a.st, EvalExp(LocalsLast, l, RaceEnv(x), st2, fuel).st, fuel);
    }
  }

  lemma {:induction false} TypedCall(
      f: Name, a: Exp, x: Name, funs: set<Name>, names: set<Name>, st: Store, st2: Store, fuel: nat)
    requires Typed(Call(Var(f), a), funs) && Races(Call(Var(f), a), x, funs, names, st, st2) && fuel > 0
    ensures Ahead(Call(Var(f), a), x, st, st2, fuel)
    decreases Call(Var(f), a), 0
  {
    RaceLookup(x, f);
    if Plain(a) {
      if a.Var? {
        RaceLookup(x, a.x);
      }
    } else {
      TypedRuns(a, x, funs, names, st, st2, fuel);
    }
    var b, b2 := EvalExp(LeftToRight, a, RaceEnv(x), st, fuel), EvalExp(LocalsLast, a, RaceEnv(x), st2, fuel);
    AssignerRuns(LeftToRight, x, b.v, b.st, fuel);
    AssignerRuns(LocalsLast, x, b2.v, b2.st, fuel);
    assert f in Names(Var(f)) && f in names;
    AssignerCalled(LeftToRight, f, a, x, st, fuel);
    AssignerCalled(LocalsLast, f, a, x, st2, fuel);
  }

  /** If the right operand computes a number, the orders agree in every scope and store exactly when it holds no call. */
  lemma RaceExactly(x: Name, r: Exp, funs: set<Name>)
    requires Typed(r, funs) && x !in funs
    ensures AlwaysSame(Exp.Add(Var(x), r)) <==> !HasCall(r)
  {
    if HasCall(r) {
      CallDisturbs(x, r, funs);
    } else {
      CallFreeSame(Var(x), r);
    }
  }

  /** From left to right the variable still counts 1, with the locals last 10. */
  lemma CallDisturbs(x: Name, r: Exp, funs: set<Name>)
    requires Typed(r, funs) && x !in funs && HasCall(r)
    ensures !AlwaysSame(Exp.Add(Var(x), r))
  {
    var st := Store([NumV(1)], RaceGlobals(x, Names(r), funs));
    RaceLookup(x, x);
    TypedRuns(r, x, funs, Names(r), st, st, 1);
    var e, env := Exp.Add(Var(x), r), RaceEnv(x);
    assert ReadLast(LocalsLast, e.l, env) && !ReadLast(LeftToRight, e.l, env);
    var a, b := EvalExp(LeftToRight, r, env, st, 1), EvalExp(LocalsLast, r, env, st, 1);
    assert EvalExp(LocalsLast, Var(x), env, b.st, 1) == Value(NumV(10), b.st);
    assert EvalExp(LocalsLast, e, env, st, 1) == Value(NumV(10 + b.v.n), b.st);
    assert EvalExp(LeftToRight, Var(x), env, st, 1) == Value(NumV(1), st);
    assert EvalExp(LeftToRight, e, env, st, 1) == Value(NumV(1 + a.v.n), a.st);
    assert !SameIn(e, env, st, 1);
  }

  lemma CallFreeSame(l: Exp, r: Exp)
    requires !HasCall(l) && !HasCall(r)
    ensures AlwaysSame(Exp.Add(l, r))
  {
    forall env, st, fuel ensures SameIn(Exp.Add(l, r), env, st, fuel) {
      CallFree(Exp.Add(l, r), env, st, fuel);
    }
  }

  // ------------------------------------------------ programs without a race

  /** The names declared in the function itself once `s` has run, when there were `own` before. */
  function Own(s: Stat, own: set<Name>): set<Name> {
    match s
    case Seq(a, b) => Own(b, Own(a, own))
    case Local(x, _) => own + {x}
    case LocalFunction(x, _, _) => own + {x}
    case _ => own
  }

  /**
  No sum reads a variable while a call may change it: where a variable of the function itself stands on the left of a
  call, its name is one of `p`, the names that only the function declaring them assigns.
  */
  predicate ExpSafe(e: Exp, own: set<Name>, p: set<Name>) {
    match e
    case Add(l, r) => ExpSafe(l, own, p) && ExpSafe(r, own, p) && (l.Var? && l.x in own && HasCall(r) ==> l.x in p)
    case Function(param, body) => StatSafe(body, {param}, p)
    case Call(f, a) => ExpSafe(f, own, p) && ExpSafe(a, own, p)
    case _ => true
  }

  predicate StatSafe(s: Stat, own: set<Name>, p: set<Name>) {
    match s
    case Skip => true
    case Seq(a, b) => StatSafe(a, own, p) && StatSafe(b, Own(a, own), p)
    case Local(_, e) => ExpSafe(e, own, p)
    case LocalFunction(_, param, body) => StatSafe(body, {param}, p)
    case Assign(x, e) => ExpSafe(e, own, p) && (x in p ==> x in own)
    case Eval(e) => ExpSafe(e, own, p)
    case Do(a) => StatSafe(a, own, p)
    case If(e, a, b) => ExpSafe(e, own, p) && StatSafe(a, own, p) && StatSafe(b, own, p)
    case While(e, a) => ExpSafe(e, own, p) && StatSafe(a, own, p)
    case Repeat(a, e) => StatSafe(a, own, p) && ExpSafe(e, Own(a, own), p)
    case Break => true
    case Return(e) => ExpSafe(e, own, p)
  }

  // ------------------------------------------------------------ the invariant

  ghost predicate BindingOk(b: Binding, names: seq<Name>) {
    b.cell < |names| && names[b.cell] == b.x
  }

  /** Every variable in scope has a cell that was made for its name. */
  ghost predicate Named(env: Env, names: seq<Name>) {
    forall d, i :: 0 <= d < |env| && 0 <= i < |env[d]| ==> BindingOk(env[d][i], names)
  }

  ghost predicate FunOk(v: ScopeLang.Value, names: seq<Name>, p: set<Name>) {
    v.FunV? ==> StatSafe(v.body, {v.param}, p) && Named(v.env, names)
  }

  ghost predicate StoreOk(st: Store, names: seq<Name>, p: set<Name>) {
    && |names| == |st.cells|
    && (forall c :: 0 <= c < |st.cells| ==> FunOk(st.cells[c], names, p))
    && (forall x :: x in st.globals ==> FunOk(st.globals[x], names, p))
  }

  /** The running function declares exactly the names `own`, in cells from `floor` on. */
  ghost predicate EnvOk(env: Env, names: seq<Name>, own: set<Name>, floor: nat) {
    && env != [] && Named(env, names)
    && (forall x :: x in own <==> IsOwn(env, x))
    && CellsFrom(env[|env| - 1], floor)
  }

  ghost predicate CellsFrom(level: seq<Binding>, floor: nat) {
    forall i :: 0 <= i < |level| ==> level[i].cell >= floor
  }

  /** The cells below `floor` whose names are in `p` hold what they held. */
  ghost predicate Kept(st: Store, st2: Store, names: seq<Name>, p: set<Name>, floor: nat) {
    && floor <= |st.cells| <= |st2.cells| && |st.cells| <= |names|
    && forall c :: 0 <= c < floor && names[c] in p ==> st2.cells[c] == st.cells[c]
  }

  lemma NamedGrows(env: Env, names: seq<Name>, names2: seq<Name>)
    requires Named(env, names) && names <= names2
    ensures Named(env, names2)
  {
    forall d, i | 0 <= d < |env| && 0 <= i < |env[d]| ensures BindingOk(env[d][i], names2) {
      assert BindingOk(env[d][i], names);
    }
  }

  lemma FunGrows(v: ScopeLang.Value, names: seq<Name>, names2: seq<Name>, p: set<Name>)
    requires FunOk(v, names, p) && names <= names2
    ensures FunOk(v, names2, p)
  {
    if v.FunV? {
      NamedGrows(v.env, names, names2);
    }
  }

  lemma EnvGrows(env: Env, names: seq<Name>, names2: seq<Name>, own: set<Name>, floor: nat)
    requires EnvOk(env, names, own, floor) && names <= names2
    ensures EnvOk(env, names2, own, floor)
  {
    NamedGrows(env, names, names2);
  }

  lemma KeptTrans(
      a: Store, b: Store, c: Store, names: seq<Name>, names2: seq<Name>, p: set<Name>, floor: nat, floor2: nat)
    requires Kept(a, b, names, p, floor) && Kept(b, c, names2, p, floor2) && names <= names2 && floor <= floor2
    ensures Kept(a, c, names, p, floor)
  {
  }

  lemma {:induction false} LookupNamed(env: Env, names: seq<Name>, x: Name)
    requires Named(env, names)
    ensures Lookup(env, x).Cell? ==> Lookup(env, x).c < |names| && names[Lookup(env, x).c] == x
  {
    if env != [] {
      var top := |env| - 1;
      var i := LastIn(env[top], x);
      if i >= 0 {
        assert BindingOk(env[top][i], names);
      } else {
        var outer: Env := env[..top];
        forall d, j | 0 <= d < |outer| && 0 <= j < |outer[d]| ensures BindingOk(outer[d][j], names) {
          assert outer[d] == env[d];
        }
        LookupNamed(outer, names, x);
      }
    }
  }

  // -------------------------------------------------------- both orders agree

  /** The same result; if it is a value the store is in order and keeps what was there under a name of `p`. */
  ghost predicate ExpSame(r: Evaluated, r2: Evaluated, st: Store, names: seq<Name>, names2: seq<Name>, p: set<Name>) {
    && r == r2
    && (r.Value? ==>
          names <= names2 && StoreOk(r.st, names2, p) && FunOk(r.v, names2, p) && Kept(st, r.st, names, p, |st.cells|))
  }

  ghost predicate StatSame(
      r: Executed, r2: Executed, st: Store, names: seq<Name>, names2: seq<Name>, own: set<Name>, p: set<Name>,
      floor: nat)
  {
    && r == r2
    && names <= names2
    && (r.Normal? ==> EnvOk(r.env, names2, own, floor))
    && (r.Normal? || r.Broke? || r.Returned? ==> StoreOk(r.st, names2, p) && Kept(st, r.st, names, p, floor))
    && (r.Returned? ==> FunOk(r.v, names2, p))
  }

  lemma VarSame(x: Name, env: Env, st: Store, names: seq<Name>, own: set<Name>, p: set<Name>, floor: nat, fuel: nat)
    requires EnvOk(env, names, own, floor) && StoreOk(st, names, p)
    ensures ExpSame(
              EvalExp(LeftToRight, Var(x), env, st, fuel), EvalExp(LocalsLast, Var(x), env, st, fuel),
              st, names, names, p)
    ensures EvalExp(LocalsLast, Var(x), env, st, fuel).Value?
  {
    LookupNamed(env, names, x);
  }

  lemma {:induction false} SameExp(
      e: Exp, env: Env, st: Store, names: seq<Name>, own: set<Name>, p: set<Name>, floor: nat, fuel: nat)
    returns (names2: seq<Name>)
    requires ExpSafe(e, own, p) && EnvOk(env, names, own, floor) && StoreOk(st, names, p)
    ensures ExpSame(EvalExp(LeftToRight, e, env, st, fuel), EvalExp(LocalsLast, e, env, st, fuel), st, names, names2, p)
    decreases fuel, e, 1
  {
    names2 := names;
    match e {
      case Nil =>
      case Num(_) =>
      case Var(x) => VarSame(x, env, st, names, own, p, floor, fuel);
      case Add(l, r) =>
        if ReadLast(LocalsLast, l, env) {
          names2 := SameLate(l, r, env, st, names, own, p, floor, fuel);
        } else {
          names2 := SameEarly(l, r, env, st, names, own, p, floor, fuel);
        }
      case Function(_, _) =>
      case Call(f, a) => names2 := SameCall(f, a, env, st, names, own, p, floor, fuel);
    }
  }

  /** The variable on the left still has its value when the right operand has been evaluated. */
  lemma {:induction false} SameLate(
      l: Exp, r: Exp, env: Env, st: Store, names: seq<Name>, own: set<Name>, p: set<Name>, floor: nat, fuel: nat)
    returns (names2: seq<Name>)
    requires ExpSafe(Exp.Add(l, r), own, p) && EnvOk(env, names, own, floor) && StoreOk(st, names, p)
    requires ReadLast(LocalsLast, l, env)
    ensures var e := Exp.Add(l, r);
      ExpSame(EvalExp(LeftToRight, e, env, st, fuel), EvalExp(LocalsLast, e, env, st, fuel), st, names, names2, p)
    decreases fuel, Exp.Add(l, r), 0
  {
    VarSame(l.x, env, st, names, own, p, floor, fuel);
    names2 := SameExp(r, env, st, names, own, p, floor, fuel);
    var b := EvalExp(LocalsLast, r, env, st, fuel);
    if b.Value? {
      if HasCall(r) {
        LookupNamed(env, names, l.x);
      } else {
        CallFree(r, env, st, fuel);
      }
      OwnFound(env, l.x);
      assert EvalExp(LocalsLast, l, env, b.st, fuel) == Value(EvalExp(LeftToRight, l, env, st, fuel).v, b.st);
    }
  }

  lemma OwnFound(env: Env, x: Name)
    requires IsOwn(env, x)
    ensures var top := env[|env| - 1]; Lookup(env, x) == Cell(top[LastIn(top, x)].cell)
  {
  }

  lemma {:induction false} SameEarly(
      l: Exp, r: Exp, env: Env, st: Store, names: seq<Name>, own: set<Name>, p: set<Name>, floor: nat, fuel: nat)
    returns (names2: seq<Name>)
    requires ExpSafe(Exp.Add(l, r), own, p) && EnvOk(env, names, own, floor) && StoreOk(st, names, p)
    requires !ReadLast(LocalsLast, l, env)
    ensures var e := Exp.Add(l, r);
      ExpSame(EvalExp(LeftToRight, e, env, st, fuel), EvalExp(LocalsLast, e, env, st, fuel), st, names, names2, p)
    decreases fuel, Exp.Add(l, r), 0
  {
    hide StoreOk, EnvOk, Kept;
    var names1 := SameExp(l, env, st, names, own, p, floor, fuel);
    var a := EvalExp(LocalsLast, l, env, st, fuel);
    names2 := names1;
    if a.Value? {
      EnvGrows(env, names, names1, own, floor);
      names2 := SameExp(r, env, a.st, names1, own, p, floor, fuel);
      var b := EvalExp(LocalsLast, r, env, a.st, fuel);
      if b.Value? {
        KeptLater(st, a.st, b.st, names, names1, p);
        
      }
    }
  }

  lemma KeptLater(a: Store, b: Store, c: Store, names: seq<Name>, names2: seq<Name>, p: set<Name>)
    requires Kept(a, b, names, p, |a.cells|) && Kept(b, c, names2, p, |b.cells|) && names <= names2
    ensures Kept(a, c, names, p, |a.cells|)
  {
    KeptTrans(a, b, c, names, names2, p, |a.cells|, |b.cells|);
  }

  lemma {:induction false} SameCall(
      f: Exp, arg: Exp, env: Env, st: Store, names: seq<Name>, own: set<Name>, p: set<Name>, floor: nat, fuel: nat)
    returns (names2: seq<Name>)
    requires ExpSafe(Call(f, arg), own, p) && EnvOk(env, names, own, floor) && StoreOk(st, names, p)
    ensures var e := Call(f, arg);
      ExpSame(EvalExp(LeftToRight, e, env, st, fuel), EvalExp(LocalsLast, e, env, st, fuel), st, names, names2, p)
    decreases fuel, Call(f, arg), 0
  {
    hide StoreOk, EnvOk, Kept, FunOk;
    var names1 := SameExp(f, env, st, names, own, p, floor, fuel);
    var a := EvalExp(LocalsLast, f, env, st, fuel);
    names2 := names1;
    if a.Value? {
      EnvGrows(env, names, names1, own, floor);
      var names3 := SameExp(arg, env, a.st, names1, own, p, floor, fuel);
      var b := EvalExp(LocalsLast, arg, env, a.st, fuel);
      if b.Value? && a.v.FunV? && fuel > 0 {
        FunGrows(a.v, names1, names3, p);
        names2 := SameApply(a.v, b.v, b.st, names3, p, fuel);
        KeptLater(st, a.st, b.st, names, names1, p);
        var r := Apply(LocalsLast, a.v, b.v, b.st, fuel);
        if r.Value? {
          KeptLater(st, b.st, r.st, names, names3, p);
        }
      }
    }
  }

  lemma ParameterOk(f: ScopeLang.Value, arg: ScopeLang.Value, st: Store, names: seq<Name>, p: set<Name>)
    requires f.FunV? && FunOk(f, names, p) && FunOk(arg, names, p) && StoreOk(st, names, p)
    ensures var env, names2 := f.env + [[Binding(f.param, |st.cells|)]], names + [f.param];
      EnvOk(env, names2, {f.param}, |st.cells|) && StoreOk(Alloc(st, arg), names2, p) && names <= names2
  {
    var last := [Binding(f.param, |st.cells|)];
    var env, names2 := f.env + [last], names + [f.param];
    NamedGrows(f.env, names, names2);
    forall d, i | 0 <= d < |env| && 0 <= i < |env[d]| ensures BindingOk(env[d][i], names2) {
      if d < |f.env| {
        assert BindingOk(f.env[d][i], names2);
      }
    }
    assert env[|env| - 1] == last;
    assert last[..0] == [];
    forall x ensures x in {f.param} <==> IsOwn(env, x) {
    }
    AllocOk(st, arg, names, f.param, p);
  }

  /** A new cell. */
  lemma AllocOk(st: Store, v: ScopeLang.Value, names: seq<Name>, x: Name, p: set<Name>)
    requires StoreOk(st, names, p) && FunOk(v, names + [x], p)
    ensures StoreOk(Alloc(st, v), names + [x], p)
  {
    var names2 := names + [x];
    assert names <= names2;
    forall c | 0 <= c < |st.cells| ensures FunOk(st.cells[c], names2, p) {
      FunGrows(st.cells[c], names, names2, p);
    }
    forall y | y in st.globals ensures FunOk(st.globals[y], names2, p) {
      FunGrows(st.globals[y], names, names2, p);
    }
  }

  lemma {:induction false} SameApply(
      f: ScopeLang.Value, arg: ScopeLang.Value, st: Store, names: seq<Name>, p: set<Name>, fuel: nat)
    returns (names2: seq<Name>)
    requires f.FunV? && fuel > 0 && FunOk(f, names, p) && FunOk(arg, names, p) && StoreOk(st, names, p)
    ensures ExpSame(Apply(LeftToRight, f, arg, st, fuel), Apply(LocalsLast, f, arg, st, fuel), st, names, names2, p)
    decreases fuel - 1, f, 0
  {
    var env := f.env + [[Binding(f.param, |st.cells|)]];
    ParameterOk(f, arg, st, names, p);
    assert FunOk(arg, names + [f.param], p) by {
      FunGrows(arg, names, names + [f.param], p);
    }
    names2 := SameStat(f.body, env, Alloc(st, arg), names + [f.param], {f.param}, p, |st.cells|, fuel - 1);
  }

  lemma {:induction false} SameStat(
      s: Stat, env: Env, st: Store, names: seq<Name>, own: set<Name>, p: set<Name>, floor: nat, fuel: nat)
    returns (names2: seq<Name>)
    requires StatSafe(s, own, p) && EnvOk(env, names, own, floor) && StoreOk(st, names, p) && floor <= |st.cells|
    ensures StatSame(ExecStat(LeftToRight, s, env, st, fuel),
              ExecStat(LocalsLast, s, env, st, fuel),
              st, names, names2, Own(s, own), p, floor)
    decreases fuel, s, 2
  {
    names2 := names;
    match s {
      case Skip => KeptRefl(st, names, p, floor);
      case Seq(a, b) => names2 := SameSeq(a, b, env, st, names, own, p, floor, fuel);
      case Local(x, e) => names2 := SameLocal(x, e, env, st, names, own, p, floor, fuel);
      case LocalFunction(x, param, body) =>
        names2 := names + [x];
        DeclareOk(env, names, own, floor, x);
        AllocOk(st, FunV(param, body, Declare(env, x, |st.cells|)), names, x, p);
      case Assign(x, e) => names2 := SameAssign(x, e, env, st, names, own, p, floor, fuel);
      case Eval(e) => names2 := SameValue(e, env, st, names, own, p, floor, fuel);
      case Do(a) => names2 := SameBlock(a, env, st, names, own, p, floor, fuel);
      case If(e, a, b) => names2 := SameIf(e, a, b, env, st, names, own, p, floor, fuel);
      case While(e, a) => names2 := SameWhile(e, a, env, st, names, own, p, floor, fuel);
      case Repeat(a, e) => names2 := SameRepeat(a, e, env, st, names, own, p, floor, fuel);
      case Break => KeptRefl(st, names, p, floor);
      case Return(e) => names2 := SameValue(e, env, st, names, own, p, floor, fuel);
    }
  }

  lemma KeptRefl(st: Store, names: seq<Name>, p: set<Name>, floor: nat)
    requires StoreOk(st, names, p) && floor <= |st.cells|
    ensures Kept(st, st, names, p, floor)
  {
  }

  lemma DeclareOk(env: Env, names: seq<Name>, own: set<Name>, floor: nat, x: Name)
    requires EnvOk(env, names, own, floor) && floor <= |names|
    ensures EnvOk(Declare(env, x, |names|), names + [x], own + {x}, floor)
  {
    var top, names2 := |env| - 1, names + [x];
    var b := Binding(x, |names|);
    var env2 := Declare(env, x, |names|);
    NamedGrows(env, names, names2);
    forall d, i | 0 <= d < |env2| && 0 <= i < |env2[d]| ensures BindingOk(env2[d][i], names2) {
      if d < top || i < |env[top]| {
        assert env2[d][i] == env[d][i];
        assert BindingOk(env[d][i], names2);
      }
    }
    assert env2[top][..|env[top]|] == env[top];
    forall y ensures y in own + {x} <==> IsOwn(env2, y) {
      assert y in own <==> IsOwn(env, y);
    }
  }

  /** What `e` leaves, seen from a statement that evaluates it. */
  lemma {:induction false} SameValue(
      e: Exp, env: Env, st: Store, names: seq<Name>, own: set<Name>, p: set<Name>, floor: nat, fuel: nat)
    returns (names2: seq<Name>)
    requires ExpSafe(e, own, p) && EnvOk(env, names, own, floor) && StoreOk(st, names, p) && floor <= |st.cells|
    ensures EvalExp(LeftToRight, e, env, st, fuel) == EvalExp(LocalsLast, e, env, st, fuel)
    ensures names <= names2 && EnvOk(env, names2, own, floor)
    ensures var r := EvalExp(LocalsLast, e, env, st, fuel);
      r.Value? ==>
        StoreOk(r.st, names2, p) && FunOk(r.v, names2, p) && Kept(st, r.st, names, p, floor) && floor <= |r.st.cells|
    decreases fuel, e, 2
  {
    names2 := SameExp(e, env, st, names, own, p, floor, fuel);
    if EvalExp(LocalsLast, e, env, st, fuel).Value? {
      EnvGrows(env, names, names2, own, floor);
    } else {
      names2 := names;
    }
  }

  lemma {:induction false} SameSeq(
      a: Stat, b: Stat, env: Env, st: Store, names: seq<Name>, own: set<Name>, p: set<Name>, floor: nat, fuel: nat)
    returns (names2: seq<Name>)
    requires StatSafe(Seq(a, b), own, p) && EnvOk(env, names, own, floor) && StoreOk(st, names, p)
    requires floor <= |st.cells|
    ensures StatSame(ExecStat(LeftToRight, Seq(a, b), env, st, fuel),
              ExecStat(LocalsLast, Seq(a, b), env, st, fuel),
              st, names, names2, Own(Seq(a, b), own), p, floor)
    decreases fuel, Seq(a, b), 1
  {
    hide StoreOk;
    var names1 := SameStat(a, env, st, names, own, p, floor, fuel);
    names2 := names1;
    var r := ExecStat(LocalsLast, a, env, st, fuel);
    if r.Normal? {
      names2 := SameStat(b, r.env, r.st, names1, Own(a, own), p, floor, fuel);
    }
  }

  lemma {:induction false} SameLocal(
      x: Name, e: Exp, env: Env, st: Store, names: seq<Name>, own: set<Name>, p: set<Name>, floor: nat, fuel: nat)
    returns (names2: seq<Name>)
    requires StatSafe(Stat.Local(x, e), own, p) && EnvOk(env, names, own, floor) && StoreOk(st, names, p)
    requires floor <= |st.cells|
    ensures StatSame(ExecStat(LeftToRight, Stat.Local(x, e), env, st, fuel),
              ExecStat(LocalsLast, Stat.Local(x, e), env, st, fuel),
              st, names, names2, own + {x}, p, floor)
    decreases fuel, Stat.Local(x, e), 1
  {
    var names1 := SameValue(e, env, st, names, own, p, floor, fuel);
    names2 := names1;
    var r := EvalExp(LocalsLast, e, env, st, fuel);
    if r.Value? {
      names2 := names1 + [x];
      assert names1 <= names2;
      DeclareOk(env, names1, own, floor, x);
      FunGrows(r.v, names1, names2, p);
      AllocOk(r.st, r.v, names1, x, p);
    }
  }

  lemma {:induction false} SameAssign(
      x: Name, e: Exp, env: Env, st: Store, names: seq<Name>, own: set<Name>, p: set<Name>, floor: nat, fuel: nat)
    returns (names2: seq<Name>)
    requires StatSafe(Assign(x, e), own, p) && EnvOk(env, names, own, floor) && StoreOk(st, names, p)
    requires floor <= |st.cells|
    ensures StatSame(ExecStat(LeftToRight, Assign(x, e), env, st, fuel),
              ExecStat(LocalsLast, Assign(x, e), env, st, fuel),
              st, names, names2, own, p, floor)
    decreases fuel, Assign(x, e), 1
  {
    names2 := SameValue(e, env, st, names, own, p, floor, fuel);
    var r := EvalExp(LocalsLast, e, env, st, fuel);
    if r.Value? {
      WriteSame(x, r.v, env, r.st, names2, own, p, floor);
    }
  }

  /** An assignment to a name of `p` is one to a variable of the function itself, whose cell is new. */
  lemma WriteSame(
      x: Name, v: ScopeLang.Value, env: Env, st: Store, names: seq<Name>, own: set<Name>, p: set<Name>, floor: nat)
    requires (x in p ==> x in own) && EnvOk(env, names, own, floor) && StoreOk(st, names, p) && FunOk(v, names, p)
    requires floor <= |st.cells|
    ensures var r := Write(env, st, x, v);
      r.Normal? && r.env == env && StoreOk(r.st, names, p) && Kept(st, r.st, names, p, floor)
  {
    LookupNamed(env, names, x);
    if x in p {
      OwnFound(env, x);
    }
  }

  lemma {:induction false} SameBlock(
      s: Stat, env: Env, st: Store, names: seq<Name>, own: set<Name>, p: set<Name>, floor: nat, fuel: nat)
    returns (names2: seq<Name>)
    requires StatSafe(s, own, p) && EnvOk(env, names, own, floor) && StoreOk(st, names, p) && floor <= |st.cells|
    ensures StatSame(ExecBlock(LeftToRight, s, env, st, fuel), ExecBlock(LocalsLast, s, env, st, fuel),
              st, names, names2, own, p, floor)
    decreases fuel, s, 3
  {
    names2 := SameStat(s, env, st, names, own, p, floor, fuel);
    EnvGrows(env, names, names2, own, floor);
  }

  lemma {:induction false} SameIf(
      e: Exp, a: Stat, b: Stat, env: Env, st: Store, names: seq<Name>, own: set<Name>, p: set<Name>, floor: nat,
      fuel: nat)
    returns (names2: seq<Name>)
    requires StatSafe(If(e, a, b), own, p) && EnvOk(env, names, own, floor) && StoreOk(st, names, p)
    requires floor <= |st.cells|
    ensures StatSame(ExecStat(LeftToRight, If(e, a, b), env, st, fuel),
              ExecStat(LocalsLast, If(e, a, b), env, st, fuel),
              st, names, names2, own, p, floor)
    decreases fuel, If(e, a, b), 1
  {
    hide StoreOk;
    var names1 := SameValue(e, env, st, names, own, p, floor, fuel);
    names2 := names1;
    var r := EvalExp(LocalsLast, e, env, st, fuel);
    if r.Value? {
      if IsTrue(r.v) {
        names2 := SameBlock(a, env, r.st, names1, own, p, floor, fuel);
      } else {
        names2 := SameBlock(b, env, r.st, names1, own, p, floor, fuel);
      }
    }
  }

  lemma KeptFloor(st: Store, st2: Store, names: seq<Name>, p: set<Name>, floor: nat)
    requires Kept(st, st2, names, p, floor)
    ensures floor <= |st2.cells|
  {
  }

  /** The same behind what has been run already. */
  lemma SameLater(
      r: Executed, r2: Executed, st: Store, mid: Store, names: seq<Name>, names1: seq<Name>, names2: seq<Name>,
      own: set<Name>, p: set<Name>, floor: nat)
    requires Kept(st, mid, names, p, floor) && names <= names1 && StatSame(r, r2, mid, names1, names2, own, p, floor)
    ensures StatSame(r, r2, st, names, names2, own, p, floor)
  {
    if r.Normal? || r.Broke? || r.Returned? {
      KeptTrans(st, mid, r.st, names, names1, p, floor, floor);
    }
  }

  lemma {:induction false} SameWhile(
      e: Exp, a: Stat, env: Env, st: Store, names: seq<Name>, own: set<Name>, p: set<Name>, floor: nat, fuel: nat)
    returns (names2: seq<Name>)
    requires StatSafe(While(e, a), own, p) && EnvOk(env, names, own, floor) && StoreOk(st, names, p)
    requires floor <= |st.cells|
    ensures StatSame(ExecStat(LeftToRight, While(e, a), env, st, fuel),
              ExecStat(LocalsLast, While(e, a), env, st, fuel),
              st, names, names2, own, p, floor)
    decreases fuel, While(e, a), 1
  {
    hide StoreOk, EnvOk, Kept;
    var names1 := SameValue(e, env, st, names, own, p, floor, fuel);
    names2 := names1;
    var r := EvalExp(LocalsLast, e, env, st, fuel);
    if r.Value? && IsTrue(r.v) {
      var names3 := SameBlock(a, env, r.st, names1, own, p, floor, fuel);
      names2 := names3;
      EnvGrows(env, names1, names3, own, floor);
      var r2 := ExecBlock(LocalsLast, a, env, r.st, fuel);
      SameLater(ExecBlock(LeftToRight, a, env, r.st, fuel), r2, st, r.st, names, names1, names3, own, p, floor);
      if r2.Normal? && fuel > 0 {
        KeptFloor(st, r2.st, names, p, floor);
        names2 := SameStat(While(e, a), env, r2.st, names3, own, p, floor, fuel - 1);
        SameLater(ExecStat(LeftToRight, While(e, a), env, r2.st, fuel - 1),
          ExecStat(LocalsLast, While(e, a), env, r2.st, fuel - 1),
          st, r2.st, names, names3, names2, own, p, floor);
      }
    }
  }

  lemma {:induction false} SameRepeat(
      a: Stat, e: Exp, env: Env, st: Store, names: seq<Name>, own: set<Name>, p: set<Name>, floor: nat, fuel: nat)
    returns (names2: seq<Name>)
    requires StatSafe(Repeat(a, e), own, p) && EnvOk(env, names, own, floor) && StoreOk(st, names, p)
    requires floor <= |st.cells|
    ensures StatSame(ExecStat(LeftToRight, Repeat(a, e), env, st, fuel),
              ExecStat(LocalsLast, Repeat(a, e), env, st, fuel),
              st, names, names2, own, p, floor)
    decreases fuel, Repeat(a, e), 1
  {
    hide StoreOk;
    var names1 := SameStat(a, env, st, names, own, p, floor, fuel);
    names2 := names1;
    EnvGrows(env, names, names1, own, floor);
    var r := ExecStat(LocalsLast, a, env, st, fuel);
    if r.Normal? {
      var names3 := SameValue(e, r.env, r.st, names1, Own(a, own), p, floor, fuel);
      names2 := names3;
      EnvGrows(env, names1, names3, own, floor);
      var r2 := EvalExp(LocalsLast, e, r.env, r.st, fuel);
      if r2.Value? && !IsTrue(r2.v) && fuel > 0 {
        names2 := SameStat(Repeat(a, e), env, r2.st, names3, own, p, floor, fuel - 1);
      }
    }
  }

  // -------------------------------------------------------------- programs

  /**
  Whole programs: if no sum reads a variable of its function before a call, except one that only the function declaring
  it assigns, then both orders run alike, for every amount of fuel.
  */
  lemma OrderIrrelevant(s: Stat, p: set<Name>, fuel: nat)
    requires StatSafe(s, {}, p)
    ensures RunProgram(LeftToRight, s, fuel) == RunProgram(LocalsLast, s, fuel)
  {
    var env: Env := [[]];
    assert EnvOk(env, [], {}, 0);
    var names2 := SameStat(s, env, Store([], map[]), [], {}, p, 0, fuel);
  }

  /** Such a program, compiled, runs as from left to right. */
  lemma CompiledLeftToRight(s: Stat, calls: nat, p: set<Name>, fuel: nat)
    requires StatSafe(s, {}, p) && C.CompileProgram(s, calls).Done?
    ensures S.SameOutcome(RunProgram(LeftToRight, s, fuel), V.RunCode(C.CompileProgram(s, calls).code, fuel))
  {
    OrderIrrelevant(s, p, fuel);
    S.CompiledRuns(s, calls, fuel);
  }

  /** `local x = 1; local function f(a) x = 10; return 1 end; return x + f(nil)`. */
  const RACE_BODY: Stat := Seq(Assign("x", Num(10)), Return(Num(1)))
  const RACE_SUM: Exp := Exp.Add(Var("x"), Call(Var("f"), Nil))
  const RACE: Stat := Seq(Stat.Local("x", Num(1)), Seq(LocalFunction("f", "a", RACE_BODY), Return(RACE_SUM)))

  /** What the last expression finds: both variables, and the function around the scope it was made in. */
  function RaceScope(): Env {
    [[Binding("x", 0), Binding("f", 1)]]
  }

  function RaceFunction(): ScopeLang.Value {
    FunV("a", RACE_BODY, RaceScope())
  }

  lemma RaceBegins(order: Order, fuel: nat)
    ensures RunProgram(order, RACE, fuel)
      == ExecStat(order, Return(RACE_SUM), RaceScope(), Store([NumV(1), RaceFunction()], map[]), fuel)
  {
    hide RACE_SUM, RACE_BODY;
    var start: Env, env: Env := [[]], [[Binding("x", 0)]];
    var none := Store([], map[]);
    var st := Store([NumV(1)], map[]);
    assert start[0] + [Binding("x", 0)] == env[0];
    assert Declare(start, "x", 0) == env;
    assert ExecStat(order, Stat.Local("x", Num(1)), start, none, fuel) == Normal(env, st);
    assert env[0] + [Binding("f", 1)] == RaceScope()[0];
    assert Declare(env, "f", 1) == RaceScope();
    assert ExecStat(order, LocalFunction("f", "a", RACE_BODY), env, st, fuel)
        == Normal(RaceScope(), Store([NumV(1), RaceFunction()], map[]));
    assert ExecStat(order, Seq(LocalFunction("f", "a", RACE_BODY), Return(RACE_SUM)), env, st, fuel)
        == ExecStat(order, Return(RACE_SUM), RaceScope(), Store([NumV(1), RaceFunction()], map[]), fuel);
  }

  lemma RaceNames()
    ensures Lookup(RaceScope(), "x") == Cell(0) && Lookup(RaceScope(), "f") == Cell(1) && IsOwn(RaceScope(), "x")
    ensures Lookup(RaceScope() + [[Binding("a", 2)]], "x") == Cell(0)
  {
    var b := RaceScope()[0];
    assert b[..1] == [Binding("x", 0)] && b[..1][..0] == [];
    assert LastIn(b[..1], "x") == 0;
    var inner := RaceScope() + [[Binding("a", 2)]];
    assert inner[..1] == RaceScope() && inner[1][..0] == [];
    assert LastIn(inner[1], "x") == -1;
  }

  lemma RaceCalls(order: Order)
    ensures var st := Store([NumV(1), RaceFunction()], map[]);
      EvalExp(order, Call(Var("f"), Nil), RaceScope(), st, 1)
        == Value(NumV(1), Store([NumV(10), RaceFunction(), NilV], map[]))
  {
    RaceNames();
    var env, f := RaceScope() + [[Binding("a", 2)]], RaceFunction();
    var st, st2 := Store([NumV(1), f, NilV], map[]), Store([NumV(10), f, NilV], map[]);
    assert ExecStat(order, Assign("x", Num(10)), env, st, 0) == Normal(env, st2);
    assert ExecStat(order, f.body, env, st, 0) == Returned(NumV(1), st2);
    assert Alloc(Store([NumV(1), f], map[]), NilV) == st;
    assert Apply(order, f, NilV, Store([NumV(1), f], map[]), 1) == Value(NumV(1), st2);
  }

  lemma RaceSums()
    ensures var env, st := RaceScope(), Store([NumV(1), RaceFunction()], map[]);
      var a, b := EvalExp(LeftToRight, RACE_SUM, env, st, 1), EvalExp(LocalsLast, RACE_SUM, env, st, 1);
      a.Value? && b.Value? && a.v == NumV(2) && b.v == NumV(11)
  {
    RaceNames();
    RaceCalls(LeftToRight);
    RaceCalls(LocalsLast);
  }

  /** Not every program is safe: this one returns 2 from left to right, and its code returns 11. */
  lemma CompiledDiffers()
    ensures forall p: set<Name> :: !StatSafe(RACE, {}, p)
    ensures var r := RunProgram(LeftToRight, RACE, 1); r.Returned? && r.v == NumV(2)
    ensures C.CompileProgram(RACE, 0).Done?
    ensures var r := V.RunCode(C.CompileProgram(RACE, 0).code, 1); r.Returned? && r.v == V.Value.NumV(11)
  {
    hide RACE, RACE_SUM, C.CompileProgram, V.RunCode, RunProgram;
    RaceUnsafe();
    RaceCompiles();
    S.CompiledRuns(RACE, 0, 1);
    RaceBegins(LeftToRight, 1);
    RaceBegins(LocalsLast, 1);
    RaceSums();
  }

  lemma RaceUnsafe()
    ensures forall p: set<Name> :: !StatSafe(RACE, {}, p)
  {
    forall p: set<Name> ensures !StatSafe(RACE, {}, p) {
      assert "x"[0] != "a"[0];
      assert StatSafe(Assign("x", Num(10)), {"a"}, p) ==> "x" !in p;
      assert StatSafe(RACE_BODY, {"a"}, p) ==> "x" !in p;
      var own := {"x"} + {"f"};
      assert Own(RACE.s, {}) == {"x"} && Own(RACE.t.s, {"x"}) == own;
      assert HasCall(RACE_SUM.r);
      assert ExpSafe(RACE_SUM, own, p) ==> "x" in p;
      assert StatSafe(RACE.t.s, {"x"}, p) ==> StatSafe(RACE_BODY, {"a"}, p);
      assert StatSafe(RACE.t.t, own, p) ==> ExpSafe(RACE_SUM, own, p);
      assert StatSafe(RACE.t, {"x"}, p) == (StatSafe(RACE.t.s, {"x"}, p) && StatSafe(RACE.t.t, own, p));
    }
  }

  lemma RaceCompiles()
    ensures C.CompileProgram(RACE, 0).Done?
  {
    RaceAsks();
    K.Compiles(RACE, 3, 0);
  }

  lemma RaceAsks()
    ensures K.Uses(RACE) == 3 && K.Decls(RACE) == 3 && K.Breaks(RACE, false) && K.Small(RACE, 3) && C.Levels(RACE) == 3
  {
    BodyAsks();
    SumAsks();
    hide RACE_SUM, RACE_BODY;
    var rest := Seq(LocalFunction("f", "a", RACE_BODY), Return(RACE_SUM));
    assert K.Uses(rest) == 3 && K.Decls(rest) == 2 && K.Breaks(rest, false) && K.Small(rest, 3) && C.Levels(rest) == 3;
  }

  lemma BodyAsks()
    ensures K.Uses(RACE_BODY) == 1 && K.Decls(RACE_BODY) == 0 && K.Breaks(RACE_BODY, false) && K.Small(RACE_BODY, 3)
    ensures C.Levels(RACE_BODY) == 1
  {
  }

  lemma SumAsks()
    ensures K.ExpUses(RACE_SUM) == 2 && K.ExpDecls(RACE_SUM) == 0 && K.ExpBreaks(RACE_SUM) && K.ExpSmall(RACE_SUM, 3)
    ensures K.ExpTemps(RACE_SUM) == 3 && C.ExpLevels(RACE_SUM) == 2
  {
    assert K.ExpTemps(Call(Var("f"), Nil)) == 2 && C.ExpLevels(Call(Var("f"), Nil)) == 1;
  }
}
