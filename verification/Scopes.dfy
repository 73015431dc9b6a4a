/**
Name resolution: the chain of functions being compiled, `searchvar`,
`markupval`, `indexupvalue` and `singlevaraux`, and what upvalue descriptors
stand for.
*/
module Scopes {

  type Name = string

  const MAX_VARS: nat := 200
  const MAX_UPVALUES: nat := 60

  /** Where a closure finds an upvalue: a local of the enclosing function, or one of its upvalues. */
  datatype UpvalDesc = UpvalDesc(fromLocal: bool, info: nat)

  /** `BlockCnt`; `upval` says that a variable of the block is an upvalue. */
  datatype Block = Block(nactvar: nat, upval: bool, isBreakable: bool)

  /** `FuncState`: active local variables, upvalues with their names, and blocks, the innermost last. */
  datatype Func = Func(actvar: seq<Name>, upvalues: seq<UpvalDesc>, names: seq<Name>, blocks: seq<Block>)

  datatype Found = Global | Local(slot: nat) | Upvalue(index: nat) | TooManyUpvalues

  /** What a look-up found, and the functions it leaves; the outermost function comes first. */
  datatype Looked = Looked(found: Found, chain: seq<Func>)

  // -------------------------------------------------------------- the look-up

  /** `searchvar`: the last variable of that name, or -1. */
  function SearchVar(vars: seq<Name>, n: Name): (v: int)
    ensures -1 <= v < |vars|
    ensures v >= 0 ==> vars[v] == n && n !in vars[v + 1..]
    ensures v < 0 ==> n !in vars
  {
    if vars == [] then -1
    else if vars[|vars| - 1] == n then |vars| - 1
    else SearchVar(vars[..|vars| - 1], n)
  }

  /** `markupval`: marks the innermost block that began before variable `level` was declared. */
  function MarkUpval(blocks: seq<Block>, level: nat): (r: seq<Block>)
    ensures |r| == |blocks|
  {
    if blocks == [] then []
    else
      var bl := blocks[|blocks| - 1];
      if bl.nactvar > level then MarkUpval(blocks[..|blocks| - 1], level) + [bl]
      else blocks[|blocks| - 1 := bl.(upval := true)]
  }

  /** The first descriptor equal to `u`, or -1. */
  function FindDesc(upvalues: seq<UpvalDesc>, u: UpvalDesc): (k: int)
    ensures -1 <= k < |upvalues|
    ensures k >= 0 ==> upvalues[k] == u && u !in upvalues[..k]
    ensures k < 0 ==> u !in upvalues
  {
    if upvalues == [] then -1
    else
      var k := FindDesc(upvalues[..|upvalues| - 1], u);
      if k >= 0 then k
      else if upvalues[|upvalues| - 1] == u then |upvalues| - 1 else -1
  }

  function CastByte(i: nat): nat {
    i % 256
  }

  /** `indexupvalue`: the upvalue's index and the function with it, or None if the limit is reached. */
  function IndexUpvalue(f: Func, n: Name, u: UpvalDesc): (r: (int, Func))
  {
    var k := FindDesc(f.upvalues, u);
    if k >= 0 then (k, f)
    else if |f.upvalues| + 1 > MAX_UPVALUES then (-1, f)
    else (|f.upvalues|, f.(upvalues := f.upvalues + [u.(info := CastByte(u.info))], names := f.names + [n]))
  }

  /** `singlevaraux` in the last function of `chain`; `base` is false when an inner function asks. */
  function SingleVarAux(chain: seq<Func>, n: Name, base: bool): (r: Looked)
    ensures |r.chain| == |chain|
    ensures r.found.Local? || r.found.Upvalue? ==> chain != []
  {
    if chain == [] then Looked(Global, [])
    else
      var top := |chain| - 1;
      var f := chain[top];
      var v := SearchVar(f.actvar, n);
      if v >= 0 then
        Looked(Local(v), if base then chain else chain[top := f.(blocks := MarkUpval(f.blocks, v))])
      else
        var outer := SingleVarAux(chain[..top], n, false);
        match outer.found
        case Global => Looked(Global, outer.chain + [f])
        case TooManyUpvalues => Looked(TooManyUpvalues, outer.chain + [f])
        case Local(i) => AsUpvalue(outer.chain, f, n, UpvalDesc(true, i))
        case Upvalue(k) => AsUpvalue(outer.chain, f, n, UpvalDesc(false, k))
  }

  /** What `f` calls the variable that the functions outside it know as `u`. */
  function AsUpvalue(outer: seq<Func>, f: Func, n: Name, u: UpvalDesc): (r: Looked)
    ensures |r.chain| == |outer| + 1 && (r.found.Upvalue? || r.found.TooManyUpvalues?)
  {
    var (k, f2) := IndexUpvalue(f, n, u);
    Looked(if k < 0 then TooManyUpvalues else Upvalue(k), outer + [f2])
  }

  // ------------------------------------------------------------- what names mean

  /** Variable `i` of function `d` is the innermost active declaration of `n`. */
  ghost predicate Visible(chain: seq<Func>, n: Name, d: nat, i: nat) {
    && d < |chain| && i < |chain[d].actvar|
    && chain[d].actvar[i] == n && n !in chain[d].actvar[i + 1..]
    && forall e :: d < e < |chain| ==> n !in chain[e].actvar
  }

  /** No function declares `n`. */
  ghost predicate Undeclared(chain: seq<Func>, n: Name) {
    forall e :: 0 <= e < |chain| ==> n !in chain[e].actvar
  }

  /** Descriptor `u` of function `d` points at something its enclosing function has. */
  ghost predicate DescOk(chain: seq<Func>, d: nat, u: UpvalDesc) {
    && 0 < d < |chain|
    && (if u.fromLocal then u.info < |chain[d - 1].actvar| else u.info < |chain[d - 1].upvalues|)
  }

  ghost predicate FuncLinked(chain: seq<Func>, d: nat) {
    d < |chain| && forall u :: u in chain[d].upvalues ==> DescOk(chain, d, u)
  }

  ghost predicate Linked(chain: seq<Func>) {
    forall d :: 0 <= d < |chain| ==> FuncLinked(chain, d)
  }

  /** The variable that upvalue `k` of function `d` is: the function that declares it and its place there. */
  ghost function Denote(chain: seq<Func>, d: nat, k: nat): (v: (nat, nat))
    requires Linked(chain) && d < |chain| && k < |chain[d].upvalues|
    ensures v.0 < d && v.1 < |chain[v.0].actvar|
  {
    assert FuncLinked(chain, d) && DescOk(chain, d, chain[d].upvalues[k]);
    var u := chain[d].upvalues[k];
    if u.fromLocal then (d - 1, u.info) else Denote(chain, d - 1, u.info)
  }

  /** Variable `i` belongs to a marked block, or to none and thus to the function itself. */
  predicate Marked(blocks: seq<Block>, i: nat) {
    blocks == [] || (if blocks[|blocks| - 1].nactvar > i then Marked(blocks[..|blocks| - 1], i) else blocks[|blocks| - 1].upval)
  }

  // ------------------------------------------------------------ the invariant

  ghost predicate BlocksOk(f: Func) {
    forall j :: 0 <= j < |f.blocks| ==> f.blocks[j].nactvar <= |f.actvar| && (j > 0 ==> f.blocks[j - 1].nactvar <= f.blocks[j].nactvar)
  }

  ghost predicate Distinct(upvalues: seq<UpvalDesc>) {
    forall k, m :: 0 <= k < m < |upvalues| ==> upvalues[k] != upvalues[m]
  }

  ghost predicate FuncOk(f: Func) {
    && |f.actvar| <= MAX_VARS && |f.upvalues| <= MAX_UPVALUES && |f.names| == |f.upvalues|
    && BlocksOk(f) && Distinct(f.upvalues)
  }

  ghost predicate AllFuncsOk(chain: seq<Func>) {
    forall d :: 0 <= d < |chain| ==> FuncOk(chain[d])
  }

  /** Every captured variable of function `d` belongs to a marked block. */
  ghost predicate CapturesMarked(chain: seq<Func>, d: nat) {
    d + 1 < |chain| ==> forall u :: u in chain[d + 1].upvalues && u.fromLocal ==> Marked(chain[d].blocks, u.info)
  }

  ghost predicate AllMarked(chain: seq<Func>) {
    forall d :: 0 <= d < |chain| ==> CapturesMarked(chain, d)
  }

  /** Upvalue `k` of function `d` bears the name of the variable it is. */
  ghost predicate NamedOk(chain: seq<Func>, d: nat, k: nat)
    requires Linked(chain) && d < |chain| && k < |chain[d].upvalues|
  {
    var v := Denote(chain, d, k);
    k < |chain[d].names| && chain[d].names[k] == chain[v.0].actvar[v.1]
  }

  ghost predicate AllNamed(chain: seq<Func>)
    requires Linked(chain)
  {
    forall d, k :: 0 <= d < |chain| && 0 <= k < |chain[d].upvalues| ==> NamedOk(chain, d, k)
  }

  ghost predicate ChainOk(chain: seq<Func>) {
    AllFuncsOk(chain) && Linked(chain) && AllMarked(chain) && AllNamed(chain)
  }

  // ------------------------------------------------------------------ extension

  /** Block list `b` is `a` with perhaps more of its blocks marked. */
  ghost predicate BlocksGrow(a: seq<Block>, b: seq<Block>) {
    |a| == |b| && forall j :: 0 <= j < |a| ==>
      a[j].nactvar == b[j].nactvar && a[j].isBreakable == b[j].isBreakable && (a[j].upval ==> b[j].upval)
  }

  /** `g` is `f` with perhaps more upvalues and marks. */
  ghost predicate FuncGrows(f: Func, g: Func) {
    f.actvar == g.actvar && f.upvalues <= g.upvalues && f.names <= g.names && BlocksGrow(f.blocks, g.blocks)
  }

  ghost predicate Grows(a: seq<Func>, b: seq<Func>) {
    |a| == |b| && forall d :: 0 <= d < |a| ==> FuncGrows(a[d], b[d])
  }

  /** The functions of `a` keep their upvalues, at the same places, in `b`. */
  ghost predicate UpvaluesKept(a: seq<Func>, b: seq<Func>) {
    |a| <= |b| && forall d :: 0 <= d < |a| ==> a[d].upvalues <= b[d].upvalues
  }

  /** Adding upvalues or functions does not change what an earlier upvalue is. */
  lemma {:induction false} DenoteStable(a: seq<Func>, b: seq<Func>, d: nat, k: nat)
    requires Linked(a) && Linked(b) && UpvaluesKept(a, b) && d < |a| && k < |a[d].upvalues|
    ensures k < |b[d].upvalues| && Denote(b, d, k) == Denote(a, d, k)
    decreases d
  {
    assert FuncLinked(a, d) && DescOk(a, d, a[d].upvalues[k]);
    var u := a[d].upvalues[k];
    assert b[d].upvalues[k] == u;
    if !u.fromLocal {
      DenoteStable(a, b, d - 1, u.info);
    }
  }

  /** Different upvalues of a function are different variables. */
  lemma {:induction false} DenoteInjective(chain: seq<Func>, d: nat, k: nat, m: nat)
    requires Linked(chain) && AllFuncsOk(chain)
    requires d < |chain| && k < |chain[d].upvalues| && m < |chain[d].upvalues|
    requires Denote(chain, d, k) == Denote(chain, d, m)
    ensures k == m
    decreases d
  {
    assert FuncLinked(chain, d) && FuncOk(chain[d]);
    var u, w := chain[d].upvalues[k], chain[d].upvalues[m];
    assert DescOk(chain, d, u) && DescOk(chain, d, w);
    if !u.fromLocal && !w.fromLocal {
      DenoteInjective(chain, d - 1, u.info, w.info);
    }
    assert u == w;
  }

  // ------------------------------------------------------- marking a captured local

  lemma {:induction false} MarkUpvalMarks(blocks: seq<Block>, i: nat)
    ensures BlocksGrow(blocks, MarkUpval(blocks, i)) && Marked(MarkUpval(blocks, i), i)
  {
    if blocks != [] && blocks[|blocks| - 1].nactvar > i {
      var init := blocks[..|blocks| - 1];
      MarkUpvalMarks(init, i);
      var r := MarkUpval(blocks, i);
      assert r[..|r| - 1] == MarkUpval(init, i);
    }
  }

  lemma {:induction false} MarkedGrows(a: seq<Block>, b: seq<Block>, i: nat)
    requires BlocksGrow(a, b) && Marked(a, i)
    ensures Marked(b, i)
  {
    if a != [] && a[|a| - 1].nactvar > i {
      MarkedGrows(a[..|a| - 1], b[..|b| - 1], i);
    }
  }

  lemma GrowsRefl(a: seq<Func>)
    ensures Grows(a, a) && UpvaluesKept(a, a)
  {
  }

  lemma GrowsKeeps(a: seq<Func>, b: seq<Func>)
    requires Grows(a, b)
    ensures UpvaluesKept(a, b)
  {
    forall d | 0 <= d < |a| ensures a[d].upvalues <= b[d].upvalues {
      assert FuncGrows(a[d], b[d]);
    }
  }

  lemma FuncGrowsTrans(f: Func, g: Func, h: Func)
    requires FuncGrows(f, g) && FuncGrows(g, h)
    ensures FuncGrows(f, h)
  {
  }

  lemma GrowsTrans(a: seq<Func>, b: seq<Func>, c: seq<Func>)
    requires Grows(a, b) && Grows(b, c)
    ensures Grows(a, c)
  {
    forall d | 0 <= d < |a| ensures FuncGrows(a[d], c[d]) {
      FuncGrowsTrans(a[d], b[d], c[d]);
    }
  }

  // ----------------------------------------------- the invariant of a grown chain

  lemma FuncOkGrows(f: Func, g: Func)
    requires FuncOk(f) && FuncGrows(f, g)
    requires |g.upvalues| <= MAX_UPVALUES && |g.names| == |g.upvalues| && Distinct(g.upvalues)
    ensures FuncOk(g)
  {
    assert BlocksOk(g) by {
      forall j | 0 <= j < |g.blocks|
        ensures g.blocks[j].nactvar <= |g.actvar| && (j > 0 ==> g.blocks[j - 1].nactvar <= g.blocks[j].nactvar)
      {
        assert f.blocks[j].nactvar == g.blocks[j].nactvar;
        if j > 0 {
          assert f.blocks[j - 1].nactvar == g.blocks[j - 1].nactvar;
        }
      }
    }
  }

  /** The first functions of a chain by themselves. */
  lemma PrefixOk(chain: seq<Func>, m: nat)
    requires ChainOk(chain) && m <= |chain|
    ensures ChainOk(chain[..m])
  {
    var p := chain[..m];
    forall d | 0 <= d < m ensures FuncLinked(p, d) && FuncOk(p[d]) && CapturesMarked(p, d) {
      assert FuncLinked(chain, d) && FuncOk(chain[d]) && CapturesMarked(chain, d);
      forall u | u in p[d].upvalues ensures DescOk(p, d, u) {
        assert DescOk(chain, d, u);
      }
    }
    assert Linked(p);
    forall d, k | 0 <= d < m && 0 <= k < |p[d].upvalues| ensures NamedOk(p, d, k) {
      assert NamedOk(chain, d, k);
      DenoteStable(p, chain, d, k);
    }
  }

  /** A chain with one more function whose upvalues are in order. */
  ghost predicate TopOk(outer: seq<Func>, f: Func) {
    && FuncOk(f)
    && (forall u :: u in f.upvalues ==> DescOk(outer + [f], |outer|, u))
    && (forall u :: u in f.upvalues && u.fromLocal && outer != [] ==> Marked(outer[|outer| - 1].blocks, u.info))
  }

  lemma AppendLinked(outer: seq<Func>, f: Func)
    requires ChainOk(outer) && TopOk(outer, f)
    ensures Linked(outer + [f]) && AllFuncsOk(outer + [f]) && AllMarked(outer + [f])
  {
    var c := outer + [f];
    forall d | 0 <= d < |c| ensures FuncLinked(c, d) && FuncOk(c[d]) && CapturesMarked(c, d) {
      if d < |outer| {
        assert FuncLinked(outer, d) && FuncOk(outer[d]) && CapturesMarked(outer, d);
        forall u | u in c[d].upvalues ensures DescOk(c, d, u) {
          assert DescOk(outer, d, u);
        }
      }
    }
  }

  ghost predicate TopNamed(outer: seq<Func>, f: Func)
    requires Linked(outer + [f])
  {
    forall k :: 0 <= k < |f.upvalues| ==> NamedOk(outer + [f], |outer|, k)
  }

  lemma AppendOk(outer: seq<Func>, f: Func)
    requires ChainOk(outer) && TopOk(outer, f) && Linked(outer + [f]) && TopNamed(outer, f)
    ensures ChainOk(outer + [f])
  {
    var c := outer + [f];
    AppendLinked(outer, f);
    forall d, k | 0 <= d < |c| && 0 <= k < |c[d].upvalues| ensures NamedOk(c, d, k) {
      if d < |outer| {
        assert NamedOk(outer, d, k);
        DenoteStable(outer, c, d, k);
      }
    }
  }

  // ----------------------------------------------------------- look-ups are right

  /** `chain` has been looked up in: functions only grew, and it is still in order. */
  ghost predicate Kept(chain: seq<Func>, after: seq<Func>) {
    Grows(chain, after) && ChainOk(after)
  }

  /** Function `e` has an upvalue that is variable `v`. */
  ghost predicate Has(chain: seq<Func>, e: nat, v: (nat, nat))
    requires Linked(chain) && e < |chain|
  {
    exists k :: 0 <= k < |chain[e].upvalues| && Denote(chain, e, k) == v
  }

  /** Function `e` has to take in variable `v` and has no upvalue to spare. */
  ghost predicate Full(chain: seq<Func>, e: nat, v: (nat, nat))
    requires Linked(chain)
  {
    v.0 < e < |chain| && |chain[e].upvalues| == MAX_UPVALUES && !Has(chain, e, v)
  }

  ghost predicate NoneFull(chain: seq<Func>, v: (nat, nat))
    requires Linked(chain)
  {
    forall e :: 0 <= e < |chain| ==> !Full(chain, e, v)
  }

  /** What `found` says of `n`: the innermost declaration, however many functions further out. */
  ghost predicate Means(chain: seq<Func>, n: Name, found: Found, after: seq<Func>, base: bool)
    requires Linked(chain)
  {
    match found
    case Global => Undeclared(chain, n)
    case Local(i) =>
      && chain != [] && Visible(chain, n, |chain| - 1, i)
      && (!base ==> |after| == |chain| && Marked(after[|chain| - 1].blocks, i))
    case Upvalue(k) =>
      && chain != [] && |after| == |chain| && Linked(after) && k < |after[|chain| - 1].upvalues|
      && var v := Denote(after, |chain| - 1, k); Visible(chain, n, v.0, v.1) && NoneFull(chain, v)
    case TooManyUpvalues => exists d, i, e :: Visible(chain, n, d, i) && Full(chain, e, (d, i))
  }

  /** The last function of a chain, apart from the others. */
  lemma SplitOk(outer: seq<Func>, f: Func)
    requires ChainOk(outer + [f])
    ensures ChainOk(outer) && TopOk(outer, f) && TopNamed(outer, f)
  {
    var c := outer + [f];
    PrefixOk(c, |outer|);
    assert c[..|outer|] == outer;
    assert FuncOk(c[|outer|]) && FuncLinked(c, |outer|);
    if outer != [] {
      assert CapturesMarked(c, |outer| - 1);
    }
    forall k | 0 <= k < |f.upvalues| ensures NamedOk(c, |outer|, k) {
      assert c[|outer|] == f;
    }
  }

  /** `f` on top of grown functions, and itself grown without more upvalues. */
  lemma RebaseOk(outer: seq<Func>, outer2: seq<Func>, f: Func, f2: Func)
    requires ChainOk(outer + [f]) && Grows(outer, outer2) && ChainOk(outer2)
    requires FuncGrows(f, f2) && f2.upvalues == f.upvalues && f2.names == f.names
    ensures Kept(outer + [f], outer2 + [f2])
  {
    hide FuncGrows, AllMarked, Linked, AllNamed, AllFuncsOk, FuncOk;
    SplitOk(outer, f);
    RebaseTop(outer, outer2, f, f2);
    AppendLinked(outer2, f2);
    GrowsAppend(outer, outer2, f, f2);
    RebaseNamed(outer, outer2, f, f2);
    AppendOk(outer2, f2);
  }

  lemma RebaseTop(outer: seq<Func>, outer2: seq<Func>, f: Func, f2: Func)
    requires TopOk(outer, f) && Grows(outer, outer2)
    requires FuncGrows(f, f2) && f2.upvalues == f.upvalues && f2.names == f.names
    ensures TopOk(outer2, f2)
  {
    FuncOkGrows(f, f2);
    forall u | u in f2.upvalues
      ensures DescOk(outer2 + [f2], |outer2|, u)
      ensures u.fromLocal && outer2 != [] ==> Marked(outer2[|outer2| - 1].blocks, u.info)
    {
      assert DescOk(outer + [f], |outer|, u);
      var t := |outer| - 1;
      assert FuncGrows(outer[t], outer2[t]);
      if u.fromLocal {
        MarkedGrows(outer[t].blocks, outer2[t].blocks, u.info);
      }
    }
  }

  lemma GrowsAppend(outer: seq<Func>, outer2: seq<Func>, f: Func, f2: Func)
    requires Grows(outer, outer2) && FuncGrows(f, f2)
    ensures Grows(outer + [f], outer2 + [f2])
  {
    hide FuncGrows;
    forall d | 0 <= d < |outer| + 1 ensures FuncGrows((outer + [f])[d], (outer2 + [f2])[d]) {
      if d < |outer| {
        assert FuncGrows(outer[d], outer2[d]);
      }
    }
  }

  /** Upvalue names stay right as long as the variables keep theirs. */
  lemma NamedGrows(a: seq<Func>, b: seq<Func>, d: nat, k: nat)
    requires Linked(a) && Linked(b) && Grows(a, b) && d < |a| && k < |a[d].upvalues| && NamedOk(a, d, k)
    ensures k < |b[d].upvalues| && NamedOk(b, d, k)
  {
    GrowsKeeps(a, b);
    DenoteStable(a, b, d, k);
    var v := Denote(a, d, k);
    assert FuncGrows(a[v.0], b[v.0]) && FuncGrows(a[d], b[d]);
  }

  lemma RebaseNamed(outer: seq<Func>, outer2: seq<Func>, f: Func, f2: Func)
    requires Linked(outer + [f]) && Linked(outer2 + [f2]) && Grows(outer + [f], outer2 + [f2]) && |outer| == |outer2|
    requires f.upvalues == f2.upvalues && TopNamed(outer, f)
    ensures TopNamed(outer2, f2)
  {
    forall k | 0 <= k < |f2.upvalues| ensures NamedOk(outer2 + [f2], |outer2|, k) {
      assert NamedOk(outer + [f], |outer|, k);
      NamedGrows(outer + [f], outer2 + [f2], |outer|, k);
    }
  }

  lemma MarkedTopKept(chain: seq<Func>, v: nat)
    requires ChainOk(chain) && chain != []
    ensures var f := chain[|chain| - 1];
      var blocks := MarkUpval(f.blocks, v);
      Kept(chain, chain[|chain| - 1 := f.(blocks := blocks)]) && Marked(blocks, v)
  {
    hide ChainOk, BlocksGrow, Marked;
    var top := |chain| - 1;
    var f := chain[top];
    var f2 := f.(blocks := MarkUpval(f.blocks, v));
    MarkUpvalMarks(f.blocks, v);
    assert chain[..top] + [f] == chain && chain[..top] + [f2] == chain[top := f2];
    PrefixOk(chain, top);
    GrowsRefl(chain[..top]);
    RebaseOk(chain[..top], chain[..top], f, f2);
  }

  lemma LocalMeans(chain: seq<Func>, n: Name, base: bool)
    requires ChainOk(chain) && chain != [] && SearchVar(chain[|chain| - 1].actvar, n) >= 0
    ensures var r := SingleVarAux(chain, n, base); Kept(chain, r.chain) && Means(chain, n, r.found, r.chain, base)
  {
    var top := |chain| - 1;
    var f := chain[top];
    var v := SearchVar(f.actvar, n);
    if base {
      GrowsRefl(chain);
    } else {
      MarkedTopKept(chain, v);
    }
  }

  // ------------------------------------------------- taking a variable in as an upvalue

  /** The variable that `u` is in the function just inside of `outer`. */
  ghost function Denoted(outer: seq<Func>, u: UpvalDesc): (nat, nat)
    requires Linked(outer) && outer != []
    requires if u.fromLocal then u.info < |outer[|outer| - 1].actvar| else u.info < |outer[|outer| - 1].upvalues|
  {
    if u.fromLocal then (|outer| - 1, u.info) else Denote(outer, |outer| - 1, u.info)
  }

  lemma DenotedIs(outer: seq<Func>, f: Func, k: nat)
    requires Linked(outer) && Linked(outer + [f]) && k < |f.upvalues|
    ensures outer != []
    ensures var u := f.upvalues[k]; DescOk(outer + [f], |outer|, u) && Denote(outer + [f], |outer|, k) == Denoted(outer, u)
  {
    var c := outer + [f];
    assert FuncLinked(c, |outer|) && c[|outer|] == f;
    var u := f.upvalues[k];
    assert DescOk(c, |outer|, u);
    if !u.fromLocal {
      DenoteStable(outer, c, |outer| - 1, u.info);
    }
  }

  /** Different descriptors are different variables. */
  lemma DenotedInjective(outer: seq<Func>, u: UpvalDesc, w: UpvalDesc)
    requires Linked(outer) && AllFuncsOk(outer) && outer != []
    requires if u.fromLocal then u.info < |outer[|outer| - 1].actvar| else u.info < |outer[|outer| - 1].upvalues|
    requires if w.fromLocal then w.info < |outer[|outer| - 1].actvar| else w.info < |outer[|outer| - 1].upvalues|
    requires Denoted(outer, u) == Denoted(outer, w)
    ensures u == w
  {
    if !u.fromLocal && !w.fromLocal {
      DenoteInjective(outer, |outer| - 1, u.info, w.info);
    }
  }

  /** `u` stands for variable `v`, called `n`, in the grown functions `outer`. */
  ghost predicate Offers(outer: seq<Func>, u: UpvalDesc, v: (nat, nat), n: Name) {
    && ChainOk(outer) && outer != []
    && (if u.fromLocal then u.info < |outer[|outer| - 1].actvar| && Marked(outer[|outer| - 1].blocks, u.info)
        else u.info < |outer[|outer| - 1].upvalues|)
    && Denoted(outer, u) == v
    && v.0 < |outer| && v.1 < |outer[v.0].actvar| && outer[v.0].actvar[v.1] == n
  }

  /** `f` with the new upvalue `u`. */
  function WithUpval(f: Func, n: Name, u: UpvalDesc): Func {
    f.(upvalues := f.upvalues + [u], names := f.names + [n])
  }

  lemma NewUpvalTop(outer: seq<Func>, f: Func, n: Name, u: UpvalDesc, v: (nat, nat))
    requires Offers(outer, u, v, n) && TopOk(outer, f) && u !in f.upvalues && |f.upvalues| < MAX_UPVALUES
    ensures TopOk(outer, WithUpval(f, n, u))
  {
    var f2 := WithUpval(f, n, u);
    FuncOkGrows(f, f2);
    forall w | w in f2.upvalues
      ensures DescOk(outer + [f2], |outer|, w)
      ensures w.fromLocal ==> Marked(outer[|outer| - 1].blocks, w.info)
    {
      if w != u {
        assert w in f.upvalues && DescOk(outer + [f], |outer|, w);
      }
    }
  }

  lemma NewUpvalOk(outer: seq<Func>, f: Func, n: Name, u: UpvalDesc, v: (nat, nat))
    requires Offers(outer, u, v, n) && ChainOk(outer + [f]) && u !in f.upvalues && |f.upvalues| < MAX_UPVALUES
    ensures var f2 := WithUpval(f, n, u);
      Kept(outer + [f], outer + [f2]) && Denote(outer + [f2], |outer|, |f.upvalues|) == v
  {
    hide FuncOk, TopOk, FuncGrows, AllMarked, AllFuncsOk, Marked;
    var f2 := WithUpval(f, n, u);
    SplitOk(outer, f);
    NewUpvalTop(outer, f, n, u, v);
    AppendLinked(outer, f2);
    GrowsRefl(outer);
    NewUpvalGrows(f, n, u);
    GrowsAppend(outer, outer, f, f2);
    DenotedIs(outer, f2, |f.upvalues|);
    NewUpvalNamed(outer, f, n, u, v);
    AppendOk(outer, f2);
  }

  lemma NewUpvalGrows(f: Func, n: Name, u: UpvalDesc)
    ensures FuncGrows(f, WithUpval(f, n, u))
  {
  }

  lemma NewUpvalNamed(outer: seq<Func>, f: Func, n: Name, u: UpvalDesc, v: (nat, nat))
    requires Offers(outer, u, v, n) && FuncOk(f) && Linked(outer + [f]) && TopNamed(outer, f)
    requires var f2 := WithUpval(f, n, u);
      Linked(outer + [f2]) && Grows(outer + [f], outer + [f2]) && Denote(outer + [f2], |outer|, |f.upvalues|) == v
    ensures TopNamed(outer, WithUpval(f, n, u))
  {
    var f2 := WithUpval(f, n, u);
    forall k | 0 <= k < |f2.upvalues| ensures NamedOk(outer + [f2], |outer|, k) {
      if k < |f.upvalues| {
        assert NamedOk(outer + [f], |outer|, k);
        NamedGrows(outer + [f], outer + [f2], |outer|, k);
      }
    }
  }

  /** Taking in what the outer functions offer: found again, added, or refused for want of upvalues. */
  lemma AsUpvalueMeans(outer: seq<Func>, f: Func, n: Name, u: UpvalDesc, v: (nat, nat))
    requires Offers(outer, u, v, n) && ChainOk(outer + [f])
    ensures var r := AsUpvalue(outer, f, n, u);
      match r.found
      case Upvalue(k) =>
        && Kept(outer + [f], r.chain) && k < |r.chain[|outer|].upvalues| && Denote(r.chain, |outer|, k) == v
        && !Full(outer + [f], |outer|, v)
      case TooManyUpvalues => Full(outer + [f], |outer|, v)
      case _ => false
  {
    var c := outer + [f];
    assert FuncOk(c[|outer|]) && FuncOk(outer[|outer| - 1]);
    var k := FindDesc(f.upvalues, u);
    if k >= 0 {
      DenotedIs(outer, f, k);
      GrowsRefl(c);
    } else if |f.upvalues| < MAX_UPVALUES {
      assert CastByte(u.info) == u.info;
      NewUpvalOk(outer, f, n, u, v);
    } else {
      forall m | 0 <= m < |f.upvalues| ensures Denote(c, |outer|, m) != v {
        DenotedIs(outer, f, m);
        if Denote(c, |outer|, m) == v {
          DenotedInjective(outer, f.upvalues[m], u);
        }
      }
    }
  }

  lemma VisibleOutside(outer: seq<Func>, f: Func, n: Name, d: nat, i: nat)
    requires Visible(outer, n, d, i) && n !in f.actvar
    ensures Visible(outer + [f], n, d, i)
  {
    var c := outer + [f];
    forall e | d < e < |c| ensures n !in c[e].actvar {
      if e < |outer| {
        assert c[e] == outer[e];
      }
    }
  }

  /** Where a grown function has the upvalues it had, it has no more and no less room for a variable. */
  lemma FullSame(a: seq<Func>, b: seq<Func>, e: nat, v: (nat, nat))
    requires Linked(a) && Linked(b) && UpvaluesKept(a, b) && e < |a| && a[e].upvalues == b[e].upvalues
    ensures Full(a, e, v) == Full(b, e, v)
  {
    forall k | 0 <= k < |a[e].upvalues| ensures Denote(a, e, k) == Denote(b, e, k) {
      DenoteStable(a, b, e, k);
    }
    if v.0 < e && |a[e].upvalues| == MAX_UPVALUES {
      if Has(a, e, v) {
        var k :| 0 <= k < |a[e].upvalues| && Denote(a, e, k) == v;
        assert Denote(b, e, k) == v;
      }
      if Has(b, e, v) {
        var k :| 0 <= k < |b[e].upvalues| && Denote(b, e, k) == v;
        assert Denote(a, e, k) == v;
      }
    }
  }

  /** The outer functions know `n`, as `u`. */
  lemma TakenIn(outer: seq<Func>, outer2: seq<Func>, f: Func, n: Name, u: UpvalDesc, v: (nat, nat))
    requires ChainOk(outer + [f]) && Kept(outer, outer2) && n !in f.actvar
    requires Offers(outer2, u, v, n) && Visible(outer, n, v.0, v.1) && Linked(outer) && NoneFull(outer, v)
    ensures var r := AsUpvalue(outer2, f, n, u);
      && (r.found.Upvalue? ==> Kept(outer + [f], r.chain))
      && Means(outer + [f], n, r.found, r.chain, true) && Means(outer + [f], n, r.found, r.chain, false)
  {
    hide ChainOk, Offers, Visible, Full, FuncGrows;
    var r := AsUpvalue(outer2, f, n, u);
    assert FuncGrows(f, f) by { FuncGrowsRefl(f); }
    assert ChainOk(outer2);
    RebaseOk(outer, outer2, f, f);
    AsUpvalueMeans(outer2, f, n, u, v);
    VisibleOutside(outer, f, n, v.0, v.1);
    ChainLinked(outer + [f]);
    ChainLinked(outer2 + [f]);
    GrowsKeeps(outer + [f], outer2 + [f]);
    FullSame(outer + [f], outer2 + [f], |outer|, v);
    if r.found.Upvalue? {
      GrowsTrans(outer + [f], outer2 + [f], r.chain);
      ChainLinked(r.chain);
      NoneFullOutside(outer, f, v);
    }
  }

  lemma NoneFullOutside(outer: seq<Func>, f: Func, v: (nat, nat))
    requires Linked(outer) && Linked(outer + [f]) && NoneFull(outer, v) && !Full(outer + [f], |outer|, v)
    ensures NoneFull(outer + [f], v)
  {
    forall e | 0 <= e < |outer| + 1 ensures !Full(outer + [f], e, v) {
      if e < |outer| {
        FullSame(outer, outer + [f], e, v);
      }
    }
  }

  lemma FuncGrowsRefl(f: Func)
    ensures FuncGrows(f, f)
  {
  }

  lemma ChainLinked(chain: seq<Func>)
    requires ChainOk(chain)
    ensures Linked(chain)
  {
  }

  lemma OffersLocal(outer: seq<Func>, outer2: seq<Func>, n: Name, i: nat)
    requires Linked(outer) && Kept(outer, outer2) && outer != [] && Visible(outer, n, |outer| - 1, i)
    requires Marked(outer2[|outer| - 1].blocks, i)
    ensures Offers(outer2, UpvalDesc(true, i), (|outer| - 1, i), n) && NoneFull(outer, (|outer| - 1, i))
  {
    hide ChainOk;
    ChainLinked(outer2);
    assert FuncGrows(outer[|outer| - 1], outer2[|outer| - 1]);
  }

  lemma OffersUpvalue(outer: seq<Func>, outer2: seq<Func>, n: Name, k: nat)
    requires Kept(outer, outer2) && outer != [] && Linked(outer2) && k < |outer2[|outer| - 1].upvalues|
    requires var v := Denote(outer2, |outer| - 1, k); Visible(outer, n, v.0, v.1)
    ensures Offers(outer2, UpvalDesc(false, k), Denote(outer2, |outer| - 1, k), n)
  {
    hide ChainOk;
    var v := Denote(outer2, |outer| - 1, k);
    assert FuncGrows(outer[v.0], outer2[v.0]);
  }

  /** Nothing is found further out than `f`. */
  lemma OuterGlobal(outer: seq<Func>, f: Func, n: Name)
    requires Undeclared(outer, n) && n !in f.actvar
    ensures Undeclared(outer + [f], n)
  {
  }

  lemma OuterRefused(outer: seq<Func>, f: Func, n: Name)
    requires Linked(outer) && Linked(outer + [f]) && n !in f.actvar
    requires exists d, i, e :: Visible(outer, n, d, i) && Full(outer, e, (d, i))
    ensures exists d, i, e :: Visible(outer + [f], n, d, i) && Full(outer + [f], e, (d, i))
  {
    var d, i, e :| Visible(outer, n, d, i) && Full(outer, e, (d, i));
    VisibleOutside(outer, f, n, d, i);
    FullSame(outer, outer + [f], e, (d, i));
    assert Visible(outer + [f], n, d, i) && Full(outer + [f], e, (d, i));
  }

  lemma OuterMeans(outer: seq<Func>, f: Func, n: Name, r: Looked)
    requires ChainOk(outer + [f]) && n !in f.actvar && r == SingleVarAux(outer, n, false) && ChainOk(outer)
    requires (!r.found.TooManyUpvalues? ==> Kept(outer, r.chain)) && Means(outer, n, r.found, r.chain, false)
    ensures var c := outer + [f];
      var s := SingleVarAux(c, n, true);
      && s == SingleVarAux(c, n, false)
      && (!s.found.TooManyUpvalues? ==> Kept(c, s.chain))
      && Means(c, n, s.found, s.chain, true) && Means(c, n, s.found, s.chain, false)
  {
    hide ChainOk, Visible, Full, FuncGrows, Undeclared, AsUpvalue, Offers, NoneFull;
    var c := outer + [f];
    assert c[|c| - 1] == f && c[..|c| - 1] == outer;
    FuncGrowsRefl(f);
    ChainLinked(outer);
    ChainLinked(c);
    match r.found {
      case Global =>
        RebaseOk(outer, r.chain, f, f);
        OuterGlobal(outer, f, n);
      case TooManyUpvalues =>
        OuterRefused(outer, f, n);
      case Local(i) =>
        OffersLocal(outer, r.chain, n, i);
        TakenIn(outer, r.chain, f, n, UpvalDesc(true, i), (|outer| - 1, i));
      case Upvalue(k) =>
        OffersUpvalue(outer, r.chain, n, k);
        TakenIn(outer, r.chain, f, n, UpvalDesc(false, k), Denote(r.chain, |outer| - 1, k));
    }
  }

  /**
  `singlevaraux` finds the innermost active declaration, through any number of functions, and a global exactly when
  there is none; it fails only for want of upvalues. No upvalue that was there before changes its place or meaning.
  */
  lemma {:induction false} SingleVarAuxMeans(chain: seq<Func>, n: Name, base: bool)
    requires ChainOk(chain)
    ensures var r := SingleVarAux(chain, n, base);
      (!r.found.TooManyUpvalues? ==> Kept(chain, r.chain)) && Means(chain, n, r.found, r.chain, base)
  {
    var r := SingleVarAux(chain, n, base);
    if chain == [] {
    } else {
      var top := |chain| - 1;
      var f := chain[top];
      if SearchVar(f.actvar, n) >= 0 {
        LocalMeans(chain, n, base);
      } else {
        PrefixOk(chain, top);
        SingleVarAuxMeans(chain[..top], n, false);
        assert chain == chain[..top] + [f];
        var outer := SingleVarAux(chain[..top], n, false);
        OuterMeans(chain[..top], f, n, outer);
      }
    }
  }
}
