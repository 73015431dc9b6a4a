/**
The parser's records for the functions being compiled, linked from the
innermost outwards, and the loops that search and change them in place.
*/
module FuncStates {
  import opened Scopes
  import opened ScopeCode

  class FuncState {
    const prev: FuncState?
    /** This function and the functions around it. */
    ghost const Repr: set<FuncState>
    var actvar: seq<Name>
    var upvalues: seq<UpvalDesc>
    var names: seq<Name>
    var bl: seq<Scopes.Block>

    ghost predicate Valid()
      decreases Repr
    {
      && this in Repr
      && if prev == null then Repr == {this}
         else prev in Repr && prev.Repr == Repr - {this} && prev.Valid()
    }

    function Self(): Func
      reads this
    {
      Func(actvar, upvalues, names, bl)
    }

    /** All functions being compiled, the outermost first. */
    ghost function View(): (c: seq<Func>)
      requires Valid()
      reads Repr
      ensures c != [] && c[|c| - 1] == Self()
      ensures c == Chain(prev) + [Self()]
      decreases Repr, 1
    {
      Chain(prev) + [Self()]
    }

    /** `open_func`, with the parameter declared. */
    constructor (outer: FuncState?, params: seq<Name>)
      requires outer != null ==> outer.Valid()
      ensures Valid() && fresh(this) && prev == outer && Repr == (if outer == null then {} else outer.Repr) + {this}
      ensures View() == Chain(outer) + [Func(params, [], [], [])]
    {
      prev := outer;
      Repr := (if outer == null then {} else outer.Repr) + {this};
      actvar, upvalues, names, bl := params, [], [], [];
      new;
      assert outer != null ==> this !in outer.Repr;
    }

    /** `searchvar`. */
    method SearchVar(n: Name) returns (v: int)
      ensures v == Scopes.SearchVar(actvar, n)
    {
      var i := |actvar| - 1;
      assert actvar[..|actvar|] == actvar;
      while i >= 0
        invariant -1 <= i < |actvar|
        invariant Scopes.SearchVar(actvar, n) == Scopes.SearchVar(actvar[..i + 1], n)
      {
        assert actvar[..i + 1][..i] == actvar[..i];
        if n == actvar[i] {
          return i;
        }
        i := i - 1;
      }
      return -1;
    }

    /** `markupval`. */
    method MarkUpval(level: nat)
      modifies this`bl
      ensures bl == Scopes.MarkUpval(old(bl), level)
    {
      var i := |bl| - 1;
      assert bl[..|bl|] == bl;
      while i >= 0 && bl[i].nactvar > level
        invariant -1 <= i < |bl| && bl == old(bl)
        invariant Scopes.MarkUpval(bl, level) == Scopes.MarkUpval(bl[..i + 1], level) + bl[i + 1..]
      {
        assert bl[..i + 1][..i] == bl[..i] && bl[i..] == [bl[i]] + bl[i + 1..];
        i := i - 1;
      }
      if i >= 0 {
        assert Scopes.MarkUpval(bl[..i + 1], level) + bl[i + 1..] == bl[i := bl[i].(upval := true)];
        bl := bl[i := bl[i].(upval := true)];
      }
    }

    /** `indexupvalue`; an upvalue found again has the name that is asked for. */
    method IndexUpvalue(n: Name, u: UpvalDesc) returns (k: int)
      requires |names| == |upvalues| && forall i :: 0 <= i < |upvalues| && upvalues[i] == u ==> names[i] == n
      modifies this`upvalues, this`names
      ensures (k, Self()) == Scopes.IndexUpvalue(old(Self()), n, u)
      ensures k >= 0 ==> k < |names| && names[k] == n
    {
      k := 0;
      while k < |upvalues|
        invariant 0 <= k <= |upvalues| && u !in upvalues[..k]
      {
        if upvalues[k] == u {
          assert names[k] == n;
          FirstDesc(upvalues, u, k);
          return;
        }
        assert upvalues[..k + 1] == upvalues[..k] + [upvalues[k]];
        k := k + 1;
      }
      assert upvalues[..k] == upvalues;
      if |upvalues| + 1 > MAX_UPVALUES {
        return -1;
      }
      upvalues := upvalues + [u.(info := CastByte(u.info))];
      names := names + [n];
    }

    // -------------------------------------------------------------- blocks

    /** `enterblock`. */
    method EnterBlock(isBreakable: bool)
      requires Valid()
      modifies this`bl
      ensures View() == ScopeCode.EnterBlock(old(View()), isBreakable)
    {
      bl := bl + [Scopes.Block(|actvar|, false, isBreakable)];
    }

    /** `new_localvar` and `adjustlocalvars` for one variable. */
    method NewLocal(x: Name) returns (ok: bool)
      requires Valid()
      modifies this`actvar
      ensures ok == RoomForLocal(old(View()))
      ensures View() == if ok then ScopeCode.NewLocal(old(View()), x) else old(View())
    {
      if |actvar| + 1 > MAX_VARS {
        return false;
      }
      actvar := actvar + [x];
      return true;
    }

    /** `removevars`. */
    method RemoveVars(level: nat)
      requires level <= |actvar|
      modifies this`actvar
      ensures actvar == old(actvar)[..level]
    {
      while |actvar| > level
        invariant level <= |actvar| <= |old(actvar)| && actvar == old(actvar)[..|actvar|]
      {
        actvar := actvar[..|actvar| - 1];
      }
    }

    /** `leaveblock`: whether it emits an OP_CLOSE. */
    method LeaveBlock() returns (close: bool)
      requires Valid() && bl != [] && bl[|bl| - 1].nactvar <= |actvar|
      modifies this`bl, this`actvar
      ensures close == Innermost(old(View())).upval
      ensures View() == ScopeCode.LeaveBlock(old(View()))
    {
      var block := bl[|bl| - 1];
      bl := bl[..|bl| - 1];
      RemoveVars(block.nactvar);
      close := block.upval;
    }

    /** `breakstat`: no loop, or the registers to close and whether to close them. */
    method BreakStat() returns (x: Exit)
      ensures x == BreakOut(bl)
    {
      var upval := false;
      var i := |bl| - 1;
      assert bl[..|bl|] == bl;
      while i >= 0 && !bl[i].isBreakable
        invariant -1 <= i < |bl|
        invariant BreakOut(bl) == AlsoClosing(BreakOut(bl[..i + 1]), upval)
      {
        assert bl[..i + 1][..i] == bl[..i];
        upval := upval || bl[i].upval;
        i := i - 1;
      }
      if i < 0 {
        return NoLoop;
      }
      return Exit(bl[i].nactvar, upval);
    }
  }

  function AlsoClosing(x: Exit, close: bool): Exit {
    match x
    case NoLoop => NoLoop
    case Exit(level, c) => Exit(level, c || close)
  }

  lemma FirstDesc(upvalues: seq<UpvalDesc>, u: UpvalDesc, k: nat)
    requires k < |upvalues| && upvalues[k] == u && u !in upvalues[..k]
    ensures FindDesc(upvalues, u) == k
  {
    var m := FindDesc(upvalues, u);
    assert u in upvalues;
    forall i | 0 <= i < m ensures upvalues[i] != u {
      assert upvalues[i] in upvalues[..m];
    }
    forall i | 0 <= i < k ensures upvalues[i] != u {
      assert upvalues[i] in upvalues[..k];
    }
  }

  ghost function Chain(fs: FuncState?): seq<Func>
    requires fs != null ==> fs.Valid()
    reads if fs == null then {} else fs.Repr
    decreases if fs == null then {} else fs.Repr, 2
  {
    if fs == null then [] else fs.View()
  }

  /** An upvalue equal to the one that is taken in bears its name: it is the same variable. */
  lemma SameName(outer: seq<Func>, f: Func, u: UpvalDesc, v: (nat, nat), n: Name, i: nat)
    requires Offers(outer, u, v, n) && ChainOk(outer + [f]) && i < |f.upvalues| && f.upvalues[i] == u
    ensures i < |f.names| && f.names[i] == n
  {
    var c := outer + [f];
    DenotedIs(outer, f, i);
    assert NamedOk(c, |outer|, i);
  }

  lemma EmptyChain()
    ensures Chain(null) == []
  {
  }

  /** A record and those around it. */
  lemma ChainStep(fs: FuncState)
    requires fs.Valid()
    ensures fs in fs.Repr
    ensures fs.prev != null ==> fs.prev.Valid() && fs.prev.Repr == fs.Repr - {fs}
    ensures Chain(fs) == Chain(fs.prev) + [fs.Self()]
  {
  }

  lemma ChainOf(fs: FuncState)
    requires fs.Valid()
    ensures Chain(fs) == fs.View()
  {
  }

  lemma ValidSelf(fs: FuncState)
    requires fs.Valid()
    ensures fs in fs.Repr
  {
  }

  lemma FoundNowhere(n: Name, base: bool)
    ensures Scopes.SingleVarAux([], n, base) == Looked(Global, [])
  {
  }

  lemma FoundHere(outer: seq<Func>, f: Func, n: Name, base: bool)
    requires Scopes.SearchVar(f.actvar, n) >= 0
    ensures var v := Scopes.SearchVar(f.actvar, n);
      Scopes.SingleVarAux(outer + [f], n, base)
      == Looked(Local(v), outer + [if base then f else f.(blocks := Scopes.MarkUpval(f.blocks, v))])
  {
    var f2 := f.(blocks := Scopes.MarkUpval(f.blocks, Scopes.SearchVar(f.actvar, n)));
    assert (outer + [f])[|outer| := f2] == outer + [f2];
  }

  lemma FoundOutside(outer: seq<Func>, f: Func, n: Name, base: bool)
    requires Scopes.SearchVar(f.actvar, n) < 0
    ensures var r := Scopes.SingleVarAux(outer, n, false);
      Scopes.SingleVarAux(outer + [f], n, base) ==
        match r.found
        case Local(i) => AsUpvalue(r.chain, f, n, UpvalDesc(true, i))
        case Upvalue(k) => AsUpvalue(r.chain, f, n, UpvalDesc(false, k))
        case x => Looked(x, r.chain + [f])
  {
    assert (outer + [f])[..|outer|] == outer;
  }

  /** What `indexupvalue` needs to know, from the chain being in order. */
  lemma CanIndex(outer: seq<Func>, f: Func, n: Name, u: UpvalDesc)
    requires ChainOk(outer + [f]) && Scopes.SearchVar(f.actvar, n) < 0
    requires var r := Scopes.SingleVarAux(outer, n, false);
      (r.found.Local? && u == UpvalDesc(true, r.found.slot)) || (r.found.Upvalue? && u == UpvalDesc(false,
          r.found.index))
    ensures |f.names| == |f.upvalues| && forall i :: 0 <= i < |f.upvalues| && f.upvalues[i] == u ==> f.names[i] == n
  {
    var c := outer + [f];
    PrefixOk(c, |outer|);
    assert c[..|outer|] == outer && FuncOk(c[|outer|]);
    SingleVarAuxMeans(outer, n, false);
    OfferedNames(outer, f, n, Scopes.SingleVarAux(outer, n, false), u);
  }

  /** `singlevaraux`. */
  method SingleVarAux(fs: FuncState?, n: Name, base: bool) returns (found: Found)
    requires fs != null ==> fs.Valid()
    requires ChainOk(Chain(fs))
    modifies if fs == null then {} else fs.Repr
    ensures found == Scopes.SingleVarAux(old(Chain(fs)), n, base).found
    ensures Chain(fs) == Scopes.SingleVarAux(old(Chain(fs)), n, base).chain
    decreases if fs == null then {} else fs.Repr
  {
    hide ChainOk, Scopes.SingleVarAux, Scopes.SearchVar, Scopes.MarkUpval, FindDesc, IndexUpvalue, FuncState.Valid,
      FuncState.View, Chain;
    if fs == null {
      FoundNowhere(n, base);
      EmptyChain();
      return Global;
    }
    ChainStep(fs);
    ghost var outer, f := Chain(fs.prev), fs.Self();
    var v := fs.SearchVar(n);
    if v >= 0 {
      FoundHere(outer, f, n, base);
      if !base {
        fs.MarkUpval(v);
        ChainStep(fs);
      }
      return Local(v);
    }
    FoundOutside(outer, f, n, base);
    OutsideChain(outer, f);
    found := SingleVarAux(fs.prev, n, false);
    ChainStep(fs);
    if found.Global? || found.TooManyUpvalues? {
      return;
    }
    var u := if found.Local? then UpvalDesc(true, found.slot) else UpvalDesc(false, found.index);
    CanIndex(outer, f, n, u);
    ghost var around := Chain(fs.prev);
    var k := fs.IndexUpvalue(n, u);
    ChainStep(fs);
    found := if k < 0 then TooManyUpvalues else Upvalue(k);
  }

  lemma OutsideChain(outer: seq<Func>, f: Func)
    requires ChainOk(outer + [f])
    ensures ChainOk(outer)
  {
    PrefixOk(outer + [f], |outer|);
    assert (outer + [f])[..|outer|] == outer;
  }

  lemma OfferedNames(outer: seq<Func>, f: Func, n: Name, r: Looked, u: UpvalDesc)
    requires r.found.Local? || r.found.Upvalue?
    requires ChainOk(outer + [f]) && ChainOk(outer) && Kept(outer, r.chain) && Means(outer, n, r.found, r.chain, false)
    requires u == if r.found.Local? then UpvalDesc(true, r.found.slot) else UpvalDesc(false, r.found.index)
    ensures forall i :: 0 <= i < |f.upvalues| && f.upvalues[i] == u ==> i < |f.names| && f.names[i] == n
  {
    FuncGrowsRefl(f);
    RebaseOk(outer, r.chain, f, f);
    var v := if r.found.Local? then (|outer| - 1, r.found.slot) else Denote(r.chain, |outer| - 1, r.found.index);
    if r.found.Local? {
      OffersLocal(outer, r.chain, n, r.found.slot);
    } else {
      OffersUpvalue(outer, r.chain, n, r.found.index);
    }
    forall i | 0 <= i < |f.upvalues| && f.upvalues[i] == u ensures i < |f.names| && f.names[i] == n {
      SameName(r.chain, f, u, v, n, i);
    }
  }
}
