/**
What every parsing step keeps: upvalues that reach active variables, marked
blocks around captured ones, and loops whose own block is never marked.
*/
module ScopeStatic {
  import opened Scopes
  import opened ScopeCode
  import L = ScopeLang

  // ------------------------------------------------------------------ loops

  /** The block of a loop holds nothing but another block, and is not marked. */
  ghost predicate LoopAt(blocks: seq<Scopes.Block>, j: nat)
    requires j < |blocks|
  {
    blocks[j].isBreakable ==>
      && !blocks[j].upval && j + 1 < |blocks|
      && !blocks[j + 1].isBreakable && blocks[j + 1].nactvar == blocks[j].nactvar
  }

  ghost predicate LoopsOk(blocks: seq<Scopes.Block>) {
    forall j :: 0 <= j < |blocks| ==> LoopAt(blocks, j)
  }

  ghost predicate AllLoopsOk(chain: seq<Func>) {
    forall d :: 0 <= d < |chain| ==> LoopsOk(chain[d].blocks)
  }

  ghost predicate StaticOk(chain: seq<Func>) {
    ChainOk(chain) && AllLoopsOk(chain)
  }

  /** The place `markupval` marks, and nothing else changes. */
  lemma {:induction false} MarkUpvalAt(blocks: seq<Scopes.Block>, i: nat) returns (m: int)
    ensures -1 <= m < |blocks|
    ensures m >= 0 ==> blocks[m].nactvar <= i && MarkUpval(blocks, i) == blocks[m := blocks[m].(upval := true)]
    ensures m < 0 ==> MarkUpval(blocks, i) == blocks
    ensures forall j :: m < j < |blocks| ==> blocks[j].nactvar > i
  {
    if blocks == [] {
      m := -1;
    } else if blocks[|blocks| - 1].nactvar > i {
      m := MarkUpvalAt(blocks[..|blocks| - 1], i);
    } else {
      m := |blocks| - 1;
    }
  }

  lemma MarkUpvalLoops(blocks: seq<Scopes.Block>, i: nat)
    requires LoopsOk(blocks)
    ensures LoopsOk(MarkUpval(blocks, i))
  {
    var r := MarkUpval(blocks, i);
    var m := MarkUpvalAt(blocks, i);
    forall j | 0 <= j < |r| ensures LoopAt(r, j) {
      assert LoopAt(blocks, j);
    }
  }

  lemma {:induction false} SingleVarAuxLoops(chain: seq<Func>, n: Name, base: bool)
    requires AllLoopsOk(chain)
    ensures AllLoopsOk(SingleVarAux(chain, n, base).chain)
  {
    if chain != [] {
      var top := |chain| - 1;
      var f := chain[top];
      if SearchVar(f.actvar, n) >= 0 {
        MarkUpvalLoops(f.blocks, SearchVar(f.actvar, n));
      } else {
        SingleVarAuxLoops(chain[..top], n, false);
        var r := SingleVarAux(chain, n, base);
        forall d | 0 <= d < |r.chain| ensures LoopsOk(r.chain[d].blocks) {
          if d < top {
            assert r.chain[d] == SingleVarAux(chain[..top], n, false).chain[d];
          } else {
            assert r.chain[d].blocks == f.blocks;
          }
        }
      }
    }
  }

  // ------------------------------------------------- the function on top changes

  lemma TopChange(outer: seq<Func>, f: Func, g: Func)
    requires ChainOk(outer + [f]) && g.upvalues == f.upvalues && g.names == f.names
    requires |g.actvar| <= MAX_VARS && BlocksOk(g)
    ensures ChainOk(outer + [g])
  {
    hide AllMarked, AllNamed, AllFuncsOk, Linked;
    SplitOk(outer, f);
    forall u | u in g.upvalues ensures DescOk(outer + [g], |outer|, u) {
      assert DescOk(outer + [f], |outer|, u);
    }
    ChainLinked(outer + [f]);
    AppendLinked(outer, g);
    forall k | 0 <= k < |g.upvalues| ensures NamedOk(outer + [g], |outer|, k) {
      assert NamedOk(outer + [f], |outer|, k);
      DenoteStable(outer + [f], outer + [g], |outer|, k);
    }
    AppendOk(outer, g);
  }

  lemma TopSet(chain: seq<Func>, g: Func)
    requires chain != [] && StaticOk(chain) && g.upvalues == Top(chain).upvalues && g.names == Top(chain).names
    requires |g.actvar| <= MAX_VARS && BlocksOk(g)
    ensures ChainOk(SetTop(chain, g))
    ensures LoopsOk(g.blocks) ==> StaticOk(SetTop(chain, g))
  {
    var outer := chain[..|chain| - 1];
    assert chain == outer + [Top(chain)] && SetTop(chain, g) == outer + [g];
    TopChange(outer, Top(chain), g);
    forall d | 0 <= d < |chain| - 1 ensures LoopsOk(SetTop(chain, g)[d].blocks) {
      assert LoopsOk(chain[d].blocks);
    }
  }

  lemma NewLocalOk(chain: seq<Func>, x: Name)
    requires chain != [] && StaticOk(chain) && RoomForLocal(chain)
    ensures StaticOk(NewLocal(chain, x))
  {
    assert FuncOk(Top(chain)) && LoopsOk(Top(chain).blocks);
    var f := Top(chain);
    var g := f.(actvar := f.actvar + [x]);
    forall j | 0 <= j < |g.blocks|
      ensures g.blocks[j].nactvar <= |g.actvar| && (j > 0 ==> g.blocks[j - 1].nactvar <= g.blocks[j].nactvar)
    {
      assert f.blocks[j].nactvar <= |f.actvar|;
    }
    TopSet(chain, g);
  }

  lemma EnterBlockOk(chain: seq<Func>)
    requires chain != [] && StaticOk(chain)
    ensures StaticOk(EnterBlock(chain, false))
  {
    var f, g := Top(chain), Top(EnterBlock(chain, false));
    EnterBlocksOk(chain, false);
    assert LoopsOk(f.blocks);
    forall j | 0 <= j < |g.blocks| ensures LoopAt(g.blocks, j) {
      if j < |f.blocks| {
        assert LoopAt(f.blocks, j);
      }
    }
    TopSet(chain, g);
  }

  lemma EnterBlocksOk(chain: seq<Func>, isBreakable: bool)
    requires chain != [] && AllFuncsOk(chain)
    ensures FuncOk(Top(EnterBlock(chain, isBreakable)))
  {
    var f, g := Top(chain), Top(EnterBlock(chain, isBreakable));
    assert FuncOk(f);
    forall j | 0 <= j < |g.blocks|
      ensures g.blocks[j].nactvar <= |g.actvar| && (j > 0 ==> g.blocks[j - 1].nactvar <= g.blocks[j].nactvar)
    {
      if j < |f.blocks| {
        assert f.blocks[j].nactvar <= |f.actvar|;
      }
      if j > 0 {
        assert f.blocks[j - 1].nactvar <= |f.actvar|;
      }
    }
  }

  /** A loop is entered together with the block in it. */
  function EnterLoop(chain: seq<Func>): (c: seq<Func>)
    requires chain != []
    ensures |c| == |chain|
  {
    EnterBlock(EnterBlock(chain, true), false)
  }

  lemma EnterLoopOk(chain: seq<Func>)
    requires chain != [] && StaticOk(chain)
    ensures StaticOk(EnterLoop(chain))
  {
    var f, e := Top(chain), EnterBlock(chain, true);
    var g := Top(EnterLoop(chain));
    EnterBlocksOk(chain, true);
    assert LoopsOk(f.blocks) && FuncOk(f);
    TopSet(chain, Top(e));
    EnterBlocksOk(e, false);
    forall j | 0 <= j < |g.blocks| ensures LoopAt(g.blocks, j) {
      if j < |f.blocks| {
        assert LoopAt(f.blocks, j);
      }
    }
    TopSet(chain, g);
    assert EnterLoop(chain) == SetTop(chain, g);
  }

  lemma LeaveBlocksOk(f: Func)
    requires FuncOk(f) && f.blocks != []
    ensures var bl := f.blocks[|f.blocks| - 1];
      bl.nactvar <= |f.actvar| && FuncOk(f.(blocks := f.blocks[..|f.blocks| - 1], actvar := f.actvar[..bl.nactvar]))
  {
    var last := |f.blocks| - 1;
    assert f.blocks[last].nactvar <= |f.actvar|;
    var g := f.(blocks := f.blocks[..last], actvar := f.actvar[..f.blocks[last].nactvar]);
    forall j | 0 <= j < |g.blocks|
      ensures g.blocks[j].nactvar <= |g.actvar| && (j > 0 ==> g.blocks[j - 1].nactvar <= g.blocks[j].nactvar)
    {
      BlocksRise(f, j, last);
      assert f.blocks[j].nactvar <= |f.actvar|;
    }
  }

  lemma {:induction false} BlocksRise(f: Func, j: nat, m: nat)
    requires BlocksOk(f) && j <= m < |f.blocks|
    ensures f.blocks[j].nactvar <= f.blocks[m].nactvar
    decreases m
  {
    if j < m {
      BlocksRise(f, j, m - 1);
      assert f.blocks[m - 1].nactvar <= f.blocks[m].nactvar;
    }
  }

  /** Leaving a block that does not belong to a loop. */
  lemma LeaveBlockOk(chain: seq<Func>)
    requires chain != [] && StaticOk(chain) && Top(chain).blocks != []
    requires var b := Top(chain).blocks; |b| > 1 ==> !b[|b| - 2].isBreakable
    ensures Innermost(chain).nactvar <= |Top(chain).actvar| && StaticOk(LeaveBlock(chain))
  {
    var f := Top(chain);
    assert FuncOk(f) && LoopsOk(f.blocks);
    LeaveBlocksOk(f);
    var g := Top(LeaveBlock(chain));
    forall j | 0 <= j < |g.blocks| ensures LoopAt(g.blocks, j) {
      assert LoopAt(f.blocks, j);
    }
    TopSet(chain, g);
  }

  /** Leaving a loop together with the block in it; `leaveblock` asserts that the loop's own block is not marked. */
  lemma LeaveLoopOk(chain: seq<Func>)
    requires chain != [] && StaticOk(chain) && |Top(chain).blocks| >= 2
    requires var b := Top(chain).blocks; b[|b| - 2].isBreakable
    ensures Innermost(chain).nactvar <= |Top(chain).actvar|
    ensures var inner := LeaveBlock(chain);
      && Innermost(inner).nactvar <= |Top(inner).actvar| && !Innermost(inner).upval
      && StaticOk(LeaveBlock(inner))
  {
    var f := Top(chain);
    var last := |f.blocks| - 1;
    assert FuncOk(f) && LoopsOk(f.blocks);
    LeaveBlocksOk(f);
    var inner := LeaveBlock(chain);
    LeaveBlocksOk(Top(inner));
    assert LoopAt(f.blocks, last - 1);
    var g := Top(LeaveBlock(inner));
    forall j | 0 <= j < |g.blocks| ensures LoopAt(g.blocks, j) {
      assert LoopAt(f.blocks, j);
    }
    assert LeaveBlock(inner) == SetTop(chain, g);
    TopSet(chain, g);
  }

  lemma OpenFuncOk(chain: seq<Func>, param: Name)
    requires StaticOk(chain)
    ensures StaticOk(OpenFunc(chain, param))
  {
    hide AllMarked, AllNamed, AllFuncsOk;
    var f := Func([param], [], [], []);
    AppendLinked(chain, f);
    AppendOk(chain, f);
    forall d | 0 <= d < |chain| + 1 ensures LoopsOk(OpenFunc(chain, param)[d].blocks) {
      if d < |chain| {
        assert LoopsOk(chain[d].blocks);
      }
    }
  }

  lemma OutsideOk(chain: seq<Func>)
    requires StaticOk(chain) && chain != []
    ensures StaticOk(chain[..|chain| - 1])
  {
    PrefixOk(chain, |chain| - 1);
    var outer := chain[..|chain| - 1];
    forall d | 0 <= d < |outer| ensures LoopsOk(outer[d].blocks) {
      assert LoopsOk(chain[d].blocks);
    }
  }

  lemma VarOk(chain: seq<Func>, x: Name)
    requires StaticOk(chain) && chain != []
    ensures var r := SingleVarAux(chain, x, true); !r.found.TooManyUpvalues? ==> StaticOk(r.chain)
  {
    SingleVarAuxMeans(chain, x, true);
    SingleVarAuxLoops(chain, x, true);
  }

  // --------------------------------------------------- the parser keeps its chain

  /** Whatever an expression names or closes over, the chain stays in order. */
  lemma {:induction false} CompileExpOk(e: L.Exp, chain: seq<Func>)
    requires chain != [] && StaticOk(chain)
    ensures var r := CompileExp(e, chain); r.Done? ==> StaticOk(r.chain)
    decreases e, 0
  {
    hide StaticOk, Grows;
    match e {
      case Nil =>
      case Num(_) =>
      case Var(x) => VarOk(chain, x);
      case Add(l, r) =>
        CompileExpOk(l, chain);
        if CompileExp(l, chain).Done? { CompileExpOk(r, CompileExp(l, chain).chain); }
      case Function(param, body) => CompileFunctionOk(param, body, chain);
      case Call(f, a) =>
        CompileExpOk(f, chain);
        if CompileExp(f, chain).Done? { CompileExpOk(a, CompileExp(f, chain).chain); }
    }
  }

  lemma {:induction false} CompileFunctionOk(param: Name, body: L.Stat, chain: seq<Func>)
    requires chain != [] && StaticOk(chain)
    ensures var b := CompileBody(param, body, chain); b.Done? ==> StaticOk(b.chain)
    ensures var r := CompileFunction(param, body, chain); r.Done? ==> StaticOk(r.chain)
    decreases body, 2
  {
    hide StaticOk;
    OpenFuncOk(chain, param);
    CompileStatOk(body, OpenFunc(chain, param));
    var b := CompileBody(param, body, chain);
    if b.Done? {
      OutsideOk(b.chain);
    }
  }

  lemma LastNotLoop(chain: seq<Func>)
    requires StaticOk(chain) && chain != []
    ensures var b := Top(chain).blocks; b != [] ==> !b[|b| - 1].isBreakable
  {
    assert LoopsOk(Top(chain).blocks);
    if Top(chain).blocks != [] {
      assert LoopAt(Top(chain).blocks, |Top(chain).blocks| - 1);
    }
  }

  lemma LeaveAfter(chain: seq<Func>, c: seq<Func>)
    requires chain != [] && StaticOk(chain) && c != [] && StaticOk(c) && Continues(EnterBlock(chain, false), c)
    ensures Top(c).blocks != [] && Innermost(c).nactvar <= |Top(c).actvar| && StaticOk(LeaveBlock(c))
  {
    LastNotLoop(chain);
    var f, g := Top(EnterBlock(chain, false)).blocks, Top(c).blocks;
    if |f| > 1 {
      assert f[|f| - 2].isBreakable == g[|f| - 2].isBreakable;
    }
    LeaveBlockOk(c);
  }

  lemma {:induction false} CompileBlockOk(s: L.Stat, chain: seq<Func>)
    requires chain != [] && StaticOk(chain)
    ensures var r := CompileBlock(s, chain); r.Done? ==> StaticOk(r.chain)
    decreases s, 2
  {
    hide StaticOk, Continues;
    EnterBlockOk(chain);
    CompileStatOk(s, EnterBlock(chain, false));
    var c := CompileStat(s, EnterBlock(chain, false));
    if c.Done? {
      LeaveAfter(chain, c.chain);
    }
  }

  lemma LeaveLoopAfter(chain: seq<Func>, c: seq<Func>)
    requires chain != [] && c != [] && StaticOk(c) && Continues(EnterLoop(chain), c)
    ensures Top(c).blocks != [] && Innermost(c).nactvar <= |Top(c).actvar|
    ensures var inner := LeaveBlock(c);
      && Top(inner).blocks != [] && Innermost(inner).nactvar <= |Top(inner).actvar| && !Innermost(inner).upval
      && StaticOk(LeaveBlock(inner))
  {
    var f, g := Top(EnterLoop(chain)).blocks, Top(c).blocks;
    assert f[|f| - 2].isBreakable == g[|f| - 2].isBreakable;
    LeaveLoopOk(c);
  }

  lemma {:induction false} CompileLoopOk(a: L.Stat, chain: seq<Func>)
    requires chain != [] && StaticOk(chain)
    ensures var c := CompileStat(a, EnterLoop(chain)); c.Done? ==> StaticOk(c.chain)
    decreases a, 2
  {
    hide StaticOk, Continues;
    EnterLoopOk(chain);
    CompileStatOk(a, EnterLoop(chain));
  }

  lemma {:induction false} CompileWhileOk(e: L.Exp, a: L.Stat, chain: seq<Func>)
    requires chain != [] && StaticOk(chain)
    ensures var r := CompileWhile(e, a, chain); r.Done? ==> StaticOk(r.chain)
    decreases L.Stat.While(e, a), 0
  {
    hide StaticOk, Continues, Grows;
    CompileExpOk(e, chain);
    var c := CompileExp(e, chain);
    if c.Done? {
      CompileLoopOk(a, c.chain);
      var d := CompileStat(a, EnterLoop(c.chain));
      if d.Done? {
        LeaveLoopAfter(c.chain, d.chain);
      }
    }
  }

  lemma {:induction false} CompileRepeatOk(a: L.Stat, e: L.Exp, chain: seq<Func>)
    requires chain != [] && StaticOk(chain)
    ensures var r := CompileRepeat(a, e, chain); r.Done? ==> StaticOk(r.chain)
    decreases L.Stat.Repeat(a, e), 0
  {
    hide StaticOk, Continues, Grows, CompileStat, CompileExp, LeaveBlock, Top, Innermost;
    CompileLoopOk(a, chain);
    var c := CompileStat(a, EnterLoop(chain));
    if c.Done? {
      CompileExpOk(e, c.chain);
      var d := CompileExp(e, c.chain);
      if d.Done? {
        GrowsContinues(c.chain, d.chain);
        ContinuesTrans(EnterLoop(chain), c.chain, d.chain);
        LeaveLoopAfter(chain, d.chain);
      }
    }
  }

  lemma {:induction false} CompileIfOk(e: L.Exp, a: L.Stat, b: L.Stat, chain: seq<Func>)
    requires chain != [] && StaticOk(chain)
    ensures var r := CompileIf(e, a, b, chain); r.Done? ==> StaticOk(r.chain)
    decreases L.Stat.If(e, a, b), 0
  {
    hide StaticOk, Grows, CompileBlock, CompileExp;
    CompileExpOk(e, chain);
    var c := CompileExp(e, chain);
    if c.Done? {
      CompileBlockOk(a, c.chain);
      var d := CompileBlock(a, c.chain);
      if d.Done? {
        CompileBlockOk(b, d.chain);
      }
    }
  }

  lemma {:induction false} CompileLocalOk(x: Name, e: L.Exp, chain: seq<Func>)
    requires chain != [] && StaticOk(chain)
    ensures var r := CompileLocal(x, e, chain); r.Done? ==> StaticOk(r.chain)
    decreases L.Stat.Local(x, e), 0
  {
    hide StaticOk;
    CompileExpOk(e, chain);
    var c := CompileExp(e, chain);
    if c.Done? && RoomForLocal(chain) {
      assert FuncGrows(Top(chain), Top(c.chain));
      NewLocalOk(c.chain, x);
    }
  }

  /** Whatever statement is compiled, the chain stays in order. */
  lemma {:induction false} CompileStatOk(s: L.Stat, chain: seq<Func>)
    requires chain != [] && StaticOk(chain)
    ensures var r := CompileStat(s, chain); r.Done? ==> StaticOk(r.chain)
    decreases s, 1
  {
    hide StaticOk, Continues, Grows;
    match s {
      case Skip =>
      case Seq(a, b) =>
        CompileStatOk(a, chain);
        if CompileStat(a, chain).Done? { CompileStatOk(b, CompileStat(a, chain).chain); }
      case Local(x, e) => CompileLocalOk(x, e, chain);
      case LocalFunction(x, param, body) =>
        if RoomForLocal(chain) {
          NewLocalOk(chain, x);
          CompileFunctionOk(param, body, NewLocal(chain, x));
        }
      case Assign(x, e) =>
        VarOk(chain, x);
        var t := CompileTarget(x, chain);
        if t.Done? { CompileExpOk(e, t.chain); }
      case Eval(e) => CompileExpOk(e, chain);
      case Do(a) => CompileBlockOk(a, chain);
      case If(e, a, b) => CompileIfOk(e, a, b, chain);
      case While(e, a) => CompileWhileOk(e, a, chain);
      case Repeat(a, e) => CompileRepeatOk(a, e, chain);
      case Break =>
      case Return(e) => CompileExpOk(e, chain);
    }
  }

  lemma StartOk()
    ensures StaticOk(START)
  {
  }
}
