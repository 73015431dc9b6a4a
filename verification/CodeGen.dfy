/**
The code generator for expressions: descriptors that delay the choice of a
register and keep pending jumps, and the operations that compile `not`, `and`,
`or`, comparisons and arithmetic with them.
*/
module CodeGen {
  import opened Bytecode
  import opened CodeRuns
  import opened JumpLists
  import opened CodeMeaning
  import opened CodeJoins
  import opened CodeState

  /** The kinds of expression descriptor, with their `info`; VVAR is VUPVAL or VGLOBAL. */
  datatype Kind = VLOCAL(reg: nat) | VVAR(source: Source) | VRELOCABLE(pc: nat) | VNONRELOC(reg: nat) | VJMP(pc: nat)

  /** A descriptor as a value; `tl` and `fl` list the jumps that `t` and `f` start. */
  datatype Desc = Desc(k: Kind, t: int, f: int, tl: seq<nat>, fl: seq<nat>)

  /** Where the compilation of an expression began: the code then, the jumps pending then, and the first free register. */
  datatype Origin = Origin(code: seq<Instr>, jl: seq<nat>, base: nat)

  class ExpDesc {
    var k: Kind
    var t: int
    var f: int
    ghost var tl: seq<nat>
    ghost var fl: seq<nat>

    /** `init_exp`. */
    constructor (kind: Kind)
      ensures View() == Desc(kind, NO_JUMP, NO_JUMP, [], [])
    {
      k, t, f := kind, NO_JUMP, NO_JUMP;
      tl, fl := [], [];
    }

    ghost function View(): Desc
      reads this
    {
      Desc(k, t, f, tl, fl)
    }
  }

  // ------------------------------------------------------------ descriptors

  /** What a descriptor says about the code. */
  function PartOf(g: Gen, d: Desc): Part
    requires d.k.VRELOCABLE? ==> |g.code| >= 1
    requires d.k.VJMP? ==> |g.code| >= 2
  {
    var n := |g.code|;
    match d.k
    case VLOCAL(r) => Part(g.code, g.jl, d.tl, d.fl, n, InReg(r))
    case VVAR(source) => Part(g.code, g.jl, d.tl, d.fl, n, Yield(Load(0, source)))
    case VNONRELOC(r) => Part(g.code, g.jl, d.tl, d.fl, n, InReg(r))
    case VRELOCABLE(_) => Part(g.code, g.jl, d.tl, d.fl, n - 1, Yield(g.code[n - 1]))
    case VJMP(_) => Part(g.code, g.jl, d.tl, d.fl, n - 2, Tested(g.code[n - 2]))
  }

  /** The descriptor fits the code emitted since `o`. */
  ghost predicate Placed(g: Gen, d: Desc, o: Origin) {
    var n := |g.code|;
    && n >= |o.code|
    && match d.k
       case VLOCAL(r) => r < g.nactvar && n == |o.code|
       case VVAR(_) => n == |o.code|
       case VNONRELOC(r) => r < g.nactvar || r == o.base
       case VRELOCABLE(pc) => n > |o.code| && pc == n - 1 && g.jl == [] && Relocatable(g.code[pc])
       case VJMP(pc) =>
         && n > |o.code| + 1 && pc == n - 1 && g.jl == []
         && g.code[pc - 1].Compare? && g.code[pc] == Jmp(NO_JUMP)
  }

  /** Since `o` no register has been taken but the one that holds the value, if one does. */
  ghost predicate RegistersOk(g: Gen, d: Desc, o: Origin) {
    g.freereg == if d.k.VNONRELOC? && d.k.reg >= g.nactvar then o.base + 1 else o.base
  }

  ghost predicate ListsOk(g: Gen, d: Desc) {
    IsList(g.code, d.t, d.tl) && IsList(g.code, d.f, d.fl)
  }

  /** The origin is a state the generator can be in. */
  ghost predicate OriginOk(o: Origin, nactvar: nat) {
    AllJumps(o.code, o.jl) && TestsPaired(o.code) && nactvar <= o.base
  }

  /** Since `o` code has been generated that evaluates `x`, described by `d`, and keeps the registers in use but `but`. */
  ghost predicate Coded(g: Gen, d: Desc, x: Expr, o: Origin, but: int) {
    && ValidGen(g) && OriginOk(o, g.nactvar) && Placed(g, d, o) && ListsOk(g, d)
    && Follows(o.code, o.jl, g.code, g.jl)
    && Sound(PartOf(g, d), |o.code|)
    && Evaluates(PartOf(g, d), x, |o.code|, o.base, but, g.max)
  }

  /** Since `o` the generator has compiled `x`, described by `d`. */
  ghost predicate Compiled(g: Gen, d: Desc, x: Expr, o: Origin) {
    Coded(g, d, x, o, -1) && RegistersOk(g, d, o)
  }

  // ------------------------------------------------------------ value lemmas

  lemma FollowsEmit(o: Origin, code: seq<Instr>, jl: seq<nat>, code2: seq<Instr>)
    requires Follows(o.code, o.jl, code, jl) && TestsPaired(o.code) && AllJumps(o.code, o.jl) && AllJumps(code, jl)
    requires |code2| > |code| && code2[..|code|] == Patch(code, jl, |code|, NO_REG, |code|)
    ensures Follows(o.code, o.jl, code2, [])
  {
    var n := |o.code|;
    if |code| > n {
      var c := Patch(code, jl, |code|, NO_REG, |code|);
      forall i | 0 <= i < n ensures code2[i] == code[i] {
        assert code2[i] == code2[..|code|][i] == c[i];
        assert code[i] == code[..n][i] == PatchedAt(o.code, o.jl, n, NO_REG, n, i);
        assert i !in jl;
        if i == n - 1 {
          PatchedTests(o.code, o.jl, n, NO_REG, n, i);
        }
      }
      assert code2[..n] == code[..n];
    }
  }

  lemma FollowsTail(o: Origin, code: seq<Instr>, jl: seq<nat>, code2: seq<Instr>, jl2: seq<nat>)
    requires Follows(o.code, o.jl, code, jl) && |code| > |o.code| && |code2| > |o.code|
    requires forall i :: 0 <= i < |o.code| ==> code2[i] == code[i]
    requires forall j :: j in jl2 ==> j >= |o.code|
    ensures Follows(o.code, o.jl, code2, jl2)
  {
    assert code2[..|o.code|] == code[..|o.code|];
  }

  /** A test and a jump appended to code whose tests are paired, or an instruction that is no test. */
  lemma PairedEmit(code: seq<Instr>, jl: seq<nat>, i: Instr)
    requires TestsPaired(code) && AllJumps(code, jl)
    ensures !IsTest(i) ==> TestsPaired(Emitted(code, jl, i))
    ensures TestsPaired(Emitted(code, jl, i) + [Jmp(NO_JUMP)])
  {
    var n := |code|;
    var c := Patch(code, jl, n, NO_REG, n);
    forall k | 0 <= k < n && IsTest(c[k]) ensures k + 1 < n && c[k + 1].Jmp? {
      PatchedTests(code, jl, n, NO_REG, n, k);
      if k + 1 < n {
        PatchedTests(code, jl, n, NO_REG, n, k + 1);
      }
    }
  }

  /** A list of exits is still a list after an emission that sends other jumps away. */
  lemma ListEmit(code: seq<Instr>, jl: seq<nat>, code2: seq<Instr>, head: int, q: seq<nat>)
    requires IsList(code, head, q) && Disjoint(jl, q)
    requires |code2| >= |code| && code2[..|code|] == Patch(code, jl, |code|, NO_REG, |code|)
    ensures IsList(code2, head, q)
  {
    forall j | j in q ensures code2[j] == code[j] {
      assert j < |code| && code[j].Jmp? && j !in jl;
      assert code2[j] == code2[..|code|][j];
    }
    ListKept(code, code2, head, q);
  }

  lemma MoreRegisters(p: Part, x: Expr, start: nat, base: nat, but: int, max: nat, but2: int, max2: nat)
    requires Evaluates(p, x, start, base, but, max) && max <= max2 && (but2 == but || but == -1)
    ensures Evaluates(p, x, start, base, but2, max2)
  {
    forall env: Env, m: Machine | |m.regs| >= max2 ensures Means(env, p, x, start, base, but2, m) {
      assert Means(env, p, x, start, base, but, m);
    }
  }

  /** A state with other registers in use, and more of them. */
  lemma CodedMore(g: Gen, g2: Gen, d: Desc, x: Expr, o: Origin, but: int, but2: int)
    requires Coded(g, d, x, o, but) && (but2 == but || but == -1)
    requires g2 == g.(max := g2.max, freereg := g2.freereg) && g.max <= g2.max < MAXSTACK && g2.nactvar <= g2.freereg <= g2.max
    ensures Coded(g2, d, x, o, but2)
  {
    hide Evaluates, Follows, Sound, TestsPaired, IsList;
    MoreRegisters(PartOf(g, d), x, |o.code|, o.base, but, g.max, but2, g2.max);
  }

  /** Instructions follow the part: what it means and its lists stay. */
  lemma Emission(g: Gen, d: Desc, x: Expr, o: Origin, but: int, code2: seq<Instr>)
    requires Coded(g, d, x, o, but) && PartOf(g, d).lim == |g.code|
    requires |code2| > |g.code| && code2[..|g.code|] == Patch(g.code, g.jl, |g.code|, NO_REG, |g.code|)
    ensures var p2 := PartOf(g, d).(code := code2, jl := []);
            Sound(p2, |o.code|) && Evaluates(p2, x, |o.code|, o.base, but, g.max)
    ensures Follows(o.code, o.jl, code2, [])
    ensures IsList(code2, d.t, d.tl) && IsList(code2, d.f, d.fl)
  {
    hide Evaluates, IsList, Follows, Patch;
    EmitMeans(PartOf(g, d), x, |o.code|, o.base, but, g.max, code2);
    FollowsEmit(o, g.code, g.jl, code2);
    ListEmit(g.code, g.jl, code2, d.t, d.tl);
    ListEmit(g.code, g.jl, code2, d.f, d.fl);
  }

  /** `i` has been emitted behind the part. */
  ghost predicate EmittedTo(g: Gen, g2: Gen, i: Instr) {
    && g2.code == Emitted(g.code, g.jl, i)
    && g2.jpc == NO_JUMP && g2.jl == []
    && g2.nactvar == g.nactvar && g2.max == g.max
  }

  lemma EmittedValid(g: Gen, g2: Gen, i: Instr)
    requires ValidGen(g) && EmittedTo(g, g2, i) && !IsTest(i) && g.nactvar <= g2.freereg <= g.max
    ensures ValidGen(g2)
  {
    PairedEmit(g.code, g.jl, i);
  }

  lemma LoadEmitted(g: Gen, g2: Gen, d: Desc, x: Expr, o: Origin)
    requires Coded(g, d, x, o, -1) && d.k.VVAR? && EmittedTo(g, g2, Load(0, d.k.source)) && g2.freereg == g.freereg
    ensures Coded(g2, d.(k := VRELOCABLE(|g.code|)), x, o, -1)
  {
    Emission(g, d, x, o, -1, g2.code);
    EmittedValid(g, g2, Load(0, d.k.source));
  }

  /** The value is in a register and nothing is pending: there is nothing left to do. */
  predicate InRegister(d: Desc) {
    d.k.VNONRELOC? && d.t == NO_JUMP && d.f == NO_JUMP
  }

  /** `luaK_dischargevars`. */
  method DischargeVars(fs: FuncState, e: ExpDesc, ghost x: Expr, ghost o: Origin) returns (s: Status)
    requires InRegister(e.View()) || Coded(fs.View(), e.View(), x, o, -1)
    modifies fs, e
    ensures s.Fine? && old(Coded(fs.View(), e.View(), x, o, -1)) ==> Coded(fs.View(), e.View(), x, o, -1)
    ensures s.Fine? ==> !e.k.VLOCAL? && !e.k.VVAR?
    ensures s.Fine? && RegistersOk(old(fs.View()), old(e.View()), o) ==> RegistersOk(fs.View(), e.View(), o)
    ensures s.Fine? ==> e.View() == old(e.View()).(k := e.k)
    ensures s.Fine? ==> fs.maxstacksize == old(fs.maxstacksize) && fs.freereg == old(fs.freereg)
    ensures s.Fine? && old(e.k).VLOCAL? ==> e.k == VNONRELOC(old(e.k).reg)
    ensures s.Fine? && old(e.k).VVAR? ==> e.k.VRELOCABLE?
    ensures s.Fine? && !old(e.k).VLOCAL? && !old(e.k).VVAR? ==> e.View() == old(e.View()) && fs.View() == old(fs.View())
    ensures s.SyntaxError? ==> fs.OverLimit()
    ensures |fs.code| <= |old(fs.code)| + 1 && fs.freereg <= old(fs.freereg)
    ensures InRegister(old(e.View())) ==> s.Fine?
  {
    ghost var g, d := fs.View(), e.View();
    match e.k {
      case VLOCAL(reg) => e.k := VNONRELOC(reg);
      case VVAR(source) =>
        :- fs.Code(Load(0, source));
        LoadEmitted(g, fs.View(), d, x, o);
        e.k := VRELOCABLE(|fs.code| - 1);
      case _ =>
    }
    return Fine;
  }

  lemma Settled(g: Gen, g2: Gen, d: Desc, x: Expr, o: Origin, reg: nat)
    requires Coded(g, d, x, o, -1) && d.k.VRELOCABLE? && g2 == g.(code := g.code[d.k.pc := Retargeted(g.code[d.k.pc], reg)])
    requires reg < g.max && (reg < g.nactvar || reg == o.base)
    ensures Coded(g2, d.(k := VNONRELOC(reg)), x, o, reg)
  {
    var p, n := PartOf(g, d), d.k.pc;
    hide Evaluates, Sound;
    RelinkMeans(p, x, |o.code|, o.base, -1, g.max, g2.code);
    MoreRegisters(p.(code := g2.code), x, |o.code|, o.base, -1, g.max, reg, g.max);
    SettleMeans(p.(code := g2.code), x, |o.code|, o.base, reg, g.max, reg);
    FollowsTail(o, g.code, g.jl, g2.code, g2.jl);
    ListKept(g.code, g2.code, d.t, d.tl);
    ListKept(g.code, g2.code, d.f, d.fl);
  }

  lemma Moved(g: Gen, g2: Gen, d: Desc, x: Expr, o: Origin, reg: nat)
    requires Coded(g, d, x, o, -1) && d.k.VNONRELOC? && EmittedTo(g, g2, Move(reg, d.k.reg)) && g2.freereg == g.freereg
    requires reg < g.max && (reg < g.nactvar || reg == o.base)
    ensures Coded(g2, d.(k := VNONRELOC(reg)), x, o, reg)
  {
    Emission(g, d, x, o, -1, g2.code);
    EmittedValid(g, g2, Move(reg, d.k.reg));
    var p := PartOf(g, d).(code := g2.code, jl := []);
    MoreRegisters(p, x, |o.code|, o.base, -1, g.max, reg, g.max);
    SettleMeans(p, x, |o.code|, o.base, reg, g.max, reg);
  }

  /** `discharge2reg`. */
  method Discharge2Reg(fs: FuncState, e: ExpDesc, reg: nat, ghost x: Expr, ghost o: Origin) returns (s: Status)
    requires Coded(fs.View(), e.View(), x, o, -1)
    requires reg < fs.maxstacksize && (reg < fs.nactvar || reg == o.base)
    modifies fs, e
    ensures s.Fine? ==> Coded(fs.View(), e.View(), x, o, reg)
    ensures s.Fine? ==> e.k == (if old(e.k).VJMP? then old(e.k) else VNONRELOC(reg)) && e.View() == old(e.View()).(k := e.k)
    ensures s.Fine? ==> fs.maxstacksize == old(fs.maxstacksize) && fs.freereg == old(fs.freereg)
    ensures s.SyntaxError? ==> fs.OverLimit()
    ensures |fs.code| <= |old(fs.code)| + 2 && fs.freereg <= old(fs.freereg)
  {
    hide Evaluates, Follows, Sound, TestsPaired;
    :- DischargeVars(fs, e, x, o);
    ghost var g, d := fs.View(), e.View();
    match e.k {
      case VRELOCABLE(pc) =>
        fs.code := fs.code[pc := Retargeted(fs.code[pc], reg)];
        Settled(g, fs.View(), d, x, o, reg);
        e.k := VNONRELOC(reg);
      case VNONRELOC(r) =>
        if reg != r {
          :- fs.Code(Move(reg, r));
          Moved(g, fs.View(), d, x, o, reg);
        } else {
          CodedMore(g, g, d, x, o, -1, reg);
        }
        e.k := VNONRELOC(reg);
      case _ => CodedMore(g, g, d, x, o, -1, reg);
    }
    return Fine;
  }

  // ---------------------------------------------------------------- exp2reg

  /** The part a descriptor stands for once a pending comparison has joined the exits for true. */
  ghost predicate Exiting(g: Gen, d: Desc, end: End, x: Expr, o: Origin, but: int) {
    && ValidGen(g) && OriginOk(o, g.nactvar) && ListsOk(g, d)
    && Follows(o.code, o.jl, g.code, g.jl)
    && Sound(Part(g.code, g.jl, d.tl, d.fl, |g.code|, end), |o.code|)
    && Evaluates(Part(g.code, g.jl, d.tl, d.fl, |g.code|, end), x, |o.code|, o.base, but, g.max)
  }

  lemma ThreadRelinked(p: Part, q: seq<nat>, r: seq<nat>)
    requires AllJumps(p.code, q) && (p.lim == |p.code| || p.jl == []) && p.lim <= |p.code|
    requires forall j :: j in q ==> j in p.tl || j in p.fl
    ensures Relinked(p, Threaded(p.code, q, r))
  {
    forall i | 0 <= i < p.lim ensures RelinkedAt(p, Threaded(p.code, q, r), i) {
      if q != [] && r != [] && i == q[|q| - 1] {
        assert i in q && p.code[i].Jmp?;
      }
    }
  }

  lemma ThreadPaired(code: seq<Instr>, q: seq<nat>, r: seq<nat>)
    requires TestsPaired(code) && AllJumps(code, q)
    ensures TestsPaired(Threaded(code, q, r))
  {
    var c := Threaded(code, q, r);
    forall i | 0 <= i < |c| && IsTest(c[i]) ensures i + 1 < |c| && c[i + 1].Jmp? {
      assert IsTest(code[i]);
    }
  }

  lemma ThreadFollows(o: Origin, code: seq<Instr>, jl: seq<nat>, q: seq<nat>, r: seq<nat>)
    requires Follows(o.code, o.jl, code, jl) && AllJumps(code, q) && forall j :: j in q ==> j > |o.code|
    ensures Follows(o.code, o.jl, Threaded(code, q, r), jl)
  {
    if q != [] && r != [] {
      var c := Threaded(code, q, r);
      assert q[|q| - 1] in q;
      FollowsTail(o, code, jl, c, jl);
    }
  }

  /** Threading one list of exits leaves another list alone. */
  lemma ThreadKeeps(code: seq<Instr>, q: seq<nat>, r: seq<nat>, head: int, q2: seq<nat>)
    requires AllJumps(code, q) && IsList(code, head, q2) && Disjoint(q, q2)
    ensures IsList(Threaded(code, q, r), head, q2)
  {
    if q != [] {
      assert q[|q| - 1] in q;
    }
    ListKept(code, Threaded(code, q, r), head, q2);
  }

  /** `invertjump`, or nothing, done to the comparison that ends the code. */
  function ComparedFor(code: seq<Instr>, b: bool): seq<Instr>
    requires |code| >= 2 && code[|code| - 2].Compare?
  {
    code[|code| - 2 := Comparing(code[|code| - 2], b)]
  }

  lemma ComparedState(g: Gen, d: Desc, x: Expr, o: Origin, but: int, b: bool)
    requires Coded(g, d, x, o, but) && d.k.VJMP?
    ensures var code := ComparedFor(g.code, b);
            ValidGen(g.(code := code)) && ListsOk(g.(code := code), d) && Follows(o.code, o.jl, code, g.jl)
  {
    hide Evaluates;
    var code := ComparedFor(g.code, b);
    FollowsTail(o, g.code, g.jl, code, g.jl);
    ListKept(g.code, code, d.f, d.fl);
    ListKept(g.code, code, d.t, d.tl);
    forall i | 0 <= i < |code| && IsTest(code[i]) ensures i + 1 < |code| && code[i + 1].Jmp? {
      assert IsTest(g.code[i]);
    }
  }

  lemma ComparedMeans(g: Gen, d: Desc, x: Expr, o: Origin, but: int, b: bool)
    requires Coded(g, d, x, o, but) && d.k.VJMP?
    ensures var p := WithExit(PartOf(g, d).(code := ComparedFor(g.code, b)), b, d.k.pc, Exactly(!b));
            Sound(p, |o.code|) && Evaluates(p, x, |o.code|, o.base, but, g.max)
  {
    hide Evaluates, Follows, ValidGen, ListsOk, Sound, OriginOk, WithExit, Comparing;
    ComparingMeans(PartOf(g, d), x, |o.code|, o.base, but, g.max, b);
  }

  /** The jump of a comparison, threaded to the exits for `b`: the comparison stands as it is for true, inverted for false. */
  lemma ComparisonExits(g: Gen, g2: Gen, d: Desc, x: Expr, o: Origin, but: int, b: bool, l: int)
    requires Coded(g, d, x, o, but) && d.k.VJMP?
    requires var q := if b then d.tl else d.fl;
             && AllJumps(ComparedFor(g.code, b), q)
             && g2 == g.(code := Threaded(ComparedFor(g.code, b), q, [d.k.pc])) && IsList(g2.code, l, q + [d.k.pc])
    ensures Exiting(g2, ExitAdded(d, b, d.k.pc, l), Exactly(!b), x, o, but)
  {
    hide Coded, Exiting, Sound, Evaluates, Follows, ListsOk, IsList, AllJumps, ValidGen, OriginOk, Threaded, Comparing;
    CodedShape(g, d, x, o, but);
    ComparedState(g, d, x, o, but, b);
    ComparedMeans(g, d, x, o, but, b);
    var p := WithExit(PartOf(g, d).(code := ComparedFor(g.code, b)), b, d.k.pc, Exactly(!b));
    ExitThreaded(g.(code := p.code), g2, d, p, x, o, but, b, d.k.pc, l);
  }

  lemma CodedShape(g: Gen, d: Desc, x: Expr, o: Origin, but: int)
    requires Coded(g, d, x, o, but) && d.k.VJMP?
    ensures OriginOk(o, g.nactvar) && |g.code| > |o.code| && d.k.pc == |g.code| - 1 >= 1 && g.jl == []
    ensures g.code[|g.code| - 2].Compare?
  {
    hide Evaluates, Follows, Sound;
  }

  /** The descriptor with the jump at `pc` added to the exits for `b`, whose list now starts at `l`. */
  function ExitAdded(d: Desc, b: bool, pc: nat, l: int): Desc {
    if b then d.(t := l, tl := d.tl + [pc]) else d.(f := l, fl := d.fl + [pc])
  }

  /** `luaK_concat` of a last jump, not yet in a list, to the exits for `b`. */
  lemma ExitThreaded(g: Gen, g2: Gen, d: Desc, p: Part, x: Expr, o: Origin, but: int, b: bool, pc: nat, l: int)
    requires ValidGen(g) && OriginOk(o, g.nactvar) && ListsOk(g, d) && Follows(o.code, o.jl, g.code, g.jl)
    requires p.code == g.code && p.jl == g.jl == [] && p.lim == |g.code| == pc + 1 > |o.code|
    requires var q := if b then d.tl else d.fl;
             && p.tl == (if b then d.tl + [pc] else d.tl) && p.fl == (if b then d.fl else d.fl + [pc])
             && g2 == g.(code := Threaded(g.code, q, [pc])) && IsList(g2.code, l, q + [pc])
    requires Sound(p, |o.code|) && Evaluates(p, x, |o.code|, o.base, but, g.max)
    ensures Exiting(g2, ExitAdded(d, b, pc, l), p.end, x, o, but)
  {
    var q, q2 := if b then d.tl else d.fl, if b then d.fl else d.tl;
    ThreadRelinked(p, q, [pc]);
    RelinkMeans(p, x, |o.code|, o.base, but, g.max, g2.code);
    ThreadFollows(o, g.code, g.jl, q, [pc]);
    ThreadPaired(g.code, q, [pc]);
    ThreadKeeps(g.code, q, [pc], if b then d.f else d.t, q2);
  }

  /** The two loads of `exp2reg`, with a jump around them unless the code before cannot reach them: `jl2` is what is then pending. */
  ghost predicate LoadsAppended(g: Gen, g2: Gen, around: bool, reg: nat, pf: int, pt: int) {
    var n := |g.code|;
    && |g2.code| == n + (if around then 3 else 2) && g2.code[..n] == g.code
    && pf == |g2.code| - 2 && pt == |g2.code| - 1
    && g2.code[pf] == LoadBool(reg, false, true) && g2.code[pt] == LoadBool(reg, true, false)
    && (around ==> g2.code[n].Jmp?)
    && g2.jl == (if around then [n] + g.jl else [])
    && g2 == g.(code := g2.code, jl := g2.jl, jpc := g2.jpc) && ValidGen(g2)
  }

  lemma LoadsPaired(code: seq<Instr>, code2: seq<Instr>)
    requires TestsPaired(code) && |code2| >= |code| && code2[..|code|] == code
    requires forall i :: |code| <= i < |code2| ==> !IsTest(code2[i])
    ensures TestsPaired(code2)
  {
    forall i | 0 <= i < |code2| && IsTest(code2[i]) ensures i + 1 < |code2| && code2[i + 1].Jmp? {
      assert code2[i] == code2[..|code|][i];
      assert i + 1 < |code| && code2[i + 1] == code2[..|code|][i + 1];
    }
  }

  /** `code_label`. */
  method CodeLabel(fs: FuncState, reg: nat, b: bool, skip: bool) returns (s: Status, pc: int)
    requires fs.jpc == NO_JUMP && fs.jl == []
    modifies fs`code, fs`jpc, fs`jl, fs`lasttarget
    ensures s.Fine? ==> fs.code == old(fs.code) + [LoadBool(reg, b, skip)] && pc == |old(fs.code)|
    ensures s.Fine? ==> fs.jpc == NO_JUMP && fs.jl == []
    ensures s.SyntaxError? ==> fs.OverLimit()
    ensures |fs.code| <= |old(fs.code)| + 1
  {
    pc := fs.GetLabel();
    PatchNone(fs.code, |fs.code|, NO_REG, |fs.code|);
    :- fs.Code(LoadBool(reg, b, skip));
    return Fine, pc;
  }

  /** The middle of `exp2reg`. */
  method AppendLoads(fs: FuncState, around: bool, reg: nat) returns (s: Status, pf: int, pt: int)
    requires ValidGen(fs.View()) && (!around ==> fs.jl == [])
    modifies fs`code, fs`jpc, fs`jl, fs`lasttarget
    ensures s.Fine? ==> LoadsAppended(old(fs.View()), fs.View(), around, reg, pf, pt)
    ensures s.SyntaxError? ==> fs.OverLimit()
    ensures |fs.code| <= |old(fs.code)| + 3
  {
    hide TestsPaired, Patch, Linked, Distinct;
    ghost var g, n := fs.View(), |fs.code|;
    pf, pt := NO_JUMP, NO_JUMP;
    var fj := NO_JUMP;
    ghost var q: seq<nat> := [];
    if around {
      fj :- fs.Jump();
      q := [n] + g.jl;
    }
    ghost var code1 := fs.code;
    pf :- CodeLabel(fs, reg, false, true);
    pt :- CodeLabel(fs, reg, true, false);
    LoadsBehind(g, code1, fs.code, around, reg, fj, q);
    :- fs.PatchToHere(fj, q);
    return Fine, pf, pt;
  }

  /** What `AppendLoads` has appended, before the jump around it is made pending. */
  lemma LoadsBehind(g: Gen, code1: seq<Instr>, code2: seq<Instr>, around: bool, reg: nat, fj: int, q: seq<nat>)
    requires ValidGen(g) && IsList(code1, fj, q) && code2 == code1 + [LoadBool(reg, false, true)] + [LoadBool(reg, true, false)]
    requires if around then |code1| == |g.code| + 1 && code1[..|g.code|] == g.code && code1[|g.code|].Jmp? else code1 == g.code
    ensures IsList(code2, fj, q) && code2[..|g.code|] == g.code && TestsPaired(code2)
  {
    hide TestsPaired, Linked, Distinct;
    assert code2[..|code1|] == code1;
    forall i | 0 <= i < |code1| ensures code2[i] == code1[i] {
    }
    ListKept(code1, code2, fj, q);
    assert code2[..|g.code|] == code1[..|g.code|];
    LoadsPaired(g.code, code2);
  }

  // --------------------------------------------------- patching the exits

  /** A patched list of exits leaves another list alone. */
  lemma PatchKeeps(code: seq<Instr>, q: seq<nat>, vtarget: int, reg: nat, dtarget: int, head: int, q2: seq<nat>)
    requires IsList(code, head, q2) && Disjoint(q, q2)
    ensures IsList(Patch(code, q, vtarget, reg, dtarget), head, q2)
  {
    var c := Patch(code, q, vtarget, reg, dtarget);
    forall j | j in q2 ensures c[j] == code[j] {
      assert j < |code| && code[j].Jmp? && j !in q;
      assert c[j] == PatchedAt(code, q, vtarget, reg, dtarget, j);
    }
    ListKept(code, c, head, q2);
  }

  lemma PatchPaired(code: seq<Instr>, q: seq<nat>, vtarget: int, reg: nat, dtarget: int)
    requires TestsPaired(code) && AllJumps(code, q)
    ensures TestsPaired(Patch(code, q, vtarget, reg, dtarget))
  {
    var c := Patch(code, q, vtarget, reg, dtarget);
    forall i | 0 <= i < |c| && IsTest(c[i]) ensures i + 1 < |c| && c[i + 1].Jmp? {
      PatchedTests(code, q, vtarget, reg, dtarget, i);
      PatchedTests(code, q, vtarget, reg, dtarget, i + 1);
    }
  }

  lemma PatchFollows(o: Origin, code: seq<Instr>, jl: seq<nat>, q: seq<nat>, vtarget: int, reg: nat, dtarget: int)
    requires Follows(o.code, o.jl, code, jl) && |code| > |o.code| && forall j :: j in q ==> j > |o.code|
    ensures Follows(o.code, o.jl, Patch(code, q, vtarget, reg, dtarget), jl)
  {
    var c := Patch(code, q, vtarget, reg, dtarget);
    forall i | 0 <= i < |o.code| ensures c[i] == code[i] {
      assert c[i] == PatchedAt(code, q, vtarget, reg, dtarget, i);
    }
    FollowsTail(o, code, jl, c, jl);
  }

  /** The exits are patched: the value is in the register whichever way the expression ends. */
  lemma ExitsPatched(g: Gen, g2: Gen, g3: Gen, d: Desc, end: End, x: Expr, o: Origin, reg: nat, pf: int, pt: int)
    requires Exiting(g, d, end, x, o, reg) && |g.code| > |o.code| && reg < g.max && (reg < g.nactvar || reg == o.base)
    requires ValidGen(g2) && Appended(Part(g.code, g.jl, d.tl, d.fl, |g.code|, end), g2.code, g2.jl, reg, pf, pt)
    requires g2 == g.(code := g2.code, jl := g2.jl, jpc := g2.jpc)
    requires g3 == g2.(code := Delivered(g2.code, d.tl, d.fl, reg, pf, pt))
    ensures Coded(g3, Desc(VNONRELOC(reg), NO_JUMP, NO_JUMP, [], []), x, o, reg)
  {
    var p := Part(g.code, g.jl, d.tl, d.fl, |g.code|, end);
    PatchedState(g, g2, g3, d, end, x, o, reg, pf, pt);
    ExitsStay(p, |o.code|, g2.code);
    DeliverMeans(p, x, |o.code|, o.base, reg, g.max, g2.code, g2.jl, reg, pf, pt);
  }

  lemma ExitsStay(p: Part, start: nat, code: seq<Instr>)
    requires Sound(p, start) && p.lim == |p.code| && |code| >= |p.code| && code[..|p.code|] == p.code
    ensures Exits(code, start, |p.code|, p.tl) && Exits(code, start, |p.code|, p.fl)
  {
    forall j | j in p.tl || j in p.fl ensures start < j < |p.code| && code[j].Jmp? && IsTest(code[j - 1]) {
      assert code[j] == code[..|p.code|][j] && code[j - 1] == code[..|p.code|][j - 1];
    }
  }

  lemma PatchedState(g: Gen, g2: Gen, g3: Gen, d: Desc, end: End, x: Expr, o: Origin, reg: nat, pf: int, pt: int)
    requires Exiting(g, d, end, x, o, reg) && |g.code| > |o.code|
    requires ValidGen(g2) && Appended(Part(g.code, g.jl, d.tl, d.fl, |g.code|, end), g2.code, g2.jl, reg, pf, pt)
    requires g2 == g.(code := g2.code, jl := g2.jl, jpc := g2.jpc)
    requires g3 == g2.(code := Delivered(g2.code, d.tl, d.fl, reg, pf, pt))
    ensures ValidGen(g3) && Follows(o.code, o.jl, g3.code, g3.jl)
  {
    hide Evaluates;
    var n := |g2.code|;
    forall i | 0 <= i < |o.code| ensures g2.code[i] == g.code[i] {
      assert g2.code[i] == g2.code[..|g.code|][i];
    }
    FollowsTail(o, g.code, g.jl, g2.code, g2.jl);
    ListsStay(g, g2, d);
    assert Disjoint(d.fl, g2.jl) && Disjoint(d.tl, g2.jl);
    var c := Patch(g2.code, d.fl, n, reg, pf);
    PatchFollows(o, g2.code, g2.jl, d.fl, n, reg, pf);
    PatchFollows(o, c, g2.jl, d.tl, n, reg, pt);
    PatchPaired(g2.code, d.fl, n, reg, pf);
    PatchKeeps(g2.code, d.fl, n, reg, pf, d.t, d.tl);
    PatchPaired(c, d.tl, n, reg, pt);
    PatchKeeps(g2.code, d.fl, n, reg, pf, g2.jpc, g2.jl);
    PatchKeeps(c, d.tl, n, reg, pt, g2.jpc, g2.jl);
  }

  /** Lists stay lists when code is appended. */
  lemma ListsStay(g: Gen, g2: Gen, d: Desc)
    requires ListsOk(g, d) && |g2.code| >= |g.code| && g2.code[..|g.code|] == g.code
    ensures ListsOk(g2, d)
  {
    forall i | 0 <= i < |g.code| ensures g2.code[i] == g.code[i] {
      assert g2.code[i] == g2.code[..|g.code|][i];
    }
    ListKept(g.code, g2.code, d.t, d.tl);
    ListKept(g.code, g2.code, d.f, d.fl);
  }

  /** The middle of `exp2reg`: the exits are patched, behind loads if some exit does not carry its value. */
  method PatchExits(fs: FuncState, e: ExpDesc, reg: nat, ghost end: End, ghost x: Expr, ghost o: Origin) returns (s: Status)
    requires Exiting(fs.View(), e.View(), end, x, o, reg) && |fs.code| > |o.code|
    requires reg < fs.maxstacksize && (reg < fs.nactvar || reg == o.base)
    requires if e.k.VJMP? then fs.jl == [] && end == Exactly(false) && NeedsValue(fs.code, e.tl) else end == InReg(reg)
    modifies fs
    ensures s.Fine? ==> Coded(fs.View(), Desc(VNONRELOC(reg), NO_JUMP, NO_JUMP, [], []), x, o, reg)
    ensures s.Fine? ==> fs.maxstacksize == old(fs.maxstacksize) && fs.freereg == old(fs.freereg)
    ensures s.SyntaxError? ==> fs.OverLimit()
    ensures |fs.code| <= |old(fs.code)| + 3 && fs.freereg <= old(fs.freereg)
  {
    hide Exiting, Coded, TestsPaired, LoadsAppended, Appended;
    ghost var g, d := fs.View(), e.View();
    ExitingLists(g, d, end, x, o, reg);
    var pf, pt := NO_JUMP, NO_JUMP;
    var needed := fs.NeedValue(e.t, e.tl);
    if !needed {
      needed := fs.NeedValue(e.f, e.fl);
    }
    if needed {
      pf, pt :- AppendLoads(fs, !e.k.VJMP?, reg);
    }
    AppendedExits(g, fs.View(), d, end, reg, needed, e.k.VJMP?, pf, pt);
    :- PatchBoth(fs, e, reg, pf, pt, g, end, x, o);
    return Fine;
  }

  /** Both lists of exits are patched: those that carry their value to the end, the others to the loads. */
  method PatchBoth(
      fs: FuncState, e: ExpDesc, reg: nat, pf: int, pt: int, ghost g: Gen, ghost end: End, ghost x: Expr, ghost o: Origin)
    returns (s: Status)
    requires Exiting(g, e.View(), end, x, o, reg) && |g.code| > |o.code|
    requires reg < g.max && (reg < g.nactvar || reg == o.base)
    requires var d := e.View();
      Appended(Part(g.code, g.jl, d.tl, d.fl, |g.code|, end), fs.code, fs.jl, reg, pf, pt)
    requires ValidGen(fs.View()) && fs.View() == g.(code := fs.code, jl := fs.jl, jpc := fs.jpc)
    requires |fs.code| >= |g.code| && fs.code[..|g.code|] == g.code
    requires -1 <= pf < |fs.code| && -1 <= pt < |fs.code|
    modifies fs
    ensures s.Fine? ==> Coded(fs.View(), Desc(VNONRELOC(reg), NO_JUMP, NO_JUMP, [], []), x, o, reg)
    ensures s.Fine? ==> fs.maxstacksize == old(fs.maxstacksize)
    ensures s.SyntaxError? ==> fs.OverLimit()
    ensures |fs.code| == |old(fs.code)| && fs.freereg == old(fs.freereg)
  {
    hide Exiting, Coded, TestsPaired, Appended;
    ghost var g2, d := fs.View(), e.View();
    ExitingLists(g, d, end, x, o, reg);
    ListsStay(g, g2, d);
    hide Patch;
    var final := fs.GetLabel();
    :- fs.PatchListAux(e.f, final, reg, pf, e.fl);
    PatchKeeps(g2.code, e.fl, final, reg, pf, e.t, e.tl);
    :- fs.PatchListAux(e.t, final, reg, pt, e.tl);
    ExitsPatched(g, g2, fs.View(), d, end, x, o, reg, pf, pt);
    return Fine;
  }

  lemma ExitingLists(g: Gen, d: Desc, end: End, x: Expr, o: Origin, but: int)
    requires Exiting(g, d, end, x, o, but)
    ensures ValidGen(g) && ListsOk(g, d) && Disjoint(d.fl, d.tl)
  {
    hide Evaluates, Follows;
  }

  lemma AppendedExits(g: Gen, g2: Gen, d: Desc, end: End, reg: nat, needed: bool, jump: bool, pf: int, pt: int)
    requires if needed then LoadsAppended(g, g2, !jump, reg, pf, pt) else g2 == g
    requires needed <==> NeedsValue(g.code, d.tl) || NeedsValue(g.code, d.fl)
    requires if jump then g.jl == [] && end == Exactly(false) && needed else end == InReg(reg)
    requires !needed ==> pf == pt == NO_JUMP
    ensures Appended(Part(g.code, g.jl, d.tl, d.fl, |g.code|, end), g2.code, g2.jl, reg, pf, pt)
    ensures ValidGen(g) ==> ValidGen(g2)
    ensures g2 == g.(code := g2.code, jl := g2.jl, jpc := g2.jpc)
    ensures |g2.code| >= |g.code| && g2.code[..|g.code|] == g.code && -1 <= pf < |g2.code| && -1 <= pt < |g2.code|
  {
  }

  /** In `exp2reg` the jump of a comparison joins the exits for true. */
  method JoinTrueExits(fs: FuncState, e: ExpDesc, ghost x: Expr, ghost o: Origin, ghost but: int) returns (s: Status)
    requires Coded(fs.View(), e.View(), x, o, but) && e.k.VJMP?
    modifies fs`code, e`t, e`tl
    ensures s.Fine? ==> Exiting(fs.View(), e.View(), Exactly(false), x, o, but) && NeedsValue(fs.code, e.tl)
    ensures s.SyntaxError? ==> fs.OverLimit()
    ensures |fs.code| <= |old(fs.code)|
  {
    ghost var g, d := fs.View(), e.View();
    LastJump(g, d, x, o, but);
    hide Evaluates, Follows, TestsPaired, Sound;
    var l :- fs.Concat(e.t, e.k.pc, e.tl, [e.k.pc]);
    ComparisonExits(g, fs.View(), d, x, o, but, true, l);
    JumpNeedsValue(g, fs.code, d);
    e.t := l;
    e.tl := e.tl + [e.k.pc];
    return Fine;
  }

  /** A value in a register, with whatever exits there are. */
  lemma SettledExits(g: Gen, d: Desc, x: Expr, o: Origin, reg: nat)
    requires Coded(g, d, x, o, reg) && d.k == VNONRELOC(reg)
    ensures Exiting(g, d, InReg(reg), x, o, reg)
    ensures d.t == d.f ==> Coded(g, Desc(VNONRELOC(reg), NO_JUMP, NO_JUMP, [], []), x, o, reg)
  {
    hide Evaluates, Follows;
    if d.t == d.f {
      NoExits(g, d);
    }
  }

  /** A comparison has an exit now. */
  lemma ComparisonExit(g: Gen, d: Desc, end: End, x: Expr, o: Origin, but: int)
    requires Exiting(g, d, end, x, o, but) && NeedsValue(g.code, d.tl)
    ensures d.t != d.f
  {
    hide Evaluates, Follows;
    if d.t == d.f {
      NoExits(g, d);
    }
  }

  /** `exp2reg`. */
  method Exp2Reg(fs: FuncState, e: ExpDesc, reg: nat, ghost x: Expr, ghost o: Origin) returns (s: Status)
    requires Coded(fs.View(), e.View(), x, o, -1)
    requires reg < fs.maxstacksize && (reg < fs.nactvar || reg == o.base)
    modifies fs, e
    ensures s.Fine? ==> Coded(fs.View(), e.View(), x, o, reg) && e.View() == Desc(VNONRELOC(reg), NO_JUMP, NO_JUMP, [], [])
    ensures s.Fine? ==> fs.maxstacksize == old(fs.maxstacksize) && fs.freereg == old(fs.freereg)
    ensures s.SyntaxError? ==> fs.OverLimit()
    ensures |fs.code| <= |old(fs.code)| + 5 && fs.freereg <= old(fs.freereg)
  {
    hide Coded, Exiting;
    :- Discharge2Reg(fs, e, reg, x, o);
    ghost var end := InReg(reg);
    if e.k.VJMP? {
      NothingPending(fs.View(), e.View(), x, o, reg);
      :- JoinTrueExits(fs, e, x, o, reg);
      end := Exactly(false);
      ComparisonExit(fs.View(), e.View(), end, x, o, reg);
    } else {
      SettledExits(fs.View(), e.View(), x, o, reg);
    }
    if e.t != e.f {
      SomeExit(fs.View(), e.View(), end, x, o, reg);
      :- PatchExits(fs, e, reg, end, x, o);
    }
    e.f := NO_JUMP;
    e.t := NO_JUMP;
    e.fl := [];
    e.tl := [];
    e.k := VNONRELOC(reg);
    return Fine;
  }

  lemma NothingPending(g: Gen, d: Desc, x: Expr, o: Origin, but: int)
    requires Coded(g, d, x, o, but) && (d.k.VJMP? || d.k.VRELOCABLE?)
    ensures g.jl == []
  {
    hide Evaluates, Follows;
  }

  /** Two disjoint lists start alike only if they are empty: `hasjumps`. */
  lemma NoExits(g: Gen, d: Desc)
    requires ListsOk(g, d) && Disjoint(d.tl, d.fl) && d.t == d.f
    ensures d.t == NO_JUMP && d.tl == d.fl == []
  {
    HeadIn(d.tl);
    HeadIn(d.fl);
  }

  lemma HeadIn(q: seq<nat>)
    ensures q != [] ==> q[0] in q
  {
  }

  lemma SomeExit(g: Gen, d: Desc, end: End, x: Expr, o: Origin, but: int)
    requires Exiting(g, d, end, x, o, but) && d.t != d.f
    ensures |g.code| > |o.code|
  {
    hide Evaluates, Follows;
    if d.tl != [] {
      assert d.tl[0] in d.tl;
    } else {
      assert d.fl[0] in d.fl;
    }
  }

  /** The jump of a comparison is a list of its own. */
  lemma LastJump(g: Gen, d: Desc, x: Expr, o: Origin, but: int)
    requires Coded(g, d, x, o, but) && d.k.VJMP?
    ensures IsList(g.code, d.k.pc, [d.k.pc]) && Disjoint(d.tl, [d.k.pc]) && Disjoint(d.fl, [d.k.pc])
    ensures ComparedFor(g.code, true) == g.code
  {
    hide Evaluates, Follows;
    assert Linked(g.code, [d.k.pc], 0);
  }

  lemma JumpNeedsValue(g: Gen, code: seq<Instr>, d: Desc)
    requires d.k.VJMP? && d.k.pc == |g.code| - 1 && |g.code| >= 2 && g.code[d.k.pc - 1].Compare?
    requires AllJumps(g.code, d.tl) && code == Threaded(g.code, d.tl, [d.k.pc])
    ensures NeedsValue(code, d.tl + [d.k.pc])
  {
    var q := d.tl + [d.k.pc];
    assert q[|d.tl|] == d.k.pc && !CarriesValue(code, q[|d.tl|]) by {
      if d.tl != [] {
        assert d.tl[|d.tl| - 1] in d.tl && g.code[d.tl[|d.tl| - 1]].Jmp?;
      }
    }
  }

  // ------------------------------------------------------- into a register

  /** `freeexp`. */
  method FreeExp(fs: FuncState, e: ExpDesc)
    requires e.k.VNONRELOC? && e.k.reg >= fs.nactvar ==> fs.freereg == e.k.reg + 1
    modifies fs`freereg
    ensures fs.freereg == if e.k.VNONRELOC? && e.k.reg >= fs.nactvar then old(fs.freereg) - 1 else old(fs.freereg)
  {
    if e.k.VNONRELOC? {
      fs.FreeReg(e.k.reg);
    }
  }

  /** The value is in a register, no jump is pending to its code, and no register but a temporary that holds it is taken. */
  ghost predicate Held(g: Gen, d: Desc, x: Expr, o: Origin) {
    Compiled(g, d, x, o) && d.k.VNONRELOC? && d.t == d.f == NO_JUMP && d.tl == d.fl == []
  }

  lemma RegistersInUse(g: Gen, d: Desc, x: Expr, o: Origin)
    requires Compiled(g, d, x, o)
    ensures d.k.VNONRELOC? && d.k.reg >= g.nactvar ==> g.freereg == d.k.reg + 1 && d.k.reg == o.base
    ensures g.nactvar <= o.base <= g.freereg <= g.max < MAXSTACK && g.freereg <= o.base + 1
    ensures ListsOk(g, d) && Disjoint(d.tl, d.fl) && ValidGen(g)
    ensures d.k.VRELOCABLE? ==> g.jl == [] && g.jpc == NO_JUMP && d.k.pc == |g.code| - 1 >= 0
  {
    hide Evaluates, Follows;
  }

  lemma HeldInBase(g: Gen, d: Desc, x: Expr, o: Origin)
    requires Coded(g, d, x, o, o.base) && d == Desc(VNONRELOC(o.base), NO_JUMP, NO_JUMP, [], []) && g.freereg == o.base + 1
    ensures Held(g, d, x, o)
  {
    var p := PartOf(g, d);
    forall env: Env, m: Machine | |m.regs| >= g.max ensures Means(env, p, x, |o.code|, o.base, -1, m) {
      assert Means(env, p, x, |o.code|, o.base, o.base, m);
    }
  }

  /** `luaK_exp2nextreg`. */
  method Exp2NextReg(fs: FuncState, e: ExpDesc, ghost x: Expr, ghost o: Origin) returns (s: Status)
    requires Compiled(fs.View(), e.View(), x, o)
    modifies fs, e
    ensures s.Fine? ==> Held(fs.View(), e.View(), x, o) && e.k == VNONRELOC(o.base) && fs.maxstacksize >= old(fs.maxstacksize)
    ensures s.SyntaxError? ==> fs.OverLimit()
    ensures |fs.code| <= |old(fs.code)| + 6 && fs.freereg <= old(fs.freereg) + 1
  {
    hide Coded, Placed;
    :- DischargeVars(fs, e, x, o);
    ghost var g, d := fs.View(), e.View();
    RegistersInUse(g, d, x, o);
    FreeExp(fs, e);
    :- fs.ReserveRegs(1);
    CodedMore(g, fs.View(), d, x, o, -1, -1);
    :- Exp2Reg(fs, e, fs.freereg - 1, x, o);
    HeldInBase(fs.View(), e.View(), x, o);
    return Fine;
  }

  /** `luaK_exp2anyreg`. */
  method Exp2AnyReg(fs: FuncState, e: ExpDesc, ghost x: Expr, ghost o: Origin) returns (s: Status, reg: nat)
    requires InRegister(e.View()) || Compiled(fs.View(), e.View(), x, o)
    modifies fs, e
    ensures s.Fine? && old(Compiled(fs.View(), e.View(), x, o)) ==> Held(fs.View(), e.View(), x, o)
    ensures s.Fine? ==> e.k == VNONRELOC(reg) && fs.maxstacksize >= old(fs.maxstacksize)
    ensures s.Fine? && InRegister(old(e.View())) ==> fs.View() == old(fs.View()) && e.View() == old(e.View())
    ensures s.SyntaxError? ==> fs.OverLimit()
    ensures |fs.code| <= |old(fs.code)| + 7 && fs.freereg <= old(fs.freereg) + 1
    ensures InRegister(old(e.View())) ==> s.Fine?
  {
    reg := 0;
    :- DischargeVars(fs, e, x, o);
    ghost var compiled := Compiled(fs.View(), e.View(), x, o);
    if compiled {
      RegistersInUse(fs.View(), e.View(), x, o);
    }
    hide Coded, Placed, ListsOk;
    if e.k.VNONRELOC? {
      if e.t == e.f {
        if compiled {
          NoExits(fs.View(), e.View());
        }
        return Fine, e.k.reg;
      }
      if e.k.reg >= fs.nactvar {
        :- Exp2Reg(fs, e, e.k.reg, x, o);
        HeldInBase(fs.View(), e.View(), x, o);
        return Fine, e.k.reg;
      }
    }
    :- Exp2NextReg(fs, e, x, o);
    return Fine, e.k.reg;
  }

  /** `luaK_exp2val`. */
  method Exp2Val(fs: FuncState, e: ExpDesc, ghost x: Expr, ghost o: Origin) returns (s: Status)
    requires InRegister(e.View()) || Compiled(fs.View(), e.View(), x, o)
    modifies fs, e
    ensures s.Fine? && old(Compiled(fs.View(), e.View(), x, o)) ==> Compiled(fs.View(), e.View(), x, o)
    ensures s.Fine? ==> fs.maxstacksize >= old(fs.maxstacksize)
    ensures s.Fine? && InRegister(old(e.View())) ==> fs.View() == old(fs.View()) && e.View() == old(e.View())
    ensures s.SyntaxError? ==> fs.OverLimit()
    ensures |fs.code| <= |old(fs.code)| + 7 && fs.freereg <= old(fs.freereg) + 1
    ensures s.Fine? && old(e.t != e.f) ==> InRegister(e.View())
    ensures s.Fine? && old(e.t == e.f) ==> |fs.code| <= |old(fs.code)| + 1 && fs.freereg == old(fs.freereg)
  {
    hide Coded;
    if e.t != e.f {
      var reg :- Exp2AnyReg(fs, e, x, o);
    } else {
      :- DischargeVars(fs, e, x, o);
    }
    return Fine;
  }

  /** `luaK_exp2RK`, for operands that are not constants. */
  method Exp2RK(fs: FuncState, e: ExpDesc, ghost x: Expr, ghost o: Origin) returns (s: Status, reg: nat)
    requires InRegister(e.View()) || Compiled(fs.View(), e.View(), x, o)
    modifies fs, e
    ensures s.Fine? && old(Compiled(fs.View(), e.View(), x, o)) ==> Held(fs.View(), e.View(), x, o)
    ensures s.Fine? ==> e.k == VNONRELOC(reg) && fs.maxstacksize >= old(fs.maxstacksize)
    ensures s.Fine? && InRegister(old(e.View())) ==> fs.View() == old(fs.View()) && e.View() == old(e.View())
    ensures s.SyntaxError? ==> fs.OverLimit()
    ensures |fs.code| <= |old(fs.code)| + 8 && fs.freereg <= old(fs.freereg) + 1
  {
    hide Coded;
    reg := 0;
    :- Exp2Val(fs, e, x, o);
    s, reg := Exp2AnyReg(fs, e, x, o);
  }

  /** `luaK_storevar` to a local variable: the value ends in its register and no other register in use changes. */
  method StoreLocal(fs: FuncState, e: ExpDesc, local: nat, ghost x: Expr, ghost o: Origin) returns (s: Status)
    requires Compiled(fs.View(), e.View(), x, o) && local < fs.nactvar
    modifies fs, e
    ensures s.Fine? ==> Coded(fs.View(), e.View(), x, o, local) && e.View() == Desc(VNONRELOC(local), NO_JUMP, NO_JUMP, [], [])
    ensures s.Fine? ==> fs.freereg == o.base
    ensures s.SyntaxError? ==> fs.OverLimit()
    ensures |fs.code| <= |old(fs.code)| + 5 && fs.freereg <= old(fs.freereg)
  {
    ghost var g, d := fs.View(), e.View();
    RegistersInUse(g, d, x, o);
    hide Coded, Placed;
    FreeExp(fs, e);
    CodedMore(g, fs.View(), d, x, o, -1, -1);
    :- Exp2Reg(fs, e, local, x, o);
    return Fine;
  }

  // --------------------------------------------------------------- conditions

  /** `discharge2anyreg`. */
  method Discharge2AnyReg(fs: FuncState, e: ExpDesc, ghost x: Expr, ghost o: Origin) returns (s: Status)
    requires Compiled(fs.View(), e.View(), x, o) && (e.k.VRELOCABLE? || e.k.VNONRELOC?)
    modifies fs, e
    ensures s.Fine? ==> Compiled(fs.View(), e.View(), x, o) && e.k.VNONRELOC? && e.View() == old(e.View()).(k := e.k)
    ensures s.Fine? ==> fs.maxstacksize >= old(fs.maxstacksize)
    ensures s.SyntaxError? ==> fs.OverLimit()
    ensures |fs.code| <= |old(fs.code)| + 2 && fs.freereg <= old(fs.freereg) + 1
  {
    if !e.k.VNONRELOC? {
      ghost var g, d := fs.View(), e.View();
      RegistersInUse(g, d, x, o);
      hide Coded;
      :- fs.ReserveRegs(1);
      CodedMore(g, fs.View(), d, x, o, -1, -1);
      :- Discharge2Reg(fs, e, fs.freereg - 1, x, o);
      SettledInBase(fs.View(), e.View(), x, o);
    }
    return Fine;
  }

  lemma SettledInBase(g: Gen, d: Desc, x: Expr, o: Origin)
    requires Coded(g, d, x, o, o.base) && d.k == VNONRELOC(o.base) && g.freereg == o.base + 1
    ensures Compiled(g, d, x, o)
  {
    var p := PartOf(g, d);
    forall env: Env, m: Machine | |m.regs| >= g.max ensures Means(env, p, x, |o.code|, o.base, -1, m) {
      assert Means(env, p, x, |o.code|, o.base, o.base, m);
    }
  }

  /** A test with its jump ends the code of a condition: the jump, at `j`, is taken when the value counts as `cond`. */
  ghost predicate Guarded(g: Gen, d: Desc, x: Expr, o: Origin, cond: bool, j: int) {
    && ValidGen(g) && OriginOk(o, g.nactvar) && ListsOk(g, d)
    && Follows(o.code, o.jl, g.code, g.jl) && g.jl == []
    && |g.code| > |o.code| && j == |g.code| - 1 && IsList(g.code, j, [|g.code| - 1])
    && (forall i :: i in d.tl || i in d.fl ==> i < |g.code| - 1)
    && var p := GuardPart(g, d, cond); Sound(p, |o.code|) && Evaluates(p, x, |o.code|, o.base, -1, g.max)
  }

  function GuardPart(g: Gen, d: Desc, cond: bool): Part
    requires |g.code| > 0
  {
    var n := |g.code|;
    Part(g.code, [], if cond then d.tl + [n - 1] else d.tl, if cond then d.fl else d.fl + [n - 1], n, Truth(!cond))
  }

  /** `g2` is `g` with a test and its jump emitted. */
  ghost predicate TestEmitted(g: Gen, g2: Gen, test: Instr) {
    && g2.code == Emitted(g.code, g.jl, test) + [Jmp(NO_JUMP)]
    && g2.jpc == NO_JUMP && g2.jl == []
    && g2.nactvar == g.nactvar && g2.max == g.max && g2.nactvar <= g2.freereg <= g.max
  }

  lemma TestSetGuards(g: Gen, g2: Gen, d: Desc, x: Expr, o: Origin, cond: bool)
    requires Coded(g, d, x, o, -1) && d.k.VNONRELOC? && TestEmitted(g, g2, TestSet(NO_REG, d.k.reg, cond))
    ensures Guarded(g2, d, x, o, cond, |g.code| + 1)
  {
    var test := TestSet(NO_REG, d.k.reg, cond);
    hide Evaluates, Follows, Sound, Patch;
    assert g2.code[..|g.code|] == Patch(g.code, g.jl, |g.code|, NO_REG, |g.code|);
    Emission(g, d, x, o, -1, g2.code);
    var p := PartOf(g, d).(code := g2.code, jl := []);
    GuardMeans(p, x, |o.code|, o.base, -1, g.max, cond);
    PairedEmit(g.code, g.jl, test);
    GuardedBy(g2, d, x, o, cond, p);
  }

  /** The code without its last instruction, which only computes the value. */
  lemma LastRemoved(g: Gen, d: Desc, x: Expr, o: Origin, code2: seq<Instr>)
    requires Coded(g, d, x, o, -1) && d.k.VRELOCABLE?
    requires |code2| > |g.code| && code2[..|g.code| - 1] == g.code[..|g.code| - 1]
    ensures var p := PartOf(g, d).(code := code2); Sound(p, |o.code|) && Evaluates(p, x, |o.code|, o.base, -1, g.max)
    ensures Follows(o.code, o.jl, code2, []) && ListsOk(g.(code := code2), d)
  {
    var p, n := PartOf(g, d), |g.code| - 1;
    forall i | 0 <= i < n ensures code2[i] == g.code[i] {
      assert code2[i] == code2[..n][i] && g.code[i] == g.code[..n][i];
    }
    RelinkMeans(p, x, |o.code|, o.base, -1, g.max, code2);
    FollowsTail(o, g.code, g.jl, code2, []);
    ListKept(g.code, code2, d.t, d.tl);
    ListKept(g.code, code2, d.f, d.fl);
  }

  /** The test that replaces the instruction NOT. */
  lemma TestGuards(g: Gen, g2: Gen, d: Desc, x: Expr, o: Origin, cond: bool)
    requires Coded(g, d, x, o, -1) && d.k.VRELOCABLE? && g.code[|g.code| - 1].Invert?
    requires TestEmitted(g.(code := g.code[..|g.code| - 1]), g2, TestOnly(g.code[|g.code| - 1].b, !cond))
    ensures Guarded(g2, d, x, o, cond, |g.code|)
  {
    hide Evaluates, Follows, Sound, Patch, Guarded;
    var n := |g.code| - 1;
    assert g2.code == g.code[..n] + [TestOnly(g.code[n].b, !cond), Jmp(NO_JUMP)] by {
      PatchNone(g.code[..n], n, NO_REG, n);
    }
    LastRemoved(g, d, x, o, g2.code);
    LastReplaced(g.code, TestOnly(g.code[n].b, !cond));
    LastGuards(g, g2, d, x, o, cond);
  }

  lemma LastGuards(g: Gen, g2: Gen, d: Desc, x: Expr, o: Origin, cond: bool)
    requires Coded(g, d, x, o, -1) && d.k.VRELOCABLE? && g.code[|g.code| - 1].Invert?
    requires g2.code == g.code[..|g.code| - 1] + [TestOnly(g.code[|g.code| - 1].b, !cond), Jmp(NO_JUMP)]
    requires g2.jpc == NO_JUMP && g2.jl == [] && g2.nactvar == g.nactvar && g2.max == g.max && g2.nactvar <= g2.freereg <= g.max
    requires var p := PartOf(g, d).(code := g2.code); Sound(p, |o.code|) && Evaluates(p, x, |o.code|, o.base, -1, g.max)
    requires Follows(o.code, o.jl, g2.code, []) && ListsOk(g2, d) && TestsPaired(g2.code)
    ensures Guarded(g2, d, x, o, cond, |g.code|)
  {
    hide Evaluates, Follows, TestsPaired, ListsOk, Guarded;
    var p := PartOf(g, d).(code := g2.code);
    GuardMeans(p, x, |o.code|, o.base, -1, g.max, cond);
    hide Sound;
    GuardedBy(g2, d, x, o, cond, p);
  }

  lemma GuardedBy(g2: Gen, d: Desc, x: Expr, o: Origin, cond: bool, p: Part)
    requires TestsPaired(g2.code) && g2.nactvar <= g2.freereg <= g2.max < MAXSTACK && g2.jpc == NO_JUMP && g2.jl == []
    requires OriginOk(o, g2.nactvar) && ListsOk(g2, d) && Follows(o.code, o.jl, g2.code, [])
    requires |g2.code| > |o.code| && g2.code[|g2.code| - 1] == Jmp(NO_JUMP)
    requires p.code == g2.code && p.lim + 2 == |g2.code| && p.tl == d.tl && p.fl == d.fl
    requires forall i :: i in p.tl || i in p.fl ==> i < p.lim
    requires var p2 := WithExit(p, cond, p.lim + 1, Truth(!cond));
             Sound(p2, |o.code|) && Evaluates(p2, x, |o.code|, o.base, -1, g2.max)
    ensures Guarded(g2, d, x, o, cond, |g2.code| - 1)
  {
    hide Evaluates, Sound, Follows, TestsPaired, OriginOk, ListsOk;
    assert Linked(g2.code, [|g2.code| - 1], 0);
    assert WithExit(p, cond, p.lim + 1, Truth(!cond)) == GuardPart(g2, d, cond);
  }

  lemma LastReplaced(code: seq<Instr>, test: Instr)
    requires TestsPaired(code) && code != [] && !code[|code| - 1].Jmp?
    ensures TestsPaired(code[..|code| - 1] + [test, Jmp(NO_JUMP)])
  {
    var n := |code| - 1;
    var c := code[..n] + [test, Jmp(NO_JUMP)];
    forall i | 0 <= i < |c| && IsTest(c[i]) ensures i + 1 < |c| && c[i + 1].Jmp? {
      if i < n {
        assert IsTest(code[i]) && code[i + 1].Jmp?;
      }
    }
  }

  /** The end of `jumponcond`: a test of the register that holds the value. */
  method JumpOnValue(fs: FuncState, e: ExpDesc, cond: bool, ghost x: Expr, ghost o: Origin) returns (s: Status, j: int)
    requires Compiled(fs.View(), e.View(), x, o) && e.k.VNONRELOC?
    modifies fs
    ensures s.Fine? ==> Guarded(fs.View(), e.View(), x, o, cond, j)
    ensures s.Fine? ==> fs.freereg == o.base && fs.maxstacksize == old(fs.maxstacksize)
    ensures s.SyntaxError? ==> fs.OverLimit()
    ensures |fs.code| <= |old(fs.code)| + 2 && fs.freereg <= old(fs.freereg)
  {
    ghost var g, d := fs.View(), e.View();
    RegistersInUse(g, d, x, o);
    hide Coded, Placed, Guarded, IsList, FuncState.OverLimit;
    FreeExp(fs, e);
    s, j := fs.CondJump(TestSet(NO_REG, e.k.reg, cond));
    if s.Fine? {
      TestSetGuards(g, fs.View(), d, x, o, cond);
    }
  }

  /** `jumponcond`. */
  method JumpOnCond(fs: FuncState, e: ExpDesc, cond: bool, ghost x: Expr, ghost o: Origin) returns (s: Status, j: int)
    requires Compiled(fs.View(), e.View(), x, o) && (e.k.VRELOCABLE? || e.k.VNONRELOC?)
    modifies fs, e
    ensures s.Fine? ==> Guarded(fs.View(), e.View(), x, o, cond, j) && e.View() == old(e.View()).(k := e.k)
    ensures s.Fine? ==> fs.freereg == o.base && fs.maxstacksize >= old(fs.maxstacksize)
    ensures s.SyntaxError? ==> fs.OverLimit()
    ensures |fs.code| <= |old(fs.code)| + 4 && fs.freereg <= old(fs.freereg) + 1
  {
    j := NO_JUMP;
    ghost var g, d := fs.View(), e.View();
    RegistersInUse(g, d, x, o);
    hide Coded, Guarded;
    if e.k.VRELOCABLE? {
      var ie := fs.code[e.k.pc];
      if ie.Invert? {
        fs.code := fs.code[..|fs.code| - 1];
        s, j := fs.CondJump(TestOnly(ie.b, !cond));
        if s.Fine? {
          TestGuards(g, fs.View(), d, x, o, cond);
        }
        return;
      }
    }
    :- Discharge2AnyReg(fs, e, x, o);
    s, j := JumpOnValue(fs, e, cond, x, o);
  }

  // ------------------------------------------------------ going on conditions

  /** A condition: control reaches the end when the value counts as `b`, and there are no exits for that. */
  ghost predicate Conditional(g: Gen, d: Desc, x: Expr, o: Origin, b: bool) {
    && Exiting(g, d, Truth(b), x, o, -1) && g.freereg == o.base && |g.code| > |o.code|
    && (if b then d.t == NO_JUMP && d.tl == [] else d.f == NO_JUMP && d.fl == [])
  }

  lemma GuardExits(g: Gen, g2: Gen, d: Desc, x: Expr, o: Origin, cond: bool, j: nat, l: int)
    requires Guarded(g, d, x, o, cond, j)
    requires var q := if cond then d.tl else d.fl;
             AllJumps(g.code, q) && g2 == g.(code := Threaded(g.code, q, [j])) && IsList(g2.code, l, q + [j])
    ensures Exiting(g2, ExitAdded(d, cond, j, l), Truth(!cond), x, o, -1) && g2.jl == []
  {
    ExitThreaded(g, g2, d, GuardPart(g, d, cond), x, o, -1, cond, j, l);
  }

  lemma GuardLists(g: Gen, d: Desc, x: Expr, o: Origin, cond: bool, j: int)
    requires Guarded(g, d, x, o, cond, j)
    ensures var q := if cond then d.tl else d.fl;
            && AllJumps(g.code, q) && IsList(g.code, if cond then d.t else d.f, q) && j >= 0 && IsList(g.code, j, [j]) && Disjoint(q, [j])
            && |g.code| > |o.code|
  {
    hide Evaluates, Follows, Sound;
    var q := if cond then d.tl else d.fl;
    assert forall i :: i in q ==> i != j;
  }

  /** A jump taken when the value counts as `cond` has joined the exits for that; the other exits come here. */
  method OthersHere(fs: FuncState, e: ExpDesc, cond: bool, ghost x: Expr, ghost o: Origin) returns (s: Status)
    requires Exiting(fs.View(), e.View(), Truth(!cond), x, o, -1) && fs.jl == [] && |fs.code| > |o.code| && fs.freereg == o.base
    modifies fs, e
    ensures s.Fine? ==> Conditional(fs.View(), e.View(), x, o, !cond) && fs.maxstacksize == old(fs.maxstacksize)
    ensures s.SyntaxError? ==> fs.OverLimit()
    ensures |fs.code| <= |old(fs.code)| && fs.freereg <= old(fs.freereg)
  {
    ghost var g, d := fs.View(), e.View();
    if cond {
      :- fs.PatchToHere(e.f, e.fl);
      ExitsHere(g, fs.View(), d, x, o, false);
      e.f := NO_JUMP;
      e.fl := [];
    } else {
      :- fs.PatchToHere(e.t, e.tl);
      ExitsHere(g, fs.View(), d, x, o, true);
      e.t := NO_JUMP;
      e.tl := [];
    }
    return Fine;
  }

  lemma ExitsHere(g: Gen, g2: Gen, d: Desc, x: Expr, o: Origin, b: bool)
    requires Exiting(g, d, Truth(b), x, o, -1) && g.jl == [] && |g.code| > |o.code|
    requires g2 == g.(jpc := g2.jpc, jl := if b then d.tl else d.fl) && IsList(g2.code, g2.jpc, g2.jl)
    ensures Exiting(g2, if b then d.(t := NO_JUMP, tl := []) else d.(f := NO_JUMP, fl := []), Truth(b), x, o, -1)
  {
    var p := Part(g.code, g.jl, d.tl, d.fl, |g.code|, Truth(b));
    HereMeans(p, x, |o.code|, o.base, -1, g.max, b);
    assert [] + d.tl == d.tl && [] + d.fl == d.fl;
    FollowsTail(o, g.code, g.jl, g.code, g2.jl);
  }

  /** `invertjump` for `not cond`, and the jump of the comparison joins the exits for `cond`. */
  method ComparisonOn(fs: FuncState, e: ExpDesc, cond: bool, ghost x: Expr, ghost o: Origin) returns (s: Status, l: int)
    requires Compiled(fs.View(), e.View(), x, o) && e.k.VJMP?
    modifies fs`code
    ensures s.Fine? ==> Exiting(fs.View(), ExitAdded(e.View(), cond, e.k.pc, l), Truth(!cond), x, o, -1)
    ensures s.Fine? ==> |fs.code| > |o.code| && fs.jl == [] && fs.freereg == o.base
    ensures s.SyntaxError? ==> fs.OverLimit()
    ensures |fs.code| <= |old(fs.code)|
  {
    l := NO_JUMP;
    ghost var g, d := fs.View(), e.View();
    RegistersInUse(g, d, x, o);
    NothingPending(g, d, x, o, -1);
    LastJump(g, d, x, o, -1);
    ComparedState(g, d, x, o, -1, cond);
    hide Evaluates, Follows, TestsPaired, Sound;
    var pc := e.k.pc;
    if !cond {
      InvertJump(fs, e);
    }
    assert fs.code == ComparedFor(g.code, cond);
    assert IsList(fs.code, pc, [pc]) by {
      assert Linked(fs.code, [pc], 0);
    }
    if cond {
      l :- fs.Concat(e.t, pc, e.tl, [pc]);
    } else {
      l :- fs.Concat(e.f, pc, e.fl, [pc]);
    }
    ComparisonExits(g, fs.View(), d, x, o, -1, cond, l);
    ExactlyTruth(fs.View(), ExitAdded(d, cond, pc, l), x, o, -1, !cond);
    return Fine, l;
  }

  lemma ExactlyTruth(g: Gen, d: Desc, x: Expr, o: Origin, but: int, b: bool)
    requires Exiting(g, d, Exactly(b), x, o, but)
    ensures Exiting(g, d, Truth(b), x, o, but)
  {
    ExactlyIsTruth(Part(g.code, g.jl, d.tl, d.fl, |g.code|, Exactly(b)), x, |o.code|, o.base, but, g.max, b);
  }

  /** `invertjump`. */
  method InvertJump(fs: FuncState, e: ExpDesc)
    requires e.k.VJMP? && 1 <= e.k.pc < |fs.code| && fs.code[e.k.pc - 1].Compare?
    modifies fs`code
    ensures fs.code == old(fs.code)[e.k.pc - 1 := Comparing(old(fs.code)[e.k.pc - 1], false)]
  {
    var i := fs.code[e.k.pc - 1];
    fs.code := fs.code[e.k.pc - 1 := Compare(i.test, !i.cond, i.b, i.c)];
  }

  /** `luaK_goiftrue` (`b`) and `luaK_goiffalse`: control goes on when the value counts as `b`, and leaves otherwise. */
  method GoIf(fs: FuncState, e: ExpDesc, b: bool, ghost x: Expr, ghost o: Origin) returns (s: Status)
    requires Compiled(fs.View(), e.View(), x, o)
    modifies fs, e
    ensures s.Fine? ==> Conditional(fs.View(), e.View(), x, o, b) && fs.maxstacksize >= old(fs.maxstacksize)
    ensures s.SyntaxError? ==> fs.OverLimit()
    ensures |fs.code| <= |old(fs.code)| + 5 && fs.freereg <= old(fs.freereg) + 1
  {
    hide Coded, Conditional, Exiting, Guarded;
    :- DischargeVars(fs, e, x, o);
    if e.k.VJMP? {
      var pc := e.k.pc;
      var l :- ComparisonOn(fs, e, !b, x, o);
      if b {
        e.f := l;
        e.fl := e.fl + [pc];
      } else {
        e.t := l;
        e.tl := e.tl + [pc];
      }
    } else {
      var j :- JumpOnCond(fs, e, !b, x, o);
      :- LastExit(fs, e, !b, j, x, o);
    }
    :- OthersHere(fs, e, !b, x, o);
    return Fine;
  }

  /** The jump of a test joins the exits for `cond`. */
  method LastExit(fs: FuncState, e: ExpDesc, cond: bool, j: int, ghost x: Expr, ghost o: Origin) returns (s: Status)
    requires Guarded(fs.View(), e.View(), x, o, cond, j)
    modifies fs`code, e
    ensures s.Fine? ==> Exiting(fs.View(), e.View(), Truth(!cond), x, o, -1) && fs.jl == [] && |fs.code| > |o.code|
    ensures s.SyntaxError? ==> fs.OverLimit()
    ensures |fs.code| <= |old(fs.code)|
  {
    hide Guarded, Exiting, IsList, Disjoint;
    ghost var g, d := fs.View(), e.View();
    GuardLists(g, d, x, o, cond, j);
    if cond {
      var l :- fs.Concat(e.t, j, e.tl, [j]);
      GuardExits(g, fs.View(), d, x, o, cond, j, l);
      e.t := l;
      e.tl := e.tl + [j];
    } else {
      var l :- fs.Concat(e.f, j, e.fl, [j]);
      GuardExits(g, fs.View(), d, x, o, cond, j, l);
      e.f := l;
      e.fl := e.fl + [j];
    }
    return Fine;
  }

  // ---------------------------------------------------------------------- not

  lemma RemovedState(code: seq<Instr>, q: seq<nat>, head: int, q2: seq<nat>)
    requires TestsPaired(code)
    ensures TestsPaired(ValuesRemoved(code, q))
    ensures IsList(code, head, q2) ==> IsList(ValuesRemoved(code, q), head, q2)
  {
    var c := ValuesRemoved(code, q);
    forall i | 0 <= i < |c| && IsTest(c[i]) ensures i + 1 < |c| && c[i + 1].Jmp? {
      assert IsTest(code[i]);
    }
    if IsList(code, head, q2) {
      forall j | j in q2 ensures c[j] == code[j] {
        assert j < |code| && code[j].Jmp?;
      }
      ListKept(code, c, head, q2);
    }
  }

  lemma RemovedFollows(o: Origin, code: seq<Instr>, jl: seq<nat>, q: seq<nat>)
    requires Follows(o.code, o.jl, code, jl) && |code| > |o.code| && forall j :: j in q ==> j > |o.code|
    ensures Follows(o.code, o.jl, ValuesRemoved(code, q), jl)
  {
    FollowsTail(o, code, jl, ValuesRemoved(code, q), jl);
  }

  /** The value of `x` is in `reg`, or a comparison that was inverted tells it, and the code is about to be that of `not x`. */
  ghost predicate Negating(g: Gen, d: Desc, p: Part, x: Expr, o: Origin) {
    && ValidGen(g) && OriginOk(o, g.nactvar) && ListsOk(g, d) && Follows(o.code, o.jl, g.code, g.jl) && g.jl == []
    && |g.code| > |o.code| && p.code == g.code && p.jl == [] && p.tl == d.tl && p.fl == d.fl
    && Sound(p, |o.code|) && Evaluates(p, x, |o.code|, o.base, -1, g.max)
    && Placed(g, d, o)
    && ((d.k.VRELOCABLE? && p.lim == |g.code| - 1 && p.end.InReg? && g.code[p.lim] == Invert(0, p.end.reg))
        || (d.k.VJMP? && p.lim == |g.code| - 2 && p.end.Tested? && p.end.i.Compare? && g.code[p.lim] == Comparing(p.end.i, false)))
  }

  /** The lists have changed places and no exit carries a value. */
  lemma NegatedCode(g: Gen, g2: Gen, d: Desc, p: Part, x: Expr, o: Origin)
    requires Negating(g, d, p, x, o) && g2 == g.(code := ValuesRemoved(ValuesRemoved(g.code, d.tl), d.fl))
    ensures Coded(g2, Desc(d.k, d.f, d.t, d.fl, d.tl), Not(x), o, -1)
  {
    hide Evaluates, Sound, Follows, ListsOk;
    var d2 := Desc(d.k, d.f, d.t, d.fl, d.tl);
    var end2 := if d.k.VRELOCABLE? then Yield(g.code[p.lim]) else Tested(g.code[p.lim]);
    NotMeans(p, x, |o.code|, o.base, -1, g.max, end2);
    RemovedAt(p, |o.code|, p.lim);
    NegatedState(g, g2, d, p, x, o);
    assert PartOf(g2, d2) == Negated(p, end2);
  }

  lemma NegatedState(g: Gen, g2: Gen, d: Desc, p: Part, x: Expr, o: Origin)
    requires Negating(g, d, p, x, o) && g2 == g.(code := ValuesRemoved(ValuesRemoved(g.code, d.tl), d.fl))
    ensures ValidGen(g2) && ListsOk(g2, Desc(d.k, d.f, d.t, d.fl, d.tl)) && Follows(o.code, o.jl, g2.code, [])
    ensures Placed(g2, d, o) && g2.code[p.lim] == g.code[p.lim]
  {
    var c := ValuesRemoved(g.code, d.tl);
    assert forall j :: j in d.tl || j in d.fl ==> |o.code| < j < p.lim;
    hide Evaluates, Sound;
    RemovedState(g.code, d.tl, d.t, d.tl);
    RemovedState(g.code, d.tl, d.f, d.fl);
    RemovedState(c, d.fl, d.t, d.tl);
    RemovedState(c, d.fl, d.f, d.fl);
    RemovedFollows(o, g.code, [], d.tl);
    RemovedFollows(o, c, [], d.fl);
    assert forall i :: p.lim <= i < |g.code| ==> g2.code[i] == g.code[i];
    assert IsList(g2.code, NO_JUMP, []);
  }

  /** The instruction NOT follows the code that leaves the value in a register. */
  lemma InvertEmitted(g: Gen, g2: Gen, d: Desc, x: Expr, o: Origin)
    requires Coded(g, d, x, o, -1) && d.k.VNONRELOC? && EmittedTo(g, g2, Invert(0, d.k.reg)) && g.nactvar <= g2.freereg <= g.max
    ensures Negating(g2, d.(k := VRELOCABLE(|g.code|)), PartOf(g, d).(code := g2.code, jl := []), x, o)
  {
    hide Evaluates, Follows, Sound;
    Emission(g, d, x, o, -1, g2.code);
    EmittedValid(g, g2, Invert(0, d.k.reg));
  }

  lemma ComparisonInverted(g: Gen, g2: Gen, d: Desc, x: Expr, o: Origin)
    requires Coded(g, d, x, o, -1) && d.k.VJMP? && g2 == g.(code := ComparedFor(g.code, false))
    ensures Negating(g2, d, PartOf(g, d).(code := g2.code), x, o)
  {
    ComparedState(g, d, x, o, -1, false);
    var p := PartOf(g, d);
    RelinkMeans(p, x, |o.code|, o.base, -1, g.max, g2.code);
    hide Evaluates, Follows, Sound;
  }

  /** The first half of `codenot`. */
  method CodeInvert(fs: FuncState, e: ExpDesc, ghost x: Expr, ghost o: Origin) returns (s: Status, ghost p: Part)
    requires Compiled(fs.View(), e.View(), x, o)
    modifies fs, e
    ensures s.Fine? ==> Negating(fs.View(), e.View(), p, x, o) && fs.freereg == o.base
    ensures s.Fine? ==> fs.maxstacksize >= old(fs.maxstacksize)
    ensures s.SyntaxError? ==> fs.OverLimit()
    ensures |fs.code| <= |old(fs.code)| + 4 && fs.freereg <= old(fs.freereg) + 1
  {
    p := Part([], [], [], [], 0, Truth(true));
    hide Coded, Negating;
    :- DischargeVars(fs, e, x, o);
    if e.k.VJMP? {
      p := InvertComparison(fs, e, x, o);
    } else {
      :- Discharge2AnyReg(fs, e, x, o);
      p :- InvertValue(fs, e, x, o);
    }
    return Fine, p;
  }

  /** In `codenot`, a comparison. */
  method InvertComparison(fs: FuncState, e: ExpDesc, ghost x: Expr, ghost o: Origin) returns (ghost p: Part)
    requires Compiled(fs.View(), e.View(), x, o) && e.k.VJMP?
    modifies fs
    ensures Negating(fs.View(), e.View(), p, x, o) && fs.freereg == o.base
    ensures fs.maxstacksize == old(fs.maxstacksize)
    ensures |fs.code| <= |old(fs.code)| && fs.freereg <= old(fs.freereg)
  {
    hide Coded, Negating;
    ghost var g, d := fs.View(), e.View();
    RegistersInUse(g, d, x, o);
    JumpLast(g, d, x, o);
    InvertJump(fs, e);
    ComparisonInverted(g, fs.View(), d, x, o);
    p := PartOf(g, d).(code := fs.code);
  }

  /** In `codenot`, the instruction NOT on the register that holds the value. */
  method InvertValue(fs: FuncState, e: ExpDesc, ghost x: Expr, ghost o: Origin) returns (s: Status, ghost p: Part)
    requires Compiled(fs.View(), e.View(), x, o) && e.k.VNONRELOC?
    modifies fs, e
    ensures s.Fine? ==> Negating(fs.View(), e.View(), p, x, o) && fs.freereg == o.base
    ensures s.Fine? ==> fs.maxstacksize == old(fs.maxstacksize)
    ensures s.SyntaxError? ==> fs.OverLimit()
    ensures |fs.code| <= |old(fs.code)| + 1 && fs.freereg <= old(fs.freereg)
  {
    ghost var g, d := fs.View(), e.View();
    p := PartOf(g, d);
    RegistersInUse(g, d, x, o);
    hide Coded, Negating;
    FreeExp(fs, e);
    :- fs.Code(Invert(0, e.k.reg));
    InvertEmitted(g, fs.View(), d, x, o);
    p := PartOf(g, d).(code := fs.code, jl := []);
    e.k := VRELOCABLE(|fs.code| - 1);
    return Fine, p;
  }

  lemma JumpLast(g: Gen, d: Desc, x: Expr, o: Origin)
    requires Compiled(g, d, x, o) && d.k.VJMP?
    ensures d.k.pc == |g.code| - 1 >= 1 && g.code[d.k.pc - 1].Compare?
  {
    hide Evaluates, Sound, Follows;
  }

  /** `codenot`. */
  method CodeNot(fs: FuncState, e: ExpDesc, ghost x: Expr, ghost o: Origin) returns (s: Status)
    requires Compiled(fs.View(), e.View(), x, o)
    modifies fs, e
    ensures s.Fine? ==> Compiled(fs.View(), e.View(), Not(x), o) && fs.maxstacksize >= old(fs.maxstacksize)
    ensures s.SyntaxError? ==> fs.OverLimit()
    ensures |fs.code| <= |old(fs.code)| + 4 && fs.freereg <= old(fs.freereg) + 1
  {
    hide Sound, Evaluates, Follows, ValuesRemoved;
    ghost var p :- CodeInvert(fs, e, x, o);
    ghost var g, d := fs.View(), e.View();
    e.f, e.t := e.t, e.f;
    e.fl, e.tl := e.tl, e.fl;
    RemovedState(g.code, d.tl, d.f, d.fl);
    :- fs.RemoveValues(e.f, e.fl);
    :- fs.RemoveValues(e.t, e.tl);
    NegatedCode(g, fs.View(), d, p, x, o);
    return Fine;
  }
}
