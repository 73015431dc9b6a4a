/**
What the bytecode checker accepts, stated without its tables and its switch: an instruction passes exactly when what
the machine does with it stays within the function.
*/
module BytecodeAccept {
  import opened BytecodeCheck

  // ----------------------------------------------------------- good instructions

  /** Operands that the machine does not look at are zero. */
  predicate UnusedZero(i: Instruction) {
    match i.op
    case MOVE => i.c == 0
    case LOADNIL => i.c == 0
    case GETUPVAL => i.c == 0
    case SETUPVAL => i.c == 0
    case UNM => i.c == 0
    case NOT => i.c == 0
    case LEN => i.c == 0
    case RETURN => i.c == 0
    case VARARG => i.c == 0
    case TFORLOOP => i.b == 0
    case CLOSE => i.b == 0 && i.c == 0
    case _ => true
  }

  ghost predicate Below(s: set<int>, n: int) {
    forall x :: x in s ==> x < n
  }

  /** The registers and constants of an instruction are there; A names a register even where it is a flag. */
  ghost predicate OperandsThere(pt: Proto, i: Instruction) {
    && i.a < pt.maxstacksize
    && Below(Registers(i), pt.maxstacksize) && Below(Reserved(i), pt.maxstacksize) && Below(Constants(i), |pt.k|)
    && (i.op.GETUPVAL? || i.op.SETUPVAL? ==> i.b < pt.nups)
    && (i.op.GETGLOBAL? || i.op.SETGLOBAL? ==> pt.k[i.Bx()].StringConstant?)
    && UnusedZero(i)
  }

  /** The instruction takes its operands up to the top of the stack. */
  predicate TakesToTop(i: Instruction) {
    match i.op
    case CALL => i.b == 0
    case TAILCALL => i.b == 0
    case RETURN => i.b == 0
    case SETLIST => i.b == 0
    case _ => false
  }

  /** The instruction leaves its results up to the top of the stack. */
  predicate LeavesToTop(i: Instruction) {
    match i.op
    case CALL => i.c == 0
    case TAILCALL => i.c == 0
    case VARARG => i.b == 0
    case _ => false
  }

  /** Whether an instruction may skip the one behind it, depending on a value. */
  predicate IsTest(op: Op) {
    op in {EQ, LT, LE, TEST, TESTSET, TFORLOOP}
  }

  predicate IsJump(op: Op) {
    op in {JMP, FORLOOP, FORPREP}
  }

  /** A jump may go to `pc`: an instruction that is looked at, and behind no count that reads as an extended SETLIST. */
  predicate Lands(pt: Proto, pc: int) {
    LooksAt(pt, pc) && (pc > 0 && !LooksAt(pt, pc - 1) ==> !Extended(pt.code[pc - 1]))
  }

  /** The machine goes on from `pc`, whatever it chooses, to what is meant to be there. */
  ghost predicate GoesWell(pt: Proto, pc: nat)
    requires pc < |pt.code|
  {
    var i := pt.code[pc];
    && (IsJump(i.op) ==> Lands(pt, Step(pt, pc, true).pc))
    && (IsTest(i.op) ==> pc + 2 < |pt.code| && pt.code[pc + 1].op.JMP?)
    && (i.op.LOADBOOL? && i.c != 0 ==> Step(pt, pc, true).pc < |pt.code|)
    && (LeavesToTop(i) ==> pc + 1 < |pt.code| && TakesToTop(pt.code[pc + 1]))
    && (i.op.CLOSURE? ==>
      && i.Bx() < |pt.inner| && pc + CaptureCount(pt, pc) < |pt.code|
      && forall j :: pc < j <= pc + CaptureCount(pt, pc) ==> pt.code[j].op in {GETUPVAL, MOVE})
  }

  /** What makes the instruction at `pc` good, without the checker. */
  ghost predicate Good(pt: Proto, pc: nat)
    requires pc < |pt.code|
  {
    var i := pt.code[pc];
    && !i.op.INVALID? && OperandsThere(pt, i) && GoesWell(pt, pc)
    && (i.op.CONCAT? ==> |Range(i.b, i.c)| >= 2)
    && (i.op.TFORLOOP? ==> i.c >= 1)
    && (i.op.VARARG? ==> pt.isVararg && !pt.needsArg)
  }

  // ------------------------------------------------------------- the same checks

  lemma {:induction false} RangeSize(lo: int, hi: int)
    ensures |Range(lo, hi)| == if lo <= hi then hi - lo + 1 else 0
    decreases hi - lo
  {
    if lo <= hi {
      RangeSize(lo, hi - 1);
      assert hi !in Range(lo, hi - 1);
    }
  }

  /** The test of a jump looks at the instruction before its target alone; that is enough. */
  lemma LandsExactly(pt: Proto, pc: int)
    ensures Lands(pt, pc) <==> 0 <= pc < |pt.code| && (pc > 0 ==> !Extended(pt.code[pc - 1]))
  {
    if 0 <= pc < |pt.code| {
      if pc == 0 || !Extended(pt.code[pc - 1]) {
        LooksBehind(pt, pc);
      } else if LooksAt(pt, pc - 1) {
        CountNotLooked(pt, 0, pc - 1);
      }
    }
  }

  /** A range lies below `n` when its last element does. */
  lemma RangeBelow(lo: int, hi: int, n: int)
    ensures Below(Range(lo, hi), n) <==> (lo <= hi ==> hi < n)
  {
    if lo <= hi {
      assert hi in Range(lo, hi);
    }
  }

  lemma UnionBelow(s: set<int>, t: set<int>, n: int)
    ensures Below(s + t, n) <==> Below(s, n) && Below(t, n)
  {
    if Below(s + t, n) {
      assert forall x :: x in s || x in t ==> x in s + t;
    }
  }

  lemma RKBelow(pt: Proto, x: nat)
    ensures Below(RK(x), pt.maxstacksize) && Below(RKConstant(x), |pt.k|) <==> CheckArgMode(pt, x, ArgK)
  {
    if x >= BITRK {
      assert x - BITRK in RKConstant(x);
    } else {
      assert x in RK(x);
    }
  }

  /** Operands with the mask of a register, or of a register or constant, are among those of the machine. */
  lemma MasksSound(pt: Proto, i: Instruction)
    requires i.op.CONCAT? ==> i.b < i.c
    ensures Modes(i.op).mode.ABC? && Modes(i.op).b.ArgR? ==> i.b in Registers(i) + Reserved(i)
    ensures Modes(i.op).mode.ABC? && Modes(i.op).c.ArgR? ==> i.c in Registers(i)
    ensures Modes(i.op).mode.ABC? && Modes(i.op).b.ArgK? ==> RK(i.b) <= Registers(i) && RKConstant(i.b) <= Constants(i)
    ensures Modes(i.op).mode.ABC? && Modes(i.op).c.ArgK? ==> RK(i.c) <= Registers(i) && RKConstant(i.c) <= Constants(i)
    ensures Modes(i.op).mode.ABx? && Modes(i.op).b.ArgK? ==> i.Bx() in Constants(i)
  {
    hide RK, RKConstant;
  }

  lemma GoodOperands(pt: Proto, pc: nat)
    requires pc < |pt.code| && Good(pt, pc)
    ensures Modes(pt.code[pc].op).mode.AsBx? || CheckOperands(pt, pc)
  {
    hide Registers, Reserved, Constants, GoesWell, RK, RKConstant;
    var i := pt.code[pc];
    RangeSize(i.b, i.c);
    MasksSound(pt, i);
    RKBelow(pt, i.b);
    RKBelow(pt, i.c);
  }

  /** The ranges of registers that an instruction spans, by their last one. */
  lemma Spans(i: Instruction, n: int)
    requires i.a < n
    ensures Below(Reserved(i), n) <==>
      && (i.op.TEST? ==> i.b < n)
      && (i.op.CALL? || i.op.TAILCALL? ==> (i.b != 0 ==> i.a + i.b - 1 < n) && (i.c > 1 ==> i.a + i.c - 2 < n))
      && (i.op.RETURN? ==> i.b > 1 ==> i.a + i.b - 2 < n)
      && (i.op.SETLIST? ==> i.b > 0 ==> i.a + i.b < n)
      && (i.op.VARARG? ==> i.a + i.b - 2 < n)
      && (i.op.TFORLOOP? ==> i.a + 2 + i.c < n)
      && (i.op.FORPREP? ==> i.a + 3 < n)
  {
    hide Range;
    RangeBelow(i.a, i.a + i.b - 1, n);
    RangeBelow(i.a, i.a + i.b - 2, n);
    RangeBelow(i.a, i.a + i.c - 2, n);
    RangeBelow(i.a, i.a + i.b, n);
    RangeBelow(i.a, i.a + 2 + i.c, n);
    UnionBelow(if i.b != 0 then Range(i.a, i.a + i.b - 1) else {}, Range(i.a, i.a + i.c - 2), n);
    assert i.op.FORPREP? ==> i.a + 3 in Reserved(i);
    assert i.op.TEST? ==> i.b in Reserved(i);
  }

  lemma GoodOp(pt: Proto, pc: nat)
    requires pc < |pt.code| && (pc == |pt.code| - 1 ==> pt.code[pc].op.RETURN?) && Good(pt, pc)
    ensures CheckOp(pt, pc)
  {
    hide Reserved, Constants, RK, RKConstant, Range, Lands;
    var i := pt.code[pc];
    RangeSize(i.b, i.c);
    Spans(i, pt.maxstacksize);
    assert i.op.SELF? ==> i.a + 1 in Registers(i);
    assert i.op.FORLOOP? ==> i.a + 3 in Registers(i);
    GlobalsNamed(pt, i);
  }

  lemma GlobalsNamed(pt: Proto, i: Instruction)
    requires Below(Constants(i), |pt.k|)
    ensures i.op.GETGLOBAL? || i.op.SETGLOBAL? ==> i.Bx() < |pt.k|
  {
    assert i.op.GETGLOBAL? || i.op.SETGLOBAL? ==> i.Bx() in Constants(i);
  }

  lemma GoodJumps(pt: Proto, pc: nat)
    requires pc < |pt.code| && Good(pt, pc)
    ensures CheckTest(pt, pc) && (Modes(pt.code[pc].op).mode.AsBx? ==> CheckOperands(pt, pc))
  {
    hide OperandsThere, Lands;
    LandsExactly(pt, pc + 1 + pt.code[pc].SBx());
  }

  lemma GoodPasses(pt: Proto, pc: nat)
    requires pc < |pt.code| && (pc == |pt.code| - 1 ==> pt.code[pc].op.RETURN?) && Good(pt, pc)
    ensures CheckInstruction(pt, pc)
  {
    hide CheckOp, CheckOperands, CheckTest, GoesWell;
    GoodOperands(pt, pc);
    GoodJumps(pt, pc);
    GoodOp(pt, pc);
  }

  lemma PassesOperands(pt: Proto, pc: nat)
    requires pc < |pt.code| && (pc == |pt.code| - 1 ==> pt.code[pc].op.RETURN?) && CheckInstruction(pt, pc)
    ensures OperandsThere(pt, pt.code[pc])
  {
    hide Registers, Reserved, Constants;
    CheckedRegisters(pt, pc);
    CheckedConstants(pt, pc);
    assert Below(Registers(pt.code[pc]) + Reserved(pt.code[pc]), pt.maxstacksize);
    UnionBelow(Registers(pt.code[pc]), Reserved(pt.code[pc]), pt.maxstacksize);
  }

  lemma PassesGoesWell(pt: Proto, pc: nat)
    requires pc < |pt.code| && (pc == |pt.code| - 1 ==> pt.code[pc].op.RETURN?) && CheckInstruction(pt, pc)
    ensures GoesWell(pt, pc)
  {
    hide Lands;
    LandsExactly(pt, pc + 1 + pt.code[pc].SBx());
  }

  /** An instruction passes the checks exactly when it is good. */
  lemma AcceptsExactly(pt: Proto, pc: nat)
    requires pc < |pt.code| && (pc == |pt.code| - 1 ==> pt.code[pc].op.RETURN?)
    ensures CheckInstruction(pt, pc) <==> Good(pt, pc)
  {
    if Good(pt, pc) {
      GoodPasses(pt, pc);
    }
    if CheckInstruction(pt, pc) {
      hide OperandsThere, GoesWell;
      RangeSize(pt.code[pc].b, pt.code[pc].c);
      PassesOperands(pt, pc);
      PassesGoesWell(pt, pc);
    }
  }

  // -------------------------------------------------------------------- good code

  lemma {:induction false} ChecksExactly(pt: Proto, from: nat)
    requires pt.code != [] && pt.code[|pt.code| - 1].op.RETURN?
    ensures ChecksFrom(pt, from) <==>
      forall pc :: 0 <= pc < |pt.code| && LooksFrom(pt, from, pc) ==> CheckInstruction(pt, pc)
    decreases |pt.code| - from
  {
    hide CheckInstruction;
    if from < |pt.code| {
      var next := Following(pt, from);
      ChecksExactly(pt, next);
      assert LooksFrom(pt, from, from);
      forall pc | 0 <= pc < |pt.code| ensures LooksFrom(pt, from, pc) <==> pc == from || LooksFrom(pt, next, pc) {
      }
    }
  }

  /** Code is accepted exactly when every instruction that is looked at is good, and no other is in the way. */
  lemma AcceptsCode(pt: Proto)
    ensures CheckCode(pt) <==>
      && pt.code != [] && Precheck(pt)
      && forall pc :: 0 <= pc < |pt.code| && LooksAt(pt, pc) ==> Good(pt, pc)
  {
    if pt.code != [] && Precheck(pt) {
      ChecksExactly(pt, 0);
      forall pc | 0 <= pc < |pt.code| ensures CheckInstruction(pt, pc) <==> Good(pt, pc) {
        AcceptsExactly(pt, pc);
      }
    }
  }

  /** A jump over an extended SETLIST and its count. */
  function JumpOverCount(count: Instruction): Proto {
    Proto([Instruction(JMP, 0, 256, 1), Instruction(SETLIST, 0, 1, 0), count, Instruction(RETURN, 0, 1, 0)],
      [], [], 0, 0, 0, 2, false, false)
  }

  /**
  The jump goes to an instruction that is looked at, over a count that is not. Whether the code is accepted still
  depends on the count: it is refused when its bits read as a SETLIST whose C is zero, as those of 546 do.
  */
  lemma CountDecides(count: Instruction)
    ensures var pt := JumpOverCount(count);
      && Step(pt, 0, true) == Goes(3) && LooksAt(pt, 3) && !LooksAt(pt, 2)
      && (CheckCode(pt) <==> !Extended(count))
  {
    var pt := JumpOverCount(count);
    assert LooksFrom(pt, 3, 3) && LooksFrom(pt, 1, 3) && LooksFrom(pt, 0, 1);
    CountNotLooked(pt, 0, 1);
    CountChecked(count);
  }

  lemma CountChecked(count: Instruction)
    ensures CheckInstruction(JumpOverCount(count), 0) <==> !Extended(count)
    ensures ChecksFrom(JumpOverCount(count), 1)
  {
    var pt := JumpOverCount(count);
    assert pt.code[0].SBx() == 2;
    assert CheckInstruction(pt, 3) && ChecksFrom(pt, 4);
    assert CheckInstruction(pt, 1) && ChecksFrom(pt, 3);
  }

  // ------------------------------------------------------------ what is changed

  /** The registers that the machine may write; a call may write all from its function on. */
  predicate MayWrite(i: Instruction, reg: nat) {
    match i.op
    case LOADNIL => i.a <= reg <= i.b || reg == i.b
    case SELF => reg == i.a || reg == i.a + 1
    case CALL => reg >= i.a
    case TAILCALL => reg >= i.a
    case TFORLOOP => reg >= i.a + 2
    case FORLOOP => reg == i.a || reg == i.a + 3
    case VARARG => reg >= i.a && (i.b == 0 || reg < i.a + i.b - 1)
    case SETGLOBAL => false
    case SETUPVAL => false
    case SETTABLE => false
    case JMP => false
    case EQ => false
    case LT => false
    case LE => false
    case TEST => false
    case RETURN => false
    case SETLIST => false
    case CLOSE => false
    case INVALID => false
    case _ => reg == i.a
  }

  /**
  The search reports the registers that an instruction may write, except the visible index of a numeric loop, what a
  vararg writes above A, and B of an OP_LOADNIL with B below A. Of those that none writes it reports A alone: that of
  OP_TEST, of a vararg without values, and of such an OP_LOADNIL.
  */
  lemma ReportsWritten(i: Instruction, reg: nat)
    ensures Changes(i, reg) && !MayWrite(i, reg) <==>
      reg == i.a && (i.op.TEST? || (i.op.VARARG? && i.b == 1) || (i.op.LOADNIL? && i.b < i.a))
    ensures MayWrite(i, reg) && !Changes(i, reg) <==>
      || (i.op.FORLOOP? && reg == i.a + 3)
      || (i.op.VARARG? && reg > i.a && (i.b == 0 || reg < i.a + i.b - 1))
      || (i.op.LOADNIL? && reg == i.b < i.a)
  {
  }
}
