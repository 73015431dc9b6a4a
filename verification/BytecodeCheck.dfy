/**
The bytecode checker `luaG_checkcode` and what it protects: the steps of
`luaV_execute` stay in the code array and within the registers, constants and
upvalues of the function.
*/
module BytecodeCheck {

  datatype Op =
    | MOVE | LOADK | LOADBOOL | LOADNIL | GETUPVAL | GETGLOBAL | GETTABLE | SETGLOBAL | SETUPVAL | SETTABLE
    | NEWTABLE | SELF | ADD | SUB | MUL | DIV | MOD | POW | UNM | NOT | LEN | CONCAT | JMP | EQ | LT | LE
    | TEST | TESTSET | CALL | TAILCALL | RETURN | FORLOOP | FORPREP | TFORLOOP | SETLIST | CLOSE | CLOSURE | VARARG
    | INVALID

  /** An instruction: six bits of opcode, of which 38 values are opcodes, eight of A and nine each of B and C. */
  datatype Instruction = Instruction(op: Op, a: nat, b: nat, c: nat) {
    predicate Fits() {
      a < 256 && b < 512 && c < 512
    }
    /** `GETARG_Bx`. */
    function Bx(): nat {
      b * 512 + c
    }
    /** `GETARG_sBx`. */
    function SBx(): int {
      Bx() - MAXARG_SBX
    }
  }

  const MAXARG_SBX: int := 131071
  const MAXSTACK: nat := 250
  const NO_REG: nat := 255
  const BITRK: nat := 256

  /** A constant as far as the checker looks at it. */
  datatype Constant = StringConstant | OtherConstant

  /** `Proto`: of the nested functions only the numbers of upvalues matter. */
  datatype Proto = Proto(
    code: seq<Instruction>,
    k: seq<Constant>,
    inner: seq<nat>,
    nups: nat,
    sizeupvalues: nat,
    sizelineinfo: nat,
    maxstacksize: nat,
    isVararg: bool,
    needsArg: bool)

  ghost predicate WellSized(pt: Proto) {
    pt.code != [] && forall i :: 0 <= i < |pt.code| ==> pt.code[i].Fits()
  }

  // -------------------------------------------------------- instruction modes

  datatype Mode = ABC | ABx | AsBx

  datatype ArgMask = ArgN | ArgU | ArgR | ArgK

  /** `luaP_opmodes`: whether the instruction is a test, whether it sets register A, its operands and its format. */
  datatype OpModes = OpModes(test: bool, setsA: bool, b: ArgMask, c: ArgMask, mode: Mode)

  function Modes(op: Op): OpModes {
    match op
    case MOVE => OpModes(false, true, ArgR, ArgN, ABC)
    case LOADK => OpModes(false, true, ArgK, ArgN, ABx)
    case LOADBOOL => OpModes(false, true, ArgU, ArgU, ABC)
    case LOADNIL => OpModes(false, true, ArgR, ArgN, ABC)
    case GETUPVAL => OpModes(false, true, ArgU, ArgN, ABC)
    case GETGLOBAL => OpModes(false, true, ArgK, ArgN, ABx)
    case GETTABLE => OpModes(false, true, ArgR, ArgK, ABC)
    case SETGLOBAL => OpModes(false, false, ArgK, ArgN, ABx)
    case SETUPVAL => OpModes(false, false, ArgU, ArgN, ABC)
    case SETTABLE => OpModes(false, false, ArgK, ArgK, ABC)
    case NEWTABLE => OpModes(false, true, ArgU, ArgU, ABC)
    case SELF => OpModes(false, true, ArgR, ArgK, ABC)
    case ADD => OpModes(false, true, ArgK, ArgK, ABC)
    case SUB => OpModes(false, true, ArgK, ArgK, ABC)
    case MUL => OpModes(false, true, ArgK, ArgK, ABC)
    case DIV => OpModes(false, true, ArgK, ArgK, ABC)
    case MOD => OpModes(false, true, ArgK, ArgK, ABC)
    case POW => OpModes(false, true, ArgK, ArgK, ABC)
    case UNM => OpModes(false, true, ArgR, ArgN, ABC)
    case NOT => OpModes(false, true, ArgR, ArgN, ABC)
    case LEN => OpModes(false, true, ArgR, ArgN, ABC)
    case CONCAT => OpModes(false, true, ArgR, ArgR, ABC)
    case JMP => OpModes(false, false, ArgR, ArgN, AsBx)
    case EQ => OpModes(true, false, ArgK, ArgK, ABC)
    case LT => OpModes(true, false, ArgK, ArgK, ABC)
    case LE => OpModes(true, false, ArgK, ArgK, ABC)
    case TEST => OpModes(true, true, ArgR, ArgU, ABC)
    case TESTSET => OpModes(true, true, ArgR, ArgU, ABC)
    case CALL => OpModes(false, true, ArgU, ArgU, ABC)
    case TAILCALL => OpModes(false, true, ArgU, ArgU, ABC)
    case RETURN => OpModes(false, false, ArgU, ArgN, ABC)
    case FORLOOP => OpModes(false, true, ArgR, ArgN, AsBx)
    case FORPREP => OpModes(false, true, ArgR, ArgN, AsBx)
    case TFORLOOP => OpModes(true, false, ArgN, ArgU, ABC)
    case SETLIST => OpModes(false, false, ArgU, ArgU, ABC)
    case CLOSE => OpModes(false, false, ArgN, ArgN, ABC)
    case CLOSURE => OpModes(false, true, ArgU, ArgN, ABx)
    case VARARG => OpModes(false, true, ArgU, ArgN, ABC)
    case INVALID => OpModes(false, false, ArgN, ArgN, ABC)
  }

  // ------------------------------------------------------------- the checks

  /** `precheck`. */
  predicate Precheck(pt: Proto)
    requires pt.code != []
  {
    && pt.maxstacksize <= MAXSTACK
    && pt.sizeupvalues <= pt.nups
    && (pt.sizelineinfo == |pt.code| || pt.sizelineinfo == 0)
    && pt.code[|pt.code| - 1].op.RETURN?
  }

  predicate IsReg(pt: Proto, r: int) {
    r < pt.maxstacksize
  }

  /** `checkArgMode`. */
  predicate CheckArgMode(pt: Proto, r: nat, mask: ArgMask) {
    match mask
    case ArgN => r == 0
    case ArgU => true
    case ArgR => IsReg(pt, r)
    case ArgK => if r >= BITRK then r - BITRK < |pt.k| else IsReg(pt, r)
  }

  /** `luaG_checkopenop`: what may follow an instruction that leaves a variable number of values. */
  predicate CheckOpenOp(i: Instruction) {
    (i.op.CALL? || i.op.TAILCALL? || i.op.RETURN? || i.op.SETLIST?) && i.b == 0
  }

  /** The operands, by the format of the instruction. */
  predicate CheckOperands(pt: Proto, pc: nat)
    requires pc < |pt.code|
  {
    var i := pt.code[pc];
    var m := Modes(i.op);
    match m.mode
    case ABC => CheckArgMode(pt, i.b, m.b) && CheckArgMode(pt, i.c, m.c)
    case ABx => m.b.ArgK? ==> i.Bx() < |pt.k|
    case AsBx => m.b.ArgR? ==>
      var dest := pc + 1 + i.SBx();
      && 0 <= dest < |pt.code|
      && (dest > 0 ==> !(pt.code[dest - 1].op.SETLIST? && pt.code[dest - 1].c == 0))
  }

  /** The test bit: a jump must follow, and something behind it. */
  predicate CheckTest(pt: Proto, pc: nat)
    requires pc < |pt.code|
  {
    Modes(pt.code[pc].op).test ==> pc + 2 < |pt.code| && pt.code[pc + 1].op.JMP?
  }

  /** The switch over the opcodes. */
  predicate CheckOp(pt: Proto, pc: nat)
    requires pc < |pt.code| && (pc == |pt.code| - 1 ==> pt.code[pc].op.RETURN?)
  {
    var i := pt.code[pc];
    match i.op
    case LOADBOOL => i.c == 0 || pc + 2 < |pt.code|
    case GETUPVAL => i.b < pt.nups
    case SETUPVAL => i.b < pt.nups
    case GETGLOBAL => i.Bx() < |pt.k| && pt.k[i.Bx()].StringConstant?
    case SETGLOBAL => i.Bx() < |pt.k| && pt.k[i.Bx()].StringConstant?
    case SELF => IsReg(pt, i.a + 1)
    case CONCAT => i.b < i.c
    case TFORLOOP => i.c >= 1 && IsReg(pt, i.a + 2 + i.c)
    case FORLOOP => IsReg(pt, i.a + 3)
    case FORPREP => IsReg(pt, i.a + 3)
    case CALL => CheckCall(pt, pc)
    case TAILCALL => CheckCall(pt, pc)
    case RETURN => i.b > 1 ==> IsReg(pt, i.a + i.b - 2)
    case SETLIST => i.b > 0 ==> IsReg(pt, i.a + i.b)
    case CLOSURE => i.Bx() < |pt.inner| && pc + pt.inner[i.Bx()] < |pt.code| && CheckCaptures(pt, pc, pt.inner[i.Bx()])
    case VARARG => pt.isVararg && !pt.needsArg && (i.b == 0 ==> CheckOpenOp(pt.code[pc + 1])) && IsReg(pt,
        i.a + i.b - 2)
    case _ => true
  }

  predicate CheckCall(pt: Proto, pc: nat)
    requires pc + 1 < |pt.code|
  {
    var i := pt.code[pc];
    && (i.b != 0 ==> IsReg(pt, i.a + i.b - 1))
    && (if i.c == 0 then CheckOpenOp(pt.code[pc + 1]) else i.c != 1 ==> IsReg(pt, i.a + i.c - 2))
  }

  /** The instructions behind OP_CLOSURE that say where its upvalues are. */
  predicate CheckCaptures(pt: Proto, pc: nat, nup: nat)
    requires pc + nup < |pt.code|
  {
    forall j :: pc < j <= pc + nup ==> IsCapture(pt.code[j])
  }

  predicate IsCapture(i: Instruction) {
    i.op.GETUPVAL? || i.op.MOVE?
  }

  /** All that is checked of one instruction. */
  predicate CheckInstruction(pt: Proto, pc: nat)
    requires pc < |pt.code| && (pc == |pt.code| - 1 ==> pt.code[pc].op.RETURN?)
  {
    && !pt.code[pc].op.INVALID? && IsReg(pt, pt.code[pc].a)
    && CheckOperands(pt, pc) && CheckTest(pt, pc) && CheckOp(pt, pc)
  }

  predicate Extended(i: Instruction) {
    i.op.SETLIST? && i.c == 0
  }

  /** The instructions that a full check looks at: those behind an extended SETLIST are taken for its count. */
  predicate ChecksFrom(pt: Proto, pc: nat)
    requires pt.code != [] && pt.code[|pt.code| - 1].op.RETURN?
    decreases |pt.code| - pc
  {
    pc >= |pt.code| || (CheckInstruction(pt, pc) && ChecksFrom(pt, if Extended(pt.code[pc]) then pc + 2 else pc + 1))
  }

  // ---------------------------------------------------------------- symbexec

  /** The inner loop over the captures of OP_CLOSURE. */
  method Captures(pt: Proto, pc: nat, nup0: nat) returns (ok: bool)
    requires pc + nup0 < |pt.code|
    ensures ok == CheckCaptures(pt, pc, nup0)
  {
    var nup: nat := nup0;
    while nup > 0
      invariant nup <= nup0 && forall j :: pc + nup < j <= pc + nup0 ==> IsCapture(pt.code[j])
    {
      if !IsCapture(pt.code[pc + nup]) {
        return false;
      }
      nup := nup - 1;
    }
    return true;
  }

  /** Whether the instruction changes register `reg`. */
  function Changes(i: Instruction, reg: nat): bool {
    || (Modes(i.op).setsA && i.a == reg)
    || (i.op.LOADNIL? && i.a <= reg <= i.b)
    || (i.op.SELF? && reg == i.a + 1)
    || (i.op.TFORLOOP? && reg >= i.a + 2)
    || ((i.op.CALL? || i.op.TAILCALL?) && reg >= i.a)
  }

  /** How far an instruction moves the search for `reg`: forward jumps are taken, if they do not pass `lastpc`. */
  function Moves(i: Instruction, pc: nat, lastpc: nat, reg: nat): (n: int)
    ensures n >= 1
  {
    if i.op.JMP? || i.op.FORLOOP? || i.op.FORPREP? then
      if reg != NO_REG && pc < pc + 1 + i.SBx() <= lastpc then i.SBx() + 1 else 1
    else if Extended(i) then 2
    else 1
  }

  /** A search for `reg` that stands at `from` comes to position `pc`. */
  ghost predicate Visits(pt: Proto, from: nat, lastpc: nat, reg: nat, pc: nat)
    requires lastpc <= |pt.code|
    decreases lastpc - from
  {
    from < lastpc && (from == pc || Visits(pt, from + Moves(pt.code[from], from, lastpc, reg), lastpc, reg, pc))
  }

  /** Position `pc` is visited and its instruction changes `reg`. */
  ghost predicate ChangedAt(pt: Proto, lastpc: nat, reg: nat, pc: nat)
    requires lastpc <= |pt.code|
  {
    Visits(pt, 0, lastpc, reg, pc) && pc < |pt.code| && Changes(pt.code[pc], reg)
  }

  /** The last of the visited instructions that change `reg`, or the final return if there is none. */
  ghost predicate LastChange(pt: Proto, lastpc: nat, reg: nat, last: nat)
    requires lastpc <= |pt.code|
  {
    || (ChangedAt(pt, lastpc, reg, last) && forall p: nat :: ChangedAt(pt, lastpc, reg, p) ==> p <= last)
    || (last == |pt.code| - 1 && forall p: nat :: !ChangedAt(pt, lastpc, reg, p))
  }

  lemma {:induction false} VisitsOn(pt: Proto, from: nat, lastpc: nat, reg: nat, pc: nat)
    requires lastpc <= |pt.code| && Visits(pt, from, lastpc, reg, pc)
    ensures from <= pc < lastpc
    ensures var n := pc + Moves(pt.code[pc], pc, lastpc, reg); n < lastpc ==> Visits(pt, from, lastpc, reg, n)
    decreases lastpc - from
  {
    if from != pc {
      VisitsOn(pt, from + Moves(pt.code[from], from, lastpc, reg), lastpc, reg, pc);
    }
  }

  /** What the search has still to see of the instructions that change `reg`. */
  ghost predicate SeenUpTo(pt: Proto, lastpc: nat, reg: nat, pc: nat, last: nat)
    requires lastpc <= |pt.code|
  {
    && (pc < lastpc ==> Visits(pt, 0, lastpc, reg, pc))
    && var found := last < pc && ChangedAt(pt, lastpc, reg, last);
    && (last == |pt.code| - 1 || found)
    && forall p: nat :: ChangedAt(pt, lastpc, reg, p) ==> Visits(pt, pc, lastpc, reg, p) || (found && p <= last)
  }

  /** One turn of the search. */
  lemma SeenNext(pt: Proto, lastpc: nat, reg: nat, pc: nat, last: nat)
    requires pc < lastpc <= |pt.code| && SeenUpTo(pt, lastpc, reg, pc, last)
    ensures SeenUpTo(pt, lastpc, reg, pc + Moves(pt.code[pc], pc, lastpc, reg),
      if Changes(pt.code[pc], reg) then pc else last)
  {
    VisitsOn(pt, 0, lastpc, reg, pc);
  }

  lemma SeenAll(pt: Proto, lastpc: nat, reg: nat, pc: nat, last: nat)
    requires lastpc <= |pt.code| && lastpc <= pc && SeenUpTo(pt, lastpc, reg, pc, last)
    ensures LastChange(pt, lastpc, reg, last)
  {
  }

  lemma SeenNone(pt: Proto, lastpc: nat, reg: nat)
    requires lastpc <= |pt.code| && pt.code != []
    ensures SeenUpTo(pt, lastpc, reg, 0, |pt.code| - 1)
  {
  }

  /**
  `symbexec`: the last instruction before `lastpc` that changed `reg`, or none if a check fails. A full check, with
  no register, succeeds exactly when every instruction passes.
  */
  method SymbExec(pt: Proto, lastpc: nat, reg: nat) returns (ok: bool, last: nat)
    requires WellSized(pt) && lastpc <= |pt.code|
    ensures last < |pt.code|
    ensures ok ==> Precheck(pt) && LastChange(pt, lastpc, reg, last)
    ensures reg == NO_REG && lastpc == |pt.code| ==> (ok <==> Precheck(pt) && ChecksFrom(pt, 0))
  {
    hide SeenUpTo, LastChange, CheckInstruction, Changes;
    last := |pt.code| - 1;
    SeenNone(pt, lastpc, reg);
    if !Precheck(pt) {
      return false, last;
    }
    var pc := 0;
    while pc < lastpc
      invariant last < |pt.code| && SeenUpTo(pt, lastpc, reg, pc, last)
      invariant reg == NO_REG && lastpc == |pt.code| ==> ChecksFrom(pt, 0) == ChecksFrom(pt, pc)
      decreases |pt.code| + 1 - pc
    {
      var i := pt.code[pc];
      var ok1 := CheckOne(pt, pc);
      if !ok1 {
        return false, last;
      }
      SeenNext(pt, lastpc, reg, pc, last);
      if Changes(i, reg) {
        last := pc;
      }
      pc := pc + Moves(i, pc, lastpc, reg);
    }
    SeenAll(pt, lastpc, reg, pc, last);
    return true, last;
  }

  /** The checks of one turn of the loop. */
  method CheckOne(pt: Proto, pc: nat) returns (ok: bool)
    requires pc < |pt.code| && pt.code[|pt.code| - 1].op.RETURN?
    ensures ok == CheckInstruction(pt, pc)
  {
    var i := pt.code[pc];
    if i.op.INVALID? || !IsReg(pt, i.a) || !CheckOperands(pt, pc) || !CheckTest(pt, pc) {
      return false;
    }
    if i.op.CLOSURE? {
      if i.Bx() >= |pt.inner| || pc + pt.inner[i.Bx()] >= |pt.code| {
        return false;
      }
      ok := Captures(pt, pc, pt.inner[i.Bx()]);
    } else {
      ok := CheckOp(pt, pc);
    }
  }

  /** `luaG_checkcode`. */
  predicate CheckCode(pt: Proto) {
    pt.code != [] && Precheck(pt) && ChecksFrom(pt, 0)
  }

  // ------------------------------------------------------- what the machine does

  /** Where control goes after an instruction; `choice` stands for what the operands decide. */
  datatype Flow = Goes(pc: int) | Ends

  /** The program counter of `luaV_execute` after the instruction at `pc`, as long as it reads its code only. */
  function Step(pt: Proto, pc: nat, choice: bool): Flow
    requires pc < |pt.code|
  {
    var i := pt.code[pc];
    match i.op
    case LOADBOOL => Goes(if i.c != 0 then pc + 2 else pc + 1)
    case JMP => Goes(pc + 1 + i.SBx())
    case EQ => Skip(pt, pc, choice)
    case LT => Skip(pt, pc, choice)
    case LE => Skip(pt, pc, choice)
    case TEST => Skip(pt, pc, choice)
    case TESTSET => Skip(pt, pc, choice)
    case TFORLOOP => Skip(pt, pc, choice)
    case FORLOOP => Goes(if choice then pc + 1 + i.SBx() else pc + 1)
    case FORPREP => Goes(pc + 1 + i.SBx())
    case TAILCALL => if choice then Goes(pc + 1) else Ends
    case RETURN => Ends
    case SETLIST => Goes(if i.c == 0 then pc + 2 else pc + 1)
    case CLOSURE => Goes(pc + 1 + (if i.Bx() < |pt.inner| then pt.inner[i.Bx()] else 0))
    case _ => Goes(pc + 1)
  }

  /** A test: the jump behind it is taken, or skipped. */
  function Skip(pt: Proto, pc: nat, choice: bool): Flow
    requires pc < |pt.code|
  {
    if choice && pc + 1 < |pt.code| then Goes(pc + 2 + pt.code[pc + 1].SBx()) else Goes(pc + 2)
  }

  /** Where a run stands after the choices `q`: in the code, ended, or outside of it. */
  datatype Place = In(pc: nat) | Ended | Outside

  function RunFrom(pt: Proto, pc: int, q: seq<bool>): Place
    decreases |q|
  {
    if pc < 0 || pc >= |pt.code| then Outside
    else if q == [] then In(pc)
    else
      match Step(pt, pc, q[0])
      case Ends => Ended
      case Goes(pc2) => RunFrom(pt, pc2, q[1..])
  }

  // ------------------------------------------------- what the check looks at

  /** Where a check goes on after position `pc`. */
  function Following(pt: Proto, pc: nat): nat
    requires pc < |pt.code|
  {
    if Extended(pt.code[pc]) then pc + 2 else pc + 1
  }

  /** A check that begins at `from` looks at position `pc` as an instruction. */
  predicate LooksFrom(pt: Proto, from: nat, pc: nat)
    decreases |pt.code| - from
  {
    from < |pt.code| && (from == pc || LooksFrom(pt, Following(pt, from), pc))
  }

  predicate LooksAt(pt: Proto, pc: int) {
    0 <= pc < |pt.code| && LooksFrom(pt, 0, pc)
  }

  lemma {:induction false} LooksOn(pt: Proto, from: nat, pc: nat)
    requires LooksFrom(pt, from, pc)
    ensures from <= pc < |pt.code| && (Following(pt, pc) < |pt.code| ==> LooksFrom(pt, from, Following(pt, pc)))
    decreases |pt.code| - from
  {
    if from != pc {
      LooksOn(pt, Following(pt, from), pc);
    }
  }

  lemma {:induction false} LookedChecked(pt: Proto, from: nat, pc: nat)
    requires pt.code != [] && pt.code[|pt.code| - 1].op.RETURN? && ChecksFrom(pt, from) && LooksFrom(pt, from, pc)
    ensures pc < |pt.code| && CheckInstruction(pt, pc)
    decreases |pt.code| - from
  {
    if from != pc {
      LookedChecked(pt, Following(pt, from), pc);
    }
  }

  /** What is not looked at is the count of an extended SETLIST. */
  lemma {:induction false} NotLookedIsCount(pt: Proto, from: nat, pc: nat)
    requires from <= pc < |pt.code| && !LooksFrom(pt, from, pc)
    ensures pc > from && LooksFrom(pt, from, pc - 1) && Extended(pt.code[pc - 1])
    decreases |pt.code| - from
  {
    if Following(pt, from) <= pc {
      NotLookedIsCount(pt, Following(pt, from), pc);
    }
  }

  /** The count of an extended SETLIST is not looked at. */
  lemma {:induction false} CountNotLooked(pt: Proto, from: nat, pc: nat)
    requires pc < |pt.code| && LooksFrom(pt, from, pc) && Extended(pt.code[pc])
    ensures !LooksFrom(pt, from, pc + 1)
    decreases |pt.code| - from
  {
    LooksOn(pt, from, pc);
    if from == pc {
      LooksNotBack(pt, pc + 2, pc + 1);
    } else {
      CountNotLooked(pt, Following(pt, from), pc);
    }
  }

  lemma {:induction false} LooksNotBack(pt: Proto, from: nat, pc: nat)
    requires pc < from
    ensures !LooksFrom(pt, from, pc)
    decreases |pt.code| - from
  {
    if from < |pt.code| {
      LooksNotBack(pt, Following(pt, from), pc);
    }
  }

  // -------------------------------------------------------------- soundness

  /**
  What the check leaves to be seen of an instruction it looks at: behind the count of an extended SETLIST there is
  an instruction, and no OP_LOADBOOL skips an extended SETLIST.
  */
  predicate HarmlessAt(pt: Proto, pc: nat)
    requires pc < |pt.code|
  {
    var i := pt.code[pc];
    && (Extended(i) ==> pc + 2 < |pt.code|)
    && (i.op.LOADBOOL? && i.c != 0 && pc + 1 < |pt.code| ==> !Extended(pt.code[pc + 1]))
  }

  ghost predicate Harmless(pt: Proto) {
    forall pc :: 0 <= pc < |pt.code| && LooksAt(pt, pc) ==> HarmlessAt(pt, pc)
  }

  /** The machine goes from `pc` to an instruction that the check looks at, or ends. */
  predicate StepLooked(pt: Proto, pc: nat, choice: bool)
    requires pc < |pt.code|
  {
    match Step(pt, pc, choice)
    case Ends => true
    case Goes(pc2) => LooksAt(pt, pc2)
  }

  ghost predicate StepsLooked(pt: Proto) {
    forall pc, choice :: 0 <= pc < |pt.code| && LooksAt(pt, pc) ==> StepLooked(pt, pc, choice)
  }

  /** A position is looked at unless an extended SETLIST stands before it. */
  lemma LooksBehind(pt: Proto, pc: nat)
    requires pc < |pt.code| && (pc > 0 ==> !Extended(pt.code[pc - 1]))
    ensures LooksAt(pt, pc)
  {
    if !LooksFrom(pt, 0, pc) {
      NotLookedIsCount(pt, 0, pc);
    }
  }

  lemma LookedAt(pt: Proto, pc: nat)
    requires CheckCode(pt) && pc < |pt.code| && LooksAt(pt, pc)
    ensures CheckInstruction(pt, pc) && (pc == |pt.code| - 1 ==> pt.code[pc].op.RETURN?)
  {
    LookedChecked(pt, 0, pc);
  }

  /** The target of a checked jump. */
  lemma JumpLooked(pt: Proto, pc: nat)
    requires pc < |pt.code| && Modes(pt.code[pc].op).mode.AsBx? && CheckOperands(pt, pc)
    ensures LooksAt(pt, pc + 1 + pt.code[pc].SBx())
  {
    LooksBehind(pt, pc + 1 + pt.code[pc].SBx());
  }

  /** A test: its jump is looked at, and so is what is behind it. */
  lemma SkipLooked(pt: Proto, pc: nat, choice: bool)
    requires CheckCode(pt) && pc < |pt.code| && LooksAt(pt, pc) && CheckInstruction(pt, pc)
    requires Modes(pt.code[pc].op).test
    ensures StepLooked(pt, pc, choice)
  {
    LooksBehind(pt, pc + 1);
    LooksBehind(pt, pc + 2);
    LookedAt(pt, pc + 1);
    JumpLooked(pt, pc + 1);
  }

  /** Behind the captures of a closure there is another instruction: the last one is no capture. */
  lemma ClosureStays(pt: Proto, pc: nat)
    requires pt.code != [] && Precheck(pt) && pc < |pt.code| && pt.code[pc].op.CLOSURE? && CheckInstruction(pt, pc)
    ensures pc + 1 + pt.inner[pt.code[pc].Bx()] < |pt.code|
    ensures LooksAt(pt, pc + 1 + pt.inner[pt.code[pc].Bx()])
  {
    var nup := pt.inner[pt.code[pc].Bx()];
    assert nup > 0 ==> IsCapture(pt.code[pc + nup]);
    LooksBehind(pt, pc + 1 + nup);
  }

  /** From an instruction that is looked at and harmless the machine goes to another one that is looked at. */
  lemma StepStays(pt: Proto, pc: nat, choice: bool)
    requires CheckCode(pt) && pc < |pt.code| && LooksAt(pt, pc) && HarmlessAt(pt, pc)
    ensures StepLooked(pt, pc, choice)
  {
    LookedAt(pt, pc);
    var i := pt.code[pc];
    if Modes(i.op).test {
      SkipLooked(pt, pc, choice);
    } else {
      StepStaysPlain(pt, pc, choice);
    }
  }

  lemma StepStaysPlain(pt: Proto, pc: nat, choice: bool)
    requires CheckCode(pt) && pc < |pt.code| && LooksAt(pt, pc) && HarmlessAt(pt, pc)
    requires CheckInstruction(pt, pc) && (pc == |pt.code| - 1 ==> pt.code[pc].op.RETURN?) && !Modes(pt.code[pc].op).test
    ensures StepLooked(pt, pc, choice)
  {
    var i := pt.code[pc];
    if Extended(i) {
      LooksOn(pt, 0, pc);
    } else if !i.op.RETURN? {
      LooksBehind(pt, pc + 1);
      if Modes(i.op).mode.AsBx? {
        JumpLooked(pt, pc);
      } else if i.op.CLOSURE? {
        ClosureStays(pt, pc);
      } else if i.op.LOADBOOL? && i.c != 0 {
        LooksBehind(pt, pc + 2);
      }
    }
  }

  /** An instruction that is not harmless sends the machine out of the code, or to a count. */
  lemma StepAstray(pt: Proto, pc: nat, choice: bool)
    requires CheckCode(pt) && pc < |pt.code| && LooksAt(pt, pc) && !HarmlessAt(pt, pc)
    ensures !StepLooked(pt, pc, choice)
  {
    if !Extended(pt.code[pc]) {
      LooksOn(pt, 0, pc);
      CountNotLooked(pt, 0, pc + 1);
    }
  }

  /**
  When the check suffices: the machine stays among the instructions of accepted code that were looked at if and only
  if all of these are harmless.
  */
  lemma SoundExactly(pt: Proto)
    requires CheckCode(pt)
    ensures StepsLooked(pt) <==> Harmless(pt)
  {
    if Harmless(pt) {
      forall pc, choice | 0 <= pc < |pt.code| && LooksAt(pt, pc) ensures StepLooked(pt, pc, choice) {
        assert HarmlessAt(pt, pc);
        StepStays(pt, pc, choice);
      }
    } else {
      var pc :| 0 <= pc < |pt.code| && LooksAt(pt, pc) && !HarmlessAt(pt, pc);
      StepAstray(pt, pc, true);
    }
  }

  /** Accepted harmless code is never left, and no count is executed, whatever the operands decide. */
  lemma {:induction false} CheckedRunStays(pt: Proto, pc: nat, q: seq<bool>)
    requires CheckCode(pt) && Harmless(pt) && LooksAt(pt, pc)
    ensures match RunFrom(pt, pc, q) case In(pc2) => LooksAt(pt, pc2) case Ended => true case Outside => false
    decreases |q|
  {
    if q != [] {
      StepStays(pt, pc, q[0]);
      match Step(pt, pc, q[0]) {
        case Ends =>
        case Goes(pc2) => CheckedRunStays(pt, pc2, q[1..]);
      }
    }
  }

  /** Code without an extended SETLIST is harmless, and the check looks at all of it. */
  lemma NoExtendedHarmless(pt: Proto)
    requires forall i :: 0 <= i < |pt.code| ==> !Extended(pt.code[i])
    ensures Harmless(pt) && forall pc :: 0 <= pc < |pt.code| ==> LooksAt(pt, pc)
  {
    forall pc | 0 <= pc < |pt.code| ensures LooksAt(pt, pc) {
      LooksBehind(pt, pc);
    }
  }

  // ------------------------------------------------------ registers and constants

  /** The registers that the machine reads or writes, for the instructions with a fixed number of operands. */
  function Registers(i: Instruction): set<int> {
    match i.op
    case MOVE => {i.a, i.b}
    case LOADK => {i.a}
    case LOADBOOL => {i.a}
    case LOADNIL => {i.b as int} + Range(i.a, i.b)
    case GETUPVAL => {i.a}
    case GETGLOBAL => {i.a}
    case GETTABLE => {i.a, i.b} + RK(i.c)
    case SETGLOBAL => {i.a}
    case SETUPVAL => {i.a}
    case SETTABLE => {i.a} + RK(i.b) + RK(i.c)
    case NEWTABLE => {i.a}
    case SELF => {i.a, i.a + 1, i.b} + RK(i.c)
    case ADD => {i.a} + RK(i.b) + RK(i.c)
    case SUB => {i.a} + RK(i.b) + RK(i.c)
    case MUL => {i.a} + RK(i.b) + RK(i.c)
    case DIV => {i.a} + RK(i.b) + RK(i.c)
    case MOD => {i.a} + RK(i.b) + RK(i.c)
    case POW => {i.a} + RK(i.b) + RK(i.c)
    case UNM => {i.a, i.b}
    case NOT => {i.a, i.b}
    case LEN => {i.a, i.b}
    case CONCAT => {i.a as int} + Range(i.b, i.c)
    case EQ => RK(i.b) + RK(i.c)
    case LT => RK(i.b) + RK(i.c)
    case LE => RK(i.b) + RK(i.c)
    case TEST => {i.a}
    case TESTSET => {i.a, i.b}
    case FORLOOP => {i.a, i.a + 1, i.a + 2, i.a + 3}
    case FORPREP => {i.a, i.a + 1, i.a + 2}
    case CLOSE => {i.a}
    case CLOSURE => {i.a}
    case _ => {}
  }

  function Range(lo: int, hi: int): (s: set<int>)
    ensures forall r :: r in s <==> lo <= r <= hi
    decreases hi - lo
  {
    if lo > hi then {} else {hi} + Range(lo, hi - 1)
  }

  /** The registers that the operands of the other instructions span: what a call, a return or a loop needs. */
  function Reserved(i: Instruction): set<int> {
    match i.op
    case TEST => {i.b}
    case CALL => (if i.b != 0 then Range(i.a, i.a + i.b - 1) else {}) + Range(i.a, i.a + i.c - 2)
    case TAILCALL => (if i.b != 0 then Range(i.a, i.a + i.b - 1) else {}) + Range(i.a, i.a + i.c - 2)
    case RETURN => Range(i.a, i.a + i.b - 2)
    case SETLIST => if i.b != 0 then Range(i.a, i.a + i.b) else {}
    case VARARG => Range(i.a, i.a + i.b - 2)
    case TFORLOOP => Range(i.a, i.a + 2 + i.c)
    case FORPREP => {i.a + 3}
    case _ => {}
  }

  function RK(x: nat): set<int> {
    if x >= BITRK then {} else {x as int}
  }

  function RKConstant(x: nat): set<int> {
    if x >= BITRK then {x - BITRK} else {}
  }

  /** The constants that the machine reads. */
  function Constants(i: Instruction): set<int> {
    match i.op
    case LOADK => {i.Bx() as int}
    case GETGLOBAL => {i.Bx() as int}
    case SETGLOBAL => {i.Bx() as int}
    case GETTABLE => RKConstant(i.c)
    case SELF => RKConstant(i.c)
    case SETTABLE => RKConstant(i.b) + RKConstant(i.c)
    case ADD => RKConstant(i.b) + RKConstant(i.c)
    case SUB => RKConstant(i.b) + RKConstant(i.c)
    case MUL => RKConstant(i.b) + RKConstant(i.c)
    case DIV => RKConstant(i.b) + RKConstant(i.c)
    case MOD => RKConstant(i.b) + RKConstant(i.c)
    case POW => RKConstant(i.b) + RKConstant(i.c)
    case EQ => RKConstant(i.b) + RKConstant(i.c)
    case LT => RKConstant(i.b) + RKConstant(i.c)
    case LE => RKConstant(i.b) + RKConstant(i.c)
    case _ => {}
  }

  /** The instructions behind `pc` that its OP_CLOSURE reads as captures, or none. */
  function CaptureCount(pt: Proto, pc: nat): nat
    requires pc < |pt.code|
  {
    var i := pt.code[pc];
    if i.op.CLOSURE? && i.Bx() < |pt.inner| then pt.inner[i.Bx()] else 0
  }

  /** The operands of capture `i`: a register of the function, or one of its upvalues. */
  ghost predicate CaptureOk(pt: Proto, i: Instruction) {
    (i.op.MOVE? && i.b < pt.maxstacksize) || (i.op.GETUPVAL? && i.b < pt.nups)
  }

  /**
  What an instruction of checked code touches is there: its registers, also those that a call, a return, a list or a
  loop spans, its constants, its upvalue, its nested function
  and, behind OP_CLOSURE, what the captures name. The names of globals are strings.
  */
  lemma CheckedTouches(pt: Proto, pc: nat)
    requires CheckCode(pt) && pc < |pt.code| && LooksAt(pt, pc)
    ensures var i := pt.code[pc];
      && (forall r :: r in Registers(i) + Reserved(i) ==> 0 <= r < pt.maxstacksize)
      && (forall x :: x in Constants(i) ==> 0 <= x < |pt.k|)
      && (i.op.GETUPVAL? || i.op.SETUPVAL? ==> i.b < pt.nups)
      && (i.op.GETGLOBAL? || i.op.SETGLOBAL? ==> pt.k[i.Bx()].StringConstant?)
      && (i.op.CLOSURE? ==> i.Bx() < |pt.inner|)
    ensures pc + CaptureCount(pt, pc) < |pt.code|
    ensures forall j :: pc < j <= pc + CaptureCount(pt, pc) ==> CaptureOk(pt, pt.code[j])
  {
    LookedAt(pt, pc);
    CheckedRegisters(pt, pc);
    CheckedConstants(pt, pc);
    forall j | pc < j <= pc + CaptureCount(pt, pc) ensures CaptureOk(pt, pt.code[j]) {
      assert IsCapture(pt.code[j]) && (j - 1 > pc ==> IsCapture(pt.code[j - 1]));
      LooksBehind(pt, j);
      LookedAt(pt, j);
    }
  }

  lemma CheckedRegisters(pt: Proto, pc: nat)
    requires pc < |pt.code| && (pc == |pt.code| - 1 ==> pt.code[pc].op.RETURN?) && CheckInstruction(pt, pc)
    ensures forall r :: r in Registers(pt.code[pc]) + Reserved(pt.code[pc]) ==> 0 <= r < pt.maxstacksize
  {
  }

  lemma CheckedConstants(pt: Proto, pc: nat)
    requires pc < |pt.code| && (pc == |pt.code| - 1 ==> pt.code[pc].op.RETURN?) && CheckInstruction(pt, pc)
    ensures forall x :: x in Constants(pt.code[pc]) ==> 0 <= x < |pt.k|
  {
  }

  /** A code that is accepted and left: nothing is behind the count. */
  lemma ExtendedEscapes() returns (pt: Proto)
    ensures CheckCode(pt) && !Harmless(pt) && RunFrom(pt, 0, [true]).Outside?
  {
    pt := Proto([Instruction(SETLIST, 0, 1, 0), Instruction(RETURN, 0, 1, 0)], [], [], 0, 0, 0, 2, false, false);
    assert ChecksFrom(pt, 2);
    assert CheckInstruction(pt, 0);
    assert Step(pt, 0, true) == Goes(2);
    assert RunFrom(pt, 2, []).Outside?;
    assert [true][1..] == [];
    assert LooksAt(pt, 0) && !HarmlessAt(pt, 0);
  }

  /** A code that is accepted and executes a count, here one that is no instruction at all. */
  lemma CountExecuted() returns (pt: Proto)
    ensures CheckCode(pt) && !Harmless(pt)
    ensures RunFrom(pt, 0, [true]) == In(2) && pt.code[2].op.INVALID?
  {
    pt := Proto(
      [Instruction(LOADBOOL, 0, 1, 1), Instruction(SETLIST, 0, 1, 0), Instruction(INVALID, 0, 0, 1),
        Instruction(RETURN, 0, 1, 0)],
      [], [], 0, 0, 0, 2, false, false);
    assert ChecksFrom(pt, 4);
    assert ChecksFrom(pt, 3);
    assert ChecksFrom(pt, 1);
    assert Step(pt, 0, true) == Goes(2);
    assert RunFrom(pt, 2, []) == In(2);
    assert [true][1..] == [];
    assert LooksAt(pt, 0) && !HarmlessAt(pt, 0);
  }
}
