/**
The expressions of the manual as a grammar with one level for each rank of
operators, and the proof that `subexpr` reads exactly these, each with the
tree that the grammar gives it.
*/
module Grammar {
  import opened Precedence

  // ------------------------------------------------------------------ the grammar

  const UNARY_RANK: nat := 7
  const OPERAND: nat := 9

  /** The ranks of the manual: or, and, comparisons, `..`, `+ -`, `* / %`, unary operators, `^`. */
  function Rank(op: BinOpr): nat {
    match op
    case OR => 1
    case AND => 2
    case LT => 3 case GT => 3 case LE => 3 case GE => 3 case NE => 3 case EQ => 3
    case CONCAT => 4
    case ADD => 5 case SUB => 5
    case MUL => 6 case DIV => 6 case MOD => 6
    case POW => 8
  }

  /** `..` and `^` group to the right. */
  predicate RightAssociative(op: BinOpr) {
    op in {CONCAT, POW}
  }

  /** The lowest rank of an operator in the left operand of `op`. */
  function LeftOperand(op: BinOpr): nat {
    if RightAssociative(op) then Rank(op) + 1 else Rank(op)
  }

  /** In the right operand; there a unary operator may stand behind `^` as well. */
  function RightOperand(op: BinOpr): nat {
    if op.POW? then UNARY_RANK else if RightAssociative(op) then Rank(op) else Rank(op) + 1
  }

  /** The grammar derives `q`, with tree `t`, from the expressions of rank `level` or higher. */
  ghost predicate Derives(q: seq<Token>, t: Tree, level: nat)
    decreases |q|, if level < OPERAND then OPERAND - level else 0
  {
    if level >= OPERAND then
      || (t.Leaf? && q == [Operand(t.n)])
      || (|q| >= 2 && q[0].LeftPar? && q[|q| - 1].RightPar? && Derives(q[1..|q| - 1], t, 1))
    else
      || Derives(q, t, level + 1)
      || match t
         case Leaf(_) => false
         case Unary(u, x) => level == UNARY_RANK && q != [] && q[0] == UnToken(u) && Derives(q[1..], x, UNARY_RANK)
         case Binary(op, x, y) => level == Rank(op) && exists i :: 0 <= i < |q| && DerivesAround(q, op, x, y, i)
  }

  ghost predicate DerivesAround(q: seq<Token>, op: BinOpr, x: Tree, y: Tree, i: nat)
    requires i < |q|
    decreases |q|, 0
  {
    q[i] == BinToken(op) && Derives(q[..i], x, LeftOperand(op)) && Derives(q[i + 1..], y, RightOperand(op))
  }

  lemma {:induction false} DerivesLower(q: seq<Token>, t: Tree, level: nat, lower: nat)
    requires Derives(q, t, level) && lower <= level
    ensures Derives(q, t, lower)
    decreases level - lower
  {
    if lower < level {
      DerivesLower(q, t, level, lower + 1);
    }
  }

  // -------------------------------------------------- derived texts are written texts

  /** The level whose operators may all stand behind one of right priority `limit`. */
  function LimitLevel(limit: nat): nat {
    match limit
    case 0 => 1 case 1 => 2 case 2 => 3 case 3 => 4 case 4 => 4 case 5 => 5 case 6 => 6
    case _ => 7
  }

  /** The level whose operators may all stand before one of left priority `follow`. */
  function FollowLevel(follow: nat): nat {
    match follow
    case 0 => 1 case 1 => 1 case 2 => 2 case 3 => 3 case 4 => 4 case 5 => 5 case 6 => 5
    case 7 => 6 case 8 => 7 case 9 => 8
    case _ => OPERAND
  }

  function Level(limit: nat, follow: nat): nat {
    if LimitLevel(limit) > FollowLevel(follow) then LimitLevel(limit) else FollowLevel(follow)
  }

  /** The right priority before an expression is at most 9, and 9 is not the left priority of any operator behind it. */
  predicate Neighbours(limit: nat, follow: nat) {
    limit <= 9 && follow != 9
  }

  /** The operators of a level are those that the priorities let through there; so it is for their operands. */
  lemma OperatorLevel(op: BinOpr, limit: nat, follow: nat)
    requires Neighbours(limit, follow)
    ensures LeftPriority(op) > limit && follow <= RightPriority(op) <==> Level(limit, follow) <= Rank(op)
    ensures Level(limit, follow) <= Rank(op) ==> Level(limit, LeftPriority(op)) == LeftOperand(op)
    ensures Level(limit, follow) <= Rank(op) ==> Level(RightPriority(op), follow) == RightOperand(op)
    ensures RightPriority(op) <= 9 && LeftPriority(op) != 9 && Rank(op) < OPERAND
  {
  }

  lemma UnaryLevel(limit: nat, follow: nat)
    requires Neighbours(limit, follow)
    ensures follow <= UNARY_PRIORITY <==> Level(limit, follow) <= UNARY_RANK
    ensures follow <= UNARY_PRIORITY ==> Level(UNARY_PRIORITY, follow) == UNARY_RANK
  {
  }

  lemma {:induction false} DerivedIsWritten(q: seq<Token>, t: Tree, level: nat, limit: nat, follow: nat)
    requires Neighbours(limit, follow) && Derives(q, t, level) && level >= Level(limit, follow)
    ensures Writes(q, t, limit, follow)
    decreases |q|, if level < OPERAND then OPERAND - level else 0
  {
    if level >= OPERAND {
      if !(t.Leaf? && q == [Operand(t.n)]) {
        DerivedIsWritten(q[1..|q| - 1], t, 1, 0, 0);
      }
    } else if Derives(q, t, level + 1) {
      DerivedIsWritten(q, t, level + 1, limit, follow);
    } else {
      match t {
        case Unary(u, x) =>
          UnaryLevel(limit, follow);
          DerivedIsWritten(q[1..], x, UNARY_RANK, UNARY_PRIORITY, follow);
        case Binary(op, x, y) =>
          var i :| 0 <= i < |q| && DerivesAround(q, op, x, y, i);
          DerivedAround(q, op, x, y, i, limit, follow);
      }
    }
  }

  lemma {:induction false} DerivedAround(q: seq<Token>, op: BinOpr, x: Tree, y: Tree, i: nat, limit: nat, follow: nat)
    requires Neighbours(limit, follow) && i < |q| && DerivesAround(q, op, x, y, i) && Rank(op) >= Level(limit, follow)
    ensures Writes(q, Binary(op, x, y), limit, follow)
    decreases |q|, 0
  {
    hide Level, LeftOperand, RightOperand, Derives, LeftPriority, RightPriority, Rank;
    OperatorLevel(op, limit, follow);
    DerivedIsWritten(q[..i], x, LeftOperand(op), limit, LeftPriority(op));
    DerivedIsWritten(q[i + 1..], y, RightOperand(op), RightPriority(op), follow);
    assert WritesAround(q, op, x, y, limit, follow, i);
  }

  // -------------------------------------------------- written texts are derived texts

  lemma {:induction false} WrittenIsDerived(q: seq<Token>, t: Tree, limit: nat, follow: nat)
    requires Neighbours(limit, follow) && Writes(q, t, limit, follow)
    ensures Derives(q, t, Level(limit, follow))
    decreases |q|
  {
    if |q| >= 2 && q[0].LeftPar? && q[|q| - 1].RightPar? && Writes(q[1..|q| - 1], t, 0, 0) {
      WrittenIsDerived(q[1..|q| - 1], t, 0, 0);
      DerivesLower(q, t, OPERAND, Level(limit, follow));
    } else {
      match t {
        case Leaf(n) =>
          DerivesLower(q, t, OPERAND, Level(limit, follow));
        case Unary(u, x) =>
          UnaryLevel(limit, follow);
          WrittenIsDerived(q[1..], x, UNARY_PRIORITY, follow);
          DerivesLower(q, t, UNARY_RANK, Level(limit, follow));
        case Binary(op, x, y) =>
          var i :| 0 <= i < |q| && WritesAround(q, op, x, y, limit, follow, i);
          WrittenAround(q, op, x, y, i, limit, follow);
      }
    }
  }

  lemma {:induction false} WrittenAround(q: seq<Token>, op: BinOpr, x: Tree, y: Tree, i: nat, limit: nat, follow: nat)
    requires Neighbours(limit, follow) && i < |q| && WritesAround(q, op, x, y, limit, follow, i)
    requires LeftPriority(op) > limit && follow <= RightPriority(op)
    ensures Derives(q, Binary(op, x, y), Level(limit, follow))
    decreases |q|, 0
  {
    hide Level, LeftOperand, RightOperand, Writes, LeftPriority, RightPriority, Rank;
    OperatorLevel(op, limit, follow);
    WrittenIsDerived(q[..i], x, limit, LeftPriority(op));
    WrittenIsDerived(q[i + 1..], y, RightPriority(op), follow);
    assert DerivesAround(q, op, x, y, i);
    assert Derives(q, Binary(op, x, y), Rank(op));
    DerivesLower(q, Binary(op, x, y), Rank(op), Level(limit, follow));
  }

  // --------------------------------------------------------- the parser's language

  /** The parser reads all of `q` as `t` exactly when the grammar derives it with that tree, if levels suffice. */
  lemma ReadsDerived(q: seq<Token>, t: Tree, room: nat)
    requires room > |q|
    ensures ReadExpr(q, 0, room) == Ok(t, []) <==> Derives(q, t, 1)
  {
    assert q + [] == q;
    if Derives(q, t, 1) {
      DerivedIsWritten(q, t, 1, 0, 0);
      ReadsWritten(q, t, [], 0, 0, room);
      RoomSuffices(q, 0, room);
    } else if ReadExpr(q, 0, room) == Ok(t, []) {
      AcceptsWritten(q, 0, room);
      assert q[..|q|] == q;
      WrittenIsDerived(q, t, 0, 0);
    }
  }

  // ------------------------------------------------------- two operators in a row

  /** In `x first y second z` the operand in the middle belongs to `first`. */
  predicate GroupsLeft(first: BinOpr, second: BinOpr) {
    Rank(first) > Rank(second) || (Rank(first) == Rank(second) && !RightAssociative(first))
  }

  lemma {:induction false} DerivesBinary(left: seq<Token>, op: BinOpr, right: seq<Token>, x: Tree, y: Tree, level: nat)
    requires Derives(left, x, LeftOperand(op)) && Derives(right, y, RightOperand(op)) && level <= Rank(op)
    ensures Derives(left + [BinToken(op)] + right, Binary(op, x, y), level)
  {
    var q := left + [BinToken(op)] + right;
    assert q[..|left|] == left && q[|left| + 1..] == right;
    assert DerivesAround(q, op, x, y, |left|);
    DerivesLower(q, Binary(op, x, y), Rank(op), level);
  }

  lemma {:induction false} DerivesUnary(u: UnOpr, q: seq<Token>, x: Tree, level: nat)
    requires Derives(q, x, UNARY_RANK) && level <= UNARY_RANK
    ensures Derives([UnToken(u)] + q, Unary(u, x), level)
  {
    assert ([UnToken(u)] + q)[1..] == q;
    DerivesLower([UnToken(u)] + q, Unary(u, x), UNARY_RANK, level);
  }

  lemma ReadsLeft(qx: seq<Token>, first: BinOpr, qy: seq<Token>, second: BinOpr, qz: seq<Token>,
                  x: Tree, y: Tree, z: Tree, room: nat)
    requires Derives(qx, x, OPERAND) && Derives(qy, y, OPERAND) && Derives(qz, z, OPERAND)
    requires room > |qx| + |qy| + |qz| + 2 && LeftOperand(second) <= Rank(first)
    ensures ReadExpr(qx + [BinToken(first)] + qy + [BinToken(second)] + qz, 0, room)
         == Ok(Binary(second, Binary(first, x, y), z), [])
  {
    hide Derives, ReadExpr, BinToken;
    DerivesLower(qx, x, OPERAND, LeftOperand(first));
    DerivesLower(qy, y, OPERAND, RightOperand(first));
    DerivesLower(qz, z, OPERAND, RightOperand(second));
    DerivesBinary(qx, first, qy, x, y, LeftOperand(second));
    var left := qx + [BinToken(first)] + qy;
    DerivesBinary(left, second, qz, Binary(first, x, y), z, 1);
    ReadsDerived(left + [BinToken(second)] + qz, Binary(second, Binary(first, x, y), z), room);
  }

  lemma ReadsRight(qx: seq<Token>, first: BinOpr, qy: seq<Token>, second: BinOpr, qz: seq<Token>,
                   x: Tree, y: Tree, z: Tree, room: nat)
    requires Derives(qx, x, OPERAND) && Derives(qy, y, OPERAND) && Derives(qz, z, OPERAND)
    requires room > |qx| + |qy| + |qz| + 2 && RightOperand(first) <= Rank(second)
    ensures ReadExpr(qx + [BinToken(first)] + qy + [BinToken(second)] + qz, 0, room)
         == Ok(Binary(first, x, Binary(second, y, z)), [])
  {
    hide Derives, ReadExpr, BinToken;
    DerivesLower(qx, x, OPERAND, LeftOperand(first));
    DerivesLower(qy, y, OPERAND, LeftOperand(second));
    DerivesLower(qz, z, OPERAND, RightOperand(second));
    DerivesBinary(qy, second, qz, y, z, RightOperand(first));
    var right := qy + [BinToken(second)] + qz;
    DerivesBinary(qx, first, right, x, Binary(second, y, z), 1);
    assert qx + [BinToken(first)] + qy + [BinToken(second)] + qz == qx + [BinToken(first)] + right;
    ReadsDerived(qx + [BinToken(first)] + right, Binary(first, x, Binary(second, y, z)), room);
  }

  /** How two binary operators are read between operands, which are names or in parentheses. */
  lemma TwoOperators(qx: seq<Token>, first: BinOpr, qy: seq<Token>, second: BinOpr, qz: seq<Token>,
                     x: Tree, y: Tree, z: Tree, room: nat)
    requires Derives(qx, x, OPERAND) && Derives(qy, y, OPERAND) && Derives(qz, z, OPERAND)
    requires room > |qx| + |qy| + |qz| + 2
    ensures ReadExpr(qx + [BinToken(first)] + qy + [BinToken(second)] + qz, 0, room) ==
      Ok(if GroupsLeft(first, second) then Binary(second, Binary(first, x, y), z)
         else Binary(first, x, Binary(second, y, z)), [])
  {
    hide Derives, ReadExpr, BinToken;
    if GroupsLeft(first, second) {
      ReadsLeft(qx, first, qy, second, qz, x, y, z, room);
    } else {
      ReadsRight(qx, first, qy, second, qz, x, y, z, room);
    }
  }

  /** A unary operator before a binary one takes its operand alone, except that `^` comes first. */
  lemma UnaryBefore(u: UnOpr, qx: seq<Token>, op: BinOpr, qy: seq<Token>, x: Tree, y: Tree, room: nat)
    requires Derives(qx, x, OPERAND) && Derives(qy, y, OPERAND) && room > |qx| + |qy| + 2
    ensures ReadExpr([UnToken(u)] + qx + [BinToken(op)] + qy, 0, room) ==
      Ok(if op.POW? then Unary(u, Binary(op, x, y)) else Binary(op, Unary(u, x), y), [])
  {
    hide Derives, ReadExpr, BinToken, UnToken;
    var q := [UnToken(u)] + qx + [BinToken(op)] + qy;
    DerivesLower(qy, y, OPERAND, RightOperand(op));
    if op.POW? {
      DerivesLower(qx, x, OPERAND, LeftOperand(op));
      DerivesBinary(qx, op, qy, x, y, UNARY_RANK);
      DerivesUnary(u, qx + [BinToken(op)] + qy, Binary(op, x, y), 1);
      assert q == [UnToken(u)] + (qx + [BinToken(op)] + qy);
      ReadsDerived(q, Unary(u, Binary(op, x, y)), room);
    } else {
      DerivesLower(qx, x, OPERAND, UNARY_RANK);
      DerivesUnary(u, qx, x, LeftOperand(op));
      DerivesBinary([UnToken(u)] + qx, op, qy, Unary(u, x), y, 1);
      ReadsDerived(q, Binary(op, Unary(u, x), y), room);
    }
  }

  /** Behind any binary operator a unary one is read with its operand. */
  lemma UnaryBehind(qx: seq<Token>, op: BinOpr, u: UnOpr, qy: seq<Token>, x: Tree, y: Tree, room: nat)
    requires Derives(qx, x, OPERAND) && Derives(qy, y, OPERAND) && room > |qx| + |qy| + 2
    ensures ReadExpr(qx + [BinToken(op)] + ([UnToken(u)] + qy), 0, room) == Ok(Binary(op, x, Unary(u, y)), [])
  {
    hide Derives, ReadExpr, BinToken, UnToken;
    DerivesLower(qx, x, OPERAND, LeftOperand(op));
    DerivesLower(qy, y, OPERAND, UNARY_RANK);
    DerivesUnary(u, qy, y, RightOperand(op));
    DerivesBinary(qx, op, [UnToken(u)] + qy, x, Unary(u, y), 1);
    ReadsDerived(qx + [BinToken(op)] + ([UnToken(u)] + qy), Binary(op, x, Unary(u, y)), room);
  }
}
