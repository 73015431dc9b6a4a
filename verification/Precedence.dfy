/**
Operator expressions: the priority table, the ways an operator tree can be
written down, and the parser `subexpr` that reads it back.
*/
module Precedence {

  datatype BinOpr = ADD | SUB | MUL | DIV | MOD | POW | CONCAT | NE | EQ | LT | LE | GT | GE | AND | OR

  datatype UnOpr = MINUS | NOT | LEN

  /** Tokens; an operand is any simple expression but one in parentheses. */
  datatype Token =
    | Operand(n: int)
    | LeftPar
    | RightPar
    | Plus | Dash | Star | Slash | Percent | Caret | Dots
    | NotEqual | Equal | Less | LessEqual | Greater | GreaterEqual | AndWord | OrWord
    | NotWord | Hash
    | Else(n: int)

  datatype Tree = Leaf(n: int) | Unary(uop: UnOpr, x: Tree) | Binary(op: BinOpr, x: Tree, y: Tree)

  datatype Option<T> = None | Some(value: T)

  /** `getunopr`. */
  function GetUnOpr(t: Token): Option<UnOpr> {
    match t
    case NotWord => Some(NOT)
    case Dash => Some(MINUS)
    case Hash => Some(LEN)
    case _ => None
  }

  /** `getbinopr`. */
  function GetBinOpr(t: Token): Option<BinOpr> {
    match t
    case Plus => Some(ADD)
    case Dash => Some(SUB)
    case Star => Some(MUL)
    case Slash => Some(DIV)
    case Percent => Some(MOD)
    case Caret => Some(POW)
    case Dots => Some(CONCAT)
    case NotEqual => Some(NE)
    case Equal => Some(EQ)
    case Less => Some(LT)
    case LessEqual => Some(LE)
    case Greater => Some(GT)
    case GreaterEqual => Some(GE)
    case AndWord => Some(AND)
    case OrWord => Some(OR)
    case _ => None
  }

  function BinToken(op: BinOpr): (t: Token)
    ensures GetBinOpr(t) == Some(op)
  {
    match op
    case ADD => Plus
    case SUB => Dash
    case MUL => Star
    case DIV => Slash
    case MOD => Percent
    case POW => Caret
    case CONCAT => Dots
    case NE => NotEqual
    case EQ => Equal
    case LT => Less
    case LE => LessEqual
    case GT => Greater
    case GE => GreaterEqual
    case AND => AndWord
    case OR => OrWord
  }

  function UnToken(u: UnOpr): (t: Token)
    ensures GetUnOpr(t) == Some(u)
  {
    match u
    case MINUS => Dash
    case NOT => NotWord
    case LEN => Hash
  }

  lemma OprTokens(t: Token)
    ensures GetBinOpr(t).Some? ==> t == BinToken(GetBinOpr(t).value)
    ensures GetUnOpr(t).Some? ==> t == UnToken(GetUnOpr(t).value)
  {
  }

  /** The priority table. */
  function LeftPriority(op: BinOpr): (p: nat)
    ensures p > 0
  {
    match op
    case OR => 1
    case AND => 2
    case NE => 3 case EQ => 3 case LT => 3 case LE => 3 case GT => 3 case GE => 3
    case CONCAT => 5
    case ADD => 6 case SUB => 6
    case MUL => 7 case DIV => 7 case MOD => 7
    case POW => 10
  }

  function RightPriority(op: BinOpr): nat {
    match op
    case POW => 9
    case CONCAT => 4
    case _ => LeftPriority(op)
  }

  const UNARY_PRIORITY: nat := 8

  // --------------------------------------------------------- the parser's result

  datatype ParseError = TooManyLevels | UnexpectedSymbol | ParenthesisExpected

  datatype Parsed = Ok(v: Tree, rest: seq<Token>) | Failed(error: ParseError)

  /** The left priority of the operator that comes next, 0 if none does. */
  function NextLeft(q: seq<Token>): nat {
    if q != [] && GetBinOpr(q[0]).Some? then LeftPriority(GetBinOpr(q[0]).value) else 0
  }

  /** What `subexpr` reads from `q`, with `room` levels left. */
  function ReadExpr(q: seq<Token>, limit: nat, room: nat): (r: Parsed)
    ensures r.Ok? ==> |r.rest| < |q|
    decreases |q|, 1
  {
    if room == 0 then Failed(TooManyLevels)
    else if q != [] && GetUnOpr(q[0]).Some? then
      match ReadExpr(q[1..], UNARY_PRIORITY, room - 1)
      case Failed(e) => Failed(e)
      case Ok(v, rest) => Expand(Unary(GetUnOpr(q[0]).value, v), rest, limit, room)
    else
      match ReadSimple(q, room)
      case Failed(e) => Failed(e)
      case Ok(v, rest) => Expand(v, rest, limit, room)
  }

  /** An operand, or an expression in parentheses. */
  function ReadSimple(q: seq<Token>, room: nat): (r: Parsed)
    requires room > 0
    ensures r.Ok? ==> |r.rest| < |q|
    decreases |q|, 0
  {
    if q != [] && q[0].Operand? then Ok(Leaf(q[0].n), q[1..])
    else if q != [] && q[0].LeftPar? then
      match ReadExpr(q[1..], 0, room - 1)
      case Failed(e) => Failed(e)
      case Ok(v, rest) => if rest != [] && rest[0].RightPar? then Ok(v, rest[1..]) else Failed(ParenthesisExpected)
    else Failed(UnexpectedSymbol)
  }

  /** The loop of `subexpr`: operators with left priority above `limit`, and their right operands. */
  function Expand(v: Tree, q: seq<Token>, limit: nat, room: nat): (r: Parsed)
    requires room > 0
    ensures r.Ok? ==> |r.rest| <= |q|
    decreases |q|, 2
  {
    if NextLeft(q) > limit then
      var op := GetBinOpr(q[0]).value;
      match ReadExpr(q[1..], RightPriority(op), room - 1)
      case Failed(e) => Failed(e)
      case Ok(v2, rest) => Expand(Binary(op, v, v2), rest, limit, room)
    else Ok(v, q)
  }

  // ------------------------------------------------------- writing trees down

  /**
  `q` writes down `t` where its operators have to bind more tightly than `limit`
  and an operator of left priority `follow` (or none, if 0) comes behind it.
  Parentheses may stand around any part.
  */
  ghost predicate Writes(q: seq<Token>, t: Tree, limit: nat, follow: nat)
    decreases |q|
  {
    || (|q| >= 2 && q[0].LeftPar? && q[|q| - 1].RightPar? && Writes(q[1..|q| - 1], t, 0, 0))
    || match t
       case Leaf(n) => q == [Operand(n)]
       case Unary(u, x) => |q| > 0 && q[0] == UnToken(u) && follow <= UNARY_PRIORITY && Writes(q[1..], x, UNARY_PRIORITY, follow)
       case Binary(op, x, y) =>
         && LeftPriority(op) > limit && follow <= RightPriority(op)
         && exists i :: 0 <= i < |q| && WritesAround(q, op, x, y, limit, follow, i)
  }

  /** The operator stands at position `i`, between its operands. */
  ghost predicate WritesAround(q: seq<Token>, op: BinOpr, x: Tree, y: Tree, limit: nat, follow: nat, i: nat)
    requires i < |q|
    decreases |q|, 0
  {
    q[i] == BinToken(op) && Writes(q[..i], x, limit, LeftPriority(op)) && Writes(q[i + 1..], y, RightPriority(op), follow)
  }

  /** Parentheses are needed around `t`: its operator binds too loosely, or what follows would be taken for its own. */
  predicate NeedsParens(t: Tree, limit: nat, follow: nat) {
    match t
    case Leaf(_) => false
    case Unary(_, _) => follow > UNARY_PRIORITY
    case Binary(op, _, _) => LeftPriority(op) <= limit || follow > RightPriority(op)
  }

  /** `t` written down with parentheses where they are needed. */
  function Print(t: Tree, limit: nat, follow: nat): seq<Token>
    decreases t, 1
  {
    if NeedsParens(t, limit, follow) then [LeftPar] + PrintBare(t, 0, 0) + [RightPar] else PrintBare(t, limit, follow)
  }

  function PrintBare(t: Tree, limit: nat, follow: nat): seq<Token>
    decreases t, 0
  {
    match t
    case Leaf(n) => [Operand(n)]
    case Unary(u, x) => [UnToken(u)] + Print(x, UNARY_PRIORITY, follow)
    case Binary(op, x, y) => Print(x, limit, LeftPriority(op)) + [BinToken(op)] + Print(y, RightPriority(op), follow)
  }

  /** Printing writes the tree down. */
  lemma {:induction false} PrintWrites(t: Tree, limit: nat, follow: nat)
    ensures Writes(Print(t, limit, follow), t, limit, follow)
    decreases t, 1
  {
    var q := Print(t, limit, follow);
    if NeedsParens(t, limit, follow) {
      PrintBareWrites(t, 0, 0);
      assert q[1..|q| - 1] == PrintBare(t, 0, 0);
    } else {
      PrintBareWrites(t, limit, follow);
    }
  }

  lemma {:induction false} PrintBareWrites(t: Tree, limit: nat, follow: nat)
    requires !NeedsParens(t, limit, follow)
    ensures Writes(PrintBare(t, limit, follow), t, limit, follow)
    decreases t, 0
  {
    var q := PrintBare(t, limit, follow);
    match t {
      case Leaf(_) =>
      case Unary(u, x) =>
        PrintWrites(x, UNARY_PRIORITY, follow);
        assert q[1..] == Print(x, UNARY_PRIORITY, follow);
      case Binary(op, x, y) =>
        var p := Print(x, limit, LeftPriority(op));
        PrintWrites(x, limit, LeftPriority(op));
        PrintWrites(y, RightPriority(op), follow);
        assert q[..|p|] == p && q[|p| + 1..] == Print(y, RightPriority(op), follow);
        assert WritesAround(q, op, x, y, limit, follow, |p|);
    }
  }

  // ----------------------------------------------- reading back what was written

  /** `r` is what the parser's loop makes of `t` and `rest`, unless the levels ran out first. */
  predicate ReadsAs(r: Parsed, t: Tree, rest: seq<Token>, limit: nat, room: nat) {
    r == Failed(TooManyLevels) || (room > 0 && r == Expand(t, rest, limit, room))
  }

  /** However `t` is written down, the parser reads it as `t` and goes on behind it. */
  lemma {:induction false} ReadsWritten(q: seq<Token>, t: Tree, rest: seq<Token>, limit: nat, follow: nat, room: nat)
    requires Writes(q, t, limit, follow) && NextLeft(rest) <= follow
    ensures ReadsAs(ReadExpr(q + rest, limit, room), t, rest, limit, room)
    decreases |q|
  {
    if room == 0 {
    } else if |q| >= 2 && q[0].LeftPar? && q[|q| - 1].RightPar? && Writes(q[1..|q| - 1], t, 0, 0) {
      ReadsParens(q, t, rest, limit, room);
    } else {
      match t {
        case Leaf(n) => assert (q + rest)[1..] == rest;
        case Unary(u, x) =>
          assert (q + rest)[1..] == q[1..] + rest;
          ReadsWritten(q[1..], x, rest, UNARY_PRIORITY, follow, room - 1);
        case Binary(op, x, y) =>
          var i :| 0 <= i < |q| && WritesAround(q, op, x, y, limit, follow, i);
          ReadsBinary(q, op, x, y, rest, limit, follow, room, i);
      }
    }
  }

  lemma {:induction false} ReadsParens(q: seq<Token>, t: Tree, rest: seq<Token>, limit: nat, room: nat)
    requires room > 0
    requires |q| >= 2 && q[0].LeftPar? && q[|q| - 1].RightPar? && Writes(q[1..|q| - 1], t, 0, 0)
    ensures ReadsAs(ReadExpr(q + rest, limit, room), t, rest, limit, room)
    decreases |q|, 0
  {
    var inner := q[1..|q| - 1];
    assert (q + rest)[1..] == inner + ([RightPar] + rest);
    ReadsWritten(inner, t, [RightPar] + rest, 0, 0, room - 1);
    assert ([RightPar] + rest)[1..] == rest;
  }

  lemma {:induction false} ReadsBinary(q: seq<Token>, op: BinOpr, x: Tree, y: Tree, rest: seq<Token>, limit: nat,
                                       follow: nat, room: nat, i: nat)
    requires room > 0 && i < |q| && WritesAround(q, op, x, y, limit, follow, i)
    requires LeftPriority(op) > limit && NextLeft(rest) <= follow <= RightPriority(op)
    ensures ReadsAs(ReadExpr(q + rest, limit, room), Binary(op, x, y), rest, limit, room)
    decreases |q|, 0
  {
    var behind := [BinToken(op)] + q[i + 1..] + rest;
    assert q + rest == q[..i] + behind;
    assert behind[1..] == q[i + 1..] + rest;
    ReadsWritten(q[..i], x, behind, limit, LeftPriority(op), room);
    ReadsWritten(q[i + 1..], y, rest, RightPriority(op), follow, room - 1);
  }

  /** Levels run out only where there are fewer of them than tokens. */
  lemma {:induction false} RoomSuffices(q: seq<Token>, limit: nat, room: nat)
    requires room > |q|
    ensures ReadExpr(q, limit, room) != Failed(TooManyLevels)
    decreases |q|, 1
  {
    if q != [] && GetUnOpr(q[0]).Some? {
      RoomSuffices(q[1..], UNARY_PRIORITY, room - 1);
      match ReadExpr(q[1..], UNARY_PRIORITY, room - 1) {
        case Failed(_) =>
        case Ok(v, rest) => RoomSufficesLoop(Unary(GetUnOpr(q[0]).value, v), rest, limit, room);
      }
    } else {
      if q != [] && q[0].LeftPar? {
        RoomSuffices(q[1..], 0, room - 1);
      }
      match ReadSimple(q, room) {
        case Failed(_) =>
        case Ok(v, rest) => RoomSufficesLoop(v, rest, limit, room);
      }
    }
  }

  lemma {:induction false} RoomSufficesLoop(v: Tree, q: seq<Token>, limit: nat, room: nat)
    requires room > |q|
    ensures Expand(v, q, limit, room) != Failed(TooManyLevels)
    decreases |q|, 2
  {
    if NextLeft(q) > limit {
      var op := GetBinOpr(q[0]).value;
      RoomSuffices(q[1..], RightPriority(op), room - 1);
      match ReadExpr(q[1..], RightPriority(op), room - 1) {
        case Failed(_) =>
        case Ok(v2, rest) => RoomSufficesLoop(Binary(op, v, v2), rest, limit, room);
      }
    }
  }

  /** No token sequence writes down two trees. */
  lemma Unambiguous(q: seq<Token>, t: Tree, other: Tree)
    requires Writes(q, t, 0, 0) && Writes(q, other, 0, 0)
    ensures t == other
  {
    ReadsWritten(q, t, [], 0, 0, |q| + 1);
    ReadsWritten(q, other, [], 0, 0, |q| + 1);
    RoomSuffices(q, 0, |q| + 1);
    assert q + [] == q;
  }

  // ---------------------------------------------------- what was read is written

  /** The tokens of `q` before `rest` write `t` down, and no operator that `limit` lets through comes next. */
  ghost predicate ReadFrom(q: seq<Token>, t: Tree, rest: seq<Token>, limit: nat) {
    && |rest| < |q| && q[|q| - |rest|..] == rest && NextLeft(rest) <= limit
    && Writes(q[..|q| - |rest|], t, limit, NextLeft(rest))
  }

  /** What is accepted is an expression written down, up to the first operator of left priority at most `limit`. */
  lemma {:induction false} AcceptsWritten(q: seq<Token>, limit: nat, room: nat)
    requires ReadExpr(q, limit, room).Ok?
    ensures ReadFrom(q, ReadExpr(q, limit, room).v, ReadExpr(q, limit, room).rest, limit)
    decreases |q|, 1
  {
    if q != [] && GetUnOpr(q[0]).Some? {
      var inner := ReadExpr(q[1..], UNARY_PRIORITY, room - 1);
      AcceptsWritten(q[1..], UNARY_PRIORITY, room - 1);
      UnaryWritten(q, inner.v, inner.rest, limit);
      AcceptsLoop(q, |q| - |inner.rest|, Unary(GetUnOpr(q[0]).value, inner.v), limit, room);
    } else {
      var atom := ReadSimple(q, room);
      if q[0].LeftPar? {
        AcceptsWritten(q[1..], 0, room - 1);
      }
      SimpleWritten(q, limit, room);
      AcceptsLoop(q, |q| - |atom.rest|, atom.v, limit, room);
    }
  }

  lemma UnaryWritten(q: seq<Token>, x: Tree, rest: seq<Token>, limit: nat)
    requires q != [] && GetUnOpr(q[0]).Some? && ReadFrom(q[1..], x, rest, UNARY_PRIORITY)
    ensures q[|q| - |rest|..] == rest
    ensures Writes(q[..|q| - |rest|], Unary(GetUnOpr(q[0]).value, x), limit, NextLeft(rest))
  {
    OprTokens(q[0]);
    var n := |q| - |rest|;
    assert q[..n][1..] == q[1..][..n - 1];
  }

  lemma SimpleWritten(q: seq<Token>, limit: nat, room: nat)
    requires room > 0 && ReadSimple(q, room).Ok?
    requires q[0].LeftPar? ==>
      var inner := ReadExpr(q[1..], 0, room - 1); ReadFrom(q[1..], inner.v, inner.rest, 0)
    ensures var r := ReadSimple(q, room);
      q[|q| - |r.rest|..] == r.rest && Writes(q[..|q| - |r.rest|], r.v, limit, NextLeft(r.rest))
  {
    var r := ReadSimple(q, room);
    var n := |q| - |r.rest|;
    if q[0].LeftPar? {
      assert q[..n][1..n - 1] == q[1..][..n - 2];
    }
  }

  lemma {:induction false} AcceptsLoop(q: seq<Token>, n: nat, v: Tree, limit: nat, room: nat)
    requires 0 < n <= |q| && room > 0 && Expand(v, q[n..], limit, room).Ok?
    requires Writes(q[..n], v, limit, NextLeft(q[n..]))
    ensures ReadFrom(q, Expand(v, q[n..], limit, room).v, Expand(v, q[n..], limit, room).rest, limit)
    decreases |q| - n, 2
  {
    hide Writes, ReadSimple;
    var tail := q[n..];
    if NextLeft(tail) > limit {
      OprTokens(tail[0]);
      var op := GetBinOpr(tail[0]).value;
      var right := ReadExpr(tail[1..], RightPriority(op), room - 1);
      AcceptsWritten(tail[1..], RightPriority(op), room - 1);
      BinaryWritten(q, n, op, v, right.v, right.rest, limit);
      AcceptsLoop(q, |q| - |right.rest|, Binary(op, v, right.v), limit, room);
    }
  }

  lemma BinaryWritten(q: seq<Token>, n: nat, op: BinOpr, x: Tree, y: Tree, rest: seq<Token>, limit: nat)
    requires 0 < n < |q| && q[n] == BinToken(op) && LeftPriority(op) > limit
    requires Writes(q[..n], x, limit, LeftPriority(op)) && ReadFrom(q[n + 1..], y, rest, RightPriority(op))
    ensures q[|q| - |rest|..] == rest
    ensures Writes(q[..|q| - |rest|], Binary(op, x, y), limit, NextLeft(rest))
  {
    var m := |q| - |rest|;
    var written := q[..m];
    assert written[..n] == q[..n] && written[n + 1..] == q[n + 1..][..m - n - 1];
    assert WritesAround(written, op, x, y, limit, NextLeft(rest), n);
  }

  // ------------------------------------------------------------ levels and printing

  /** The levels `subexpr` takes to read what `Print` writes. */
  function Levels(t: Tree, limit: nat, follow: nat): (n: nat)
    ensures n > 0
    decreases t, 1
  {
    if NeedsParens(t, limit, follow) then 1 + LevelsBare(t, 0, 0) else LevelsBare(t, limit, follow)
  }

  function LevelsBare(t: Tree, limit: nat, follow: nat): (n: nat)
    ensures n > 0
    decreases t, 0
  {
    match t
    case Leaf(_) => 1
    case Unary(_, x) => 1 + Levels(x, UNARY_PRIORITY, follow)
    case Binary(op, x, y) =>
      var left := Levels(x, limit, LeftPriority(op));
      var right := 1 + Levels(y, RightPriority(op), follow);
      if left > right then left else right
  }

  /** What the parser's loop makes of `t` and `rest` when there are at least `levels` levels. */
  function Within(levels: nat, t: Tree, rest: seq<Token>, limit: nat, room: nat): Parsed
    requires levels > 0
  {
    if room < levels then Failed(TooManyLevels) else Expand(t, rest, limit, room)
  }

  /** Reading a printed tree fails exactly when the levels do not suffice. */
  lemma {:induction false} ReadsPrinted(t: Tree, rest: seq<Token>, limit: nat, follow: nat, room: nat)
    requires NextLeft(rest) <= follow
    ensures ReadExpr(Print(t, limit, follow) + rest, limit, room) == Within(Levels(t, limit, follow), t, rest, limit, room)
    decreases t, 2
  {
    if room == 0 {
    } else if NeedsParens(t, limit, follow) {
      var bare := PrintBare(t, 0, 0);
      var q := Print(t, limit, follow);
      assert q[1..|q| - 1] == bare;
      assert (q + rest)[1..] == bare + ([RightPar] + rest);
      ReadsBare(t, [RightPar] + rest, 0, 0, room - 1);
      assert ([RightPar] + rest)[1..] == rest;
    } else {
      ReadsBare(t, rest, limit, follow, room);
    }
  }

  lemma {:induction false} ReadsBare(t: Tree, rest: seq<Token>, limit: nat, follow: nat, room: nat)
    requires NextLeft(rest) <= follow && !NeedsParens(t, limit, follow)
    ensures ReadExpr(PrintBare(t, limit, follow) + rest, limit, room)
         == Within(LevelsBare(t, limit, follow), t, rest, limit, room)
    decreases t, 1
  {
    if room > 0 {
      var q := PrintBare(t, limit, follow);
      match t {
        case Leaf(_) => assert (q + rest)[1..] == rest;
        case Unary(_, x) =>
          assert (q + rest)[1..] == Print(x, UNARY_PRIORITY, follow) + rest;
          ReadsPrinted(x, rest, UNARY_PRIORITY, follow, room - 1);
        case Binary(op, x, y) =>
          ReadsPrintedBinary(op, x, y, rest, limit, follow, room);
      }
    }
  }

  lemma {:induction false} ReadsPrintedBinary(op: BinOpr, x: Tree, y: Tree, rest: seq<Token>, limit: nat, follow: nat, room: nat)
    requires room > 0 && NextLeft(rest) <= follow && !NeedsParens(Binary(op, x, y), limit, follow)
    ensures var t := Binary(op, x, y);
      ReadExpr(PrintBare(t, limit, follow) + rest, limit, room) == Within(LevelsBare(t, limit, follow), t, rest, limit, room)
    decreases Binary(op, x, y), 0
  {
    hide ReadExpr, Print, PrintBare, Levels, LevelsBare, NeedsParens;
    var left, right := Print(x, limit, LeftPriority(op)), Print(y, RightPriority(op), follow);
    var behind := [BinToken(op)] + right + rest;
    PrintedParts(op, x, y, limit, follow);
    assert left + [BinToken(op)] + right + rest == left + behind;
    assert behind[1..] == right + rest;
    ReadsPrinted(x, behind, limit, LeftPriority(op), room);
    ReadsPrinted(y, rest, RightPriority(op), follow, room - 1);
  }

  lemma PrintedParts(op: BinOpr, x: Tree, y: Tree, limit: nat, follow: nat)
    requires !NeedsParens(Binary(op, x, y), limit, follow)
    ensures var t := Binary(op, x, y);
      && LeftPriority(op) > limit && follow <= RightPriority(op)
      && PrintBare(t, limit, follow) == Print(x, limit, LeftPriority(op)) + [BinToken(op)] + Print(y, RightPriority(op), follow)
      && var left, right := Levels(x, limit, LeftPriority(op)), 1 + Levels(y, RightPriority(op), follow);
         LevelsBare(t, limit, follow) == if left > right then left else right
  {
  }

  /**
  A tree printed with the parentheses the priorities require is read back as itself, up to the first token that
  cannot continue it, exactly when the levels suffice.
  */
  lemma PrintedReadsBack(t: Tree, rest: seq<Token>, room: nat)
    requires NextLeft(rest) == 0
    ensures ReadExpr(Print(t, 0, 0) + rest, 0, room) ==
      if room < Levels(t, 0, 0) then Failed(TooManyLevels) else Ok(t, rest)
  {
    ReadsPrinted(t, rest, 0, 0, room);
  }

  // -------------------------------------------------------------- the parser itself

  /** What a parsing function leaves: the expression, or the error it stopped with. */
  datatype Outcome = Done(v: Tree) | Raised(error: ParseError)

  const MAX_C_CALLS: nat := 200

  /** How `parsed` goes on once `v` has been put in the place of what it read. */
  function GoOn(parsed: Parsed, v: Tree, limit: nat, room: nat): Parsed
    requires room > 0
  {
    match parsed
    case Failed(e) => Failed(e)
    case Ok(_, rest) => Expand(v, rest, limit, room)
  }

  lemma NoRoom(q: seq<Token>, limit: nat)
    ensures ReadExpr(q, limit, 0) == Failed(TooManyLevels)
  {
  }

  lemma FirstOperand(q: seq<Token>, limit: nat, room: nat)
    requires room > 0
    ensures ReadExpr(q, limit, room) ==
      if q != [] && GetUnOpr(q[0]).Some? then
        var x := ReadExpr(q[1..], UNARY_PRIORITY, room - 1);
        GoOn(x, if x.Ok? then Unary(GetUnOpr(q[0]).value, x.v) else Leaf(0), limit, room)
      else
        var x := ReadSimple(q, room);
        GoOn(x, if x.Ok? then x.v else Leaf(0), limit, room)
  {
  }

  lemma NextOperator(v: Tree, q: seq<Token>, limit: nat, room: nat)
    requires room > 0
    ensures Expand(v, q, limit, room) ==
      if NextLeft(q) > limit then
        var op := GetBinOpr(q[0]).value;
        var y := ReadExpr(q[1..], RightPriority(op), room - 1);
        GoOn(y, if y.Ok? then Binary(op, v, y.v) else Leaf(0), limit, room)
      else Ok(v, q)
  {
  }

  class LexState {
    const toks: seq<Token>
    var pos: nat
    var nCcalls: nat

    constructor (source: seq<Token>)
      ensures toks == source && pos == 0 && nCcalls == 0
    {
      toks := source;
      pos := 0;
      nCcalls := 0;
    }

    ghost predicate Valid()
      reads this
    {
      pos <= |toks| && nCcalls <= MAX_C_CALLS
    }

    ghost function Ahead(): seq<Token>
      reads this
      requires Valid()
    {
      toks[pos..]
    }

    /** The parser stands behind what `parsed` has read, or has stopped with its error. */
    ghost predicate Reached(parsed: Parsed, r: Outcome)
      reads this
    {
      match parsed
      case Ok(v, rest) => Valid() && r == Done(v) && Ahead() == rest
      case Failed(e) => r == Raised(e)
    }

    /** `subexpr`: also returns the first operator it has not treated. */
    method SubExpr(limit: nat) returns (r: Outcome, op: Option<BinOpr>)
      requires Valid()
      modifies this
      ensures Reached(ReadExpr(old(Ahead()), limit, MAX_C_CALLS - old(nCcalls)), r)
      ensures r.Done? ==>
        && nCcalls == old(nCcalls) && pos > old(pos)
        && op == (if Ahead() == [] then None else GetBinOpr(Ahead()[0]))
        && (op.Some? ==> LeftPriority(op.value) <= limit)
      decreases |toks| - pos, 1
    {
      hide ReadExpr, ReadSimple, Expand, LeftPriority, RightPriority, GetUnOpr;
      op := None;
      ghost var q, room := Ahead(), MAX_C_CALLS - nCcalls;
      NoRoom(q, limit);
      if nCcalls + 1 > MAX_C_CALLS {
        return Raised(TooManyLevels), None;
      }
      FirstOperand(q, limit, room);
      nCcalls := nCcalls + 1;
      var uop := if pos < |toks| then GetUnOpr(toks[pos]) else None;
      if uop.Some? {
        pos := pos + 1;
        assert Ahead() == q[1..];
        r, op := SubExpr(UNARY_PRIORITY);
        if r.Raised? { return; }
        r := Done(Unary(uop.value, r.v));
      } else {
        r := SimpleExp();
        if r.Raised? { return; }
      }
      op := if pos < |toks| then GetBinOpr(toks[pos]) else None;
      while op.Some? && LeftPriority(op.value) > limit
        invariant Valid() && r.Done? && nCcalls == old(nCcalls) + 1 && pos > old(pos)
        invariant op == (if Ahead() == [] then None else GetBinOpr(Ahead()[0]))
        invariant ReadExpr(q, limit, room) == Expand(r.v, Ahead(), limit, room)
        decreases |toks| - pos
      {
        ghost var tail := Ahead();
        NextOperator(r.v, tail, limit, room);
        pos := pos + 1;
        assert Ahead() == tail[1..];
        var v := r.v;
        var nextop;
        r, nextop := SubExpr(RightPriority(op.value));
        if r.Raised? { return; }
        r := Done(Binary(op.value, v, r.v));
        op := nextop;
      }
      NextOperator(r.v, Ahead(), limit, room);
      nCcalls := nCcalls - 1;
    }

    /** `simpleexp` and `prefixexp`. */
    method SimpleExp() returns (r: Outcome)
      requires Valid() && 0 < nCcalls
      modifies this
      ensures Reached(ReadSimple(old(Ahead()), MAX_C_CALLS - old(nCcalls) + 1), r)
      ensures r.Done? ==> nCcalls == old(nCcalls) && pos > old(pos)
      decreases |toks| - pos, 0
    {
      ghost var q := Ahead();
      if pos == |toks| {
        return Raised(UnexpectedSymbol);
      }
      match toks[pos] {
        case Operand(n) =>
          pos := pos + 1;
          assert Ahead() == q[1..];
          r := Done(Leaf(n));
        case LeftPar =>
          pos := pos + 1;
          assert Ahead() == q[1..];
          r := Expr();
          if r.Done? {
            ghost var rest := Ahead();
            if pos == |toks| || !toks[pos].RightPar? {
              return Raised(ParenthesisExpected);
            }
            pos := pos + 1;
            assert Ahead() == rest[1..];
          }
        case _ =>
          r := Raised(UnexpectedSymbol);
      }
    }

    /** `expr`. */
    method Expr() returns (r: Outcome)
      requires Valid()
      modifies this
      ensures Reached(ReadExpr(old(Ahead()), 0, MAX_C_CALLS - old(nCcalls)), r)
      ensures r.Done? ==> nCcalls == old(nCcalls) && pos > old(pos)
      decreases |toks| - pos, 2
    {
      var op;
      r, op := SubExpr(0);
    }
  }

  /** A fresh parser given a printed tree returns that tree and has read it all, unless it nests too deeply. */
  method ParsePrinted(t: Tree) returns (r: Outcome, end: nat)
    ensures Levels(t, 0, 0) <= MAX_C_CALLS ==> r == Done(t) && end == |Print(t, 0, 0)|
    ensures Levels(t, 0, 0) > MAX_C_CALLS ==> r == Raised(TooManyLevels)
  {
    var ls := new LexState(Print(t, 0, 0));
    PrintedReadsBack(t, [], MAX_C_CALLS);
    assert Print(t, 0, 0) + [] == Print(t, 0, 0) == ls.Ahead();
    r := ls.Expr();
    end := ls.pos;
  }
}
