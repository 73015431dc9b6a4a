/**
The syntax of Lua patterns: single-character classes, sets, and the item that
starts at a position of the pattern.

Pattern and subject are sequences of characters in the range of a byte. As in
the C program a pattern is read up to its first zero, and reading one past the
end of either string gives zero.
*/
module Pattern {

  const ESC: char := '%'

  function At(s: string, i: nat): char {
    if i < |s| then s[i] else '\0'
  }

  // ------------------------------------------------------- character classes

  predicate IsDigit(c: char) { '0' <= c <= '9' }
  predicate IsLower(c: char) { 'a' <= c <= 'z' }
  predicate IsUpper(c: char) { 'A' <= c <= 'Z' }
  predicate IsAlpha(c: char) { IsLower(c) || IsUpper(c) }
  predicate IsAlnum(c: char) { IsAlpha(c) || IsDigit(c) }
  predicate IsCntrl(c: char) { c as int < 32 || c as int == 127 }
  predicate IsPunct(c: char) { 33 <= c as int <= 126 && !IsAlnum(c) }
  predicate IsSpace(c: char) { c == ' ' || 9 <= c as int <= 13 }
  predicate IsXdigit(c: char) { IsDigit(c) || 'a' <= c <= 'f' || 'A' <= c <= 'F' }

  function ToLower(c: char): char {
    if IsUpper(c) then (c as int + 32) as char else c
  }

  /** `match_class`: the class letter `cl`, complemented when it is upper case. */
  predicate MatchClass(c: char, cl: char) {
    match ToLower(cl)
    case 'a' => IsAlpha(c) == IsLower(cl)
    case 'c' => IsCntrl(c) == IsLower(cl)
    case 'd' => IsDigit(c) == IsLower(cl)
    case 'l' => IsLower(c) == IsLower(cl)
    case 'p' => IsPunct(c) == IsLower(cl)
    case 's' => IsSpace(c) == IsLower(cl)
    case 'u' => IsUpper(c) == IsLower(cl)
    case 'w' => IsAlnum(c) == IsLower(cl)
    case 'x' => IsXdigit(c) == IsLower(cl)
    case 'z' => (c == '\0') == IsLower(cl)
    case _ => cl == c
  }

  /** Some element of the set text from `i` up to the closing bracket at `ec` covers `c`. */
  predicate InSet(pat: string, i: nat, ec: nat, c: char)
    decreases ec - i
  {
    if i >= ec then false
    else if At(pat, i) == ESC then MatchClass(c, At(pat, i + 1)) || InSet(pat, i + 2, ec, c)
    else if At(pat, i + 1) == '-' && i + 2 < ec then
      (At(pat, i) <= c <= At(pat, i + 2)) || InSet(pat, i + 3, ec, c)
    else At(pat, i) == c || InSet(pat, i + 1, ec, c)
  }

  /** The set that opens at `p` and closes at `ec` contains `c`; a leading caret complements it. */
  predicate MatchSet(pat: string, p: nat, ec: nat, c: char) {
    if At(pat, p + 1) == '^' then !InSet(pat, p + 2, ec, c) else InSet(pat, p + 1, ec, c)
  }

  /** The single-character item from `p` to `ep` covers `c`. */
  predicate Single(pat: string, p: nat, ep: nat, c: char) {
    match At(pat, p)
    case '.' => true
    case '%' => MatchClass(c, At(pat, p + 1))
    case '[' => ep > 0 && MatchSet(pat, p, ep - 1, c)
    case x => x == c
  }

  // ------------------------------------------------------------------- items

  datatype PatternError =
    | EndsWithEscape
    | MissingBracket
    | UnbalancedPattern
    | MissingFrontierSet
    | InvalidCaptureIndex
    | InvalidPatternCapture
    | TooManyCaptures

  datatype ClassEnd = Ends(ep: nat) | Malformed(error: PatternError)

  /** The position behind the closing bracket of a set, from an element at `i` on. */
  function SetEnd(pat: string, i: nat): (r: ClassEnd)
    ensures r.Ends? ==> i < r.ep - 1 && r.ep <= |pat| && pat[r.ep - 1] == ']'
    decreases |pat| - i
  {
    if At(pat, i) == '\0' then Malformed(MissingBracket)
    else
      var j := if At(pat, i) == ESC && At(pat, i + 1) != '\0' then i + 2 else i + 1;
      if At(pat, j) == ']' then Ends(j + 1) else SetEnd(pat, j)
  }

  /** `classend`: the position behind the single-character item at `p`. */
  function ItemEnd(pat: string, p: nat): (r: ClassEnd)
    requires At(pat, p) != '\0'
    ensures r.Ends? ==> p < r.ep <= |pat|
  {
    match At(pat, p)
    case '%' => if At(pat, p + 1) == '\0' then Malformed(EndsWithEscape) else Ends(p + 2)
    case '[' => SetEnd(pat, if At(pat, p + 1) == '^' then p + 2 else p + 1)
    case _ => Ends(p + 1)
  }

  datatype Repeat = Optional | Greedy | GreedyPlus | Lazy

  const CAP_UNFINISHED: int := -1
  const CAP_POSITION: int := -2

  /** What the switch in `match` finds at a position of the pattern. */
  datatype Item =
    | End
    | EndAnchor
    | OpenCapture(what: int, next: nat)
    | CloseCapture(next: nat)
    | Balance(next: nat)
    | Frontier(bracket: nat, next: nat)
    | BackReference(index: int, next: nat)
    | One(next: nat)
    | Repeated(repeat: Repeat, ep: nat, next: nat)
    | Invalid(error: PatternError)

  predicate HasNext(i: Item) {
    !i.End? && !i.EndAnchor? && !i.Invalid?
  }

  function SingleItem(pat: string, p: nat): (r: Item)
    requires At(pat, p) != '\0'
    ensures HasNext(r) ==> p < r.next <= |pat|
    ensures r.Repeated? ==> p < r.ep
  {
    match ItemEnd(pat, p)
    case Malformed(e) => Invalid(e)
    case Ends(ep) =>
      match At(pat, ep)
      case '?' => Repeated(Optional, ep, ep + 1)
      case '*' => Repeated(Greedy, ep, ep + 1)
      case '+' => Repeated(GreedyPlus, ep, ep + 1)
      case '-' => Repeated(Lazy, ep, ep + 1)
      case _ => One(ep)
  }

  function ItemAt(pat: string, p: nat): (r: Item)
    ensures HasNext(r) ==> p < r.next <= |pat|
    ensures r.OpenCapture? ==> r.what < 0
  {
    match At(pat, p)
    case '(' =>
      if At(pat, p + 1) == ')' then OpenCapture(CAP_POSITION, p + 2) else OpenCapture(CAP_UNFINISHED, p + 1)
    case ')' => CloseCapture(p + 1)
    case '%' => EscapedItem(pat, p)
    case '\0' => End
    case '$' => if At(pat, p + 1) == '\0' then EndAnchor else SingleItem(pat, p)
    case _ => SingleItem(pat, p)
  }

  function EscapedItem(pat: string, p: nat): (r: Item)
    requires At(pat, p) == '%'
    ensures HasNext(r) ==> p < r.next <= |pat|
  {
    var x := At(pat, p + 1);
    if x == 'b' then
      if At(pat, p + 2) == '\0' || At(pat, p + 3) == '\0' then Invalid(UnbalancedPattern) else Balance(p + 4)
    else if x == 'f' then
      if At(pat, p + 2) != '[' then Invalid(MissingFrontierSet)
      else
        (match ItemEnd(pat, p + 2)
         case Malformed(e) => Invalid(e)
         case Ends(ep) => Frontier(p + 2, ep))
    else if IsDigit(x) then BackReference(x as int - '1' as int, p + 2)
    else SingleItem(pat, p)
  }
}
