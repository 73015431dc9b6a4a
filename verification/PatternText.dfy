/**
Patterns by their parts: how they are written, and what they match. The theorem
`MeansItsParts` says that the text of a pattern, read character by character by
the matcher, means what its parts mean.
*/
module PatternText {
  import opened Pattern
  import opened PatternSpec

  // ------------------------------------------------------------------ sets

  /** An element of a set: a character, the characters from `lo` to `hi`, or what follows a percent sign. */
  datatype Element = Character(c: char) | Span(lo: char, hi: char) | Escaped(x: char)

  function ElementText(e: Element): (s: string)
    ensures s != []
  {
    match e
    case Character(c) => [c]
    case Span(lo, hi) => [lo, '-', hi]
    case Escaped(x) => [ESC, x]
  }

  function ElementsText(es: seq<Element>): string {
    if es == [] then [] else ElementText(es[0]) + ElementsText(es[1..])
  }

  predicate ElementCovers(e: Element, c: char) {
    match e
    case Character(d) => c == d
    case Span(lo, hi) => lo <= c <= hi
    case Escaped(x) => MatchClass(c, x)
  }

  predicate ElementsCover(es: seq<Element>, c: char) {
    exists k :: 0 <= k < |es| && ElementCovers(es[k], c)
  }

  /** A closing bracket stands for itself only in front, a percent sign never; a range does not end with either. */
  predicate ElementOk(e: Element, first: bool) {
    && (e.Escaped? || (ElementText(e)[0] !in {'\0', ESC} && (ElementText(e)[0] == ']' ==> first)))
    && (e.Escaped? ==> e.x != '\0')
    && (e.Span? ==> e.hi !in {'\0', ESC, ']'})
  }

  /** A hyphen behind a character makes a range, unless it is the last character of the set. */
  predicate ElementsOk(es: seq<Element>, first: bool) {
    es != [] ==>
      && ElementOk(es[0], first) && ElementsOk(es[1..], false)
      && (es[0].Character? && |es| > 1 && ElementText(es[1])[0] == '-' ==> es[1..] == [Character('-')])
  }

  /** The text `q` stands in `pat` at position `p`. */
  ghost predicate Stands(pat: string, p: nat, q: string) {
    p + |q| <= |pat| && forall i :: 0 <= i < |q| ==> pat[p + i] == q[i]
  }

  lemma StandsParts(pat: string, p: nat, q: string, r: string)
    ensures Stands(pat, p, q + r) <==> Stands(pat, p, q) && Stands(pat, p + |q|, r)
  {
    if Stands(pat, p, q + r) {
      assert forall i :: 0 <= i < |q| ==> (q + r)[i] == q[i];
      assert forall i :: 0 <= i < |r| ==> (q + r)[|q| + i] == r[i];
    }
  }

  lemma {:induction false} InSetMeans(pat: string, i: nat, es: seq<Element>, first: bool, c: char)
    requires ElementsOk(es, first) && Stands(pat, i, ElementsText(es))
    ensures InSet(pat, i, i + |ElementsText(es)|, c) <==> ElementsCover(es, c)
    decreases |es|
  {
    if es != [] {
      var n := |ElementText(es[0])|;
      StandsParts(pat, i, ElementText(es[0]), ElementsText(es[1..]));
      InSetMeans(pat, i + n, es[1..], false, c);
      CoverStep(es, c);
      InSetStep(pat, i, es, first, c);
    }
  }

  lemma CoverStep(es: seq<Element>, c: char)
    requires es != []
    ensures ElementsCover(es, c) <==> ElementCovers(es[0], c) || ElementsCover(es[1..], c)
  {
    if ElementsCover(es[1..], c) {
      var k :| 0 <= k < |es[1..]| && ElementCovers(es[1..][k], c);
      assert ElementCovers(es[k + 1], c);
    }
    if ElementsCover(es, c) && !ElementCovers(es[0], c) {
      var k :| 0 <= k < |es| && ElementCovers(es[k], c);
      assert es[1..][k - 1] == es[k];
    }
  }

  /** The first element of a set text is read as what it is. */
  lemma InSetStep(pat: string, i: nat, es: seq<Element>, first: bool, c: char)
    requires es != [] && ElementsOk(es, first) && Stands(pat, i, ElementsText(es))
    ensures var ec := i + |ElementsText(es)|;
      InSet(pat, i, ec, c) <==> ElementCovers(es[0], c) || InSet(pat, i + |ElementText(es[0])|, ec, c)
  {
    hide MatchClass;
    StandsParts(pat, i, ElementText(es[0]), ElementsText(es[1..]));
    NextElement(pat, i + |ElementText(es[0])|, es[1..]);
    FirstElement(pat, i, es[0]);
  }

  lemma FirstElement(pat: string, i: nat, e: Element)
    requires Stands(pat, i, ElementText(e))
    ensures match e
      case Character(c) => At(pat, i) == c
      case Span(lo, hi) => At(pat, i) == lo && At(pat, i + 1) == '-' && At(pat, i + 2) == hi
      case Escaped(x) => At(pat, i) == ESC && At(pat, i + 1) == x
  {
    assert pat[i] == ElementText(e)[0];
    assert |ElementText(e)| > 1 ==> pat[i + 1] == ElementText(e)[1];
    assert |ElementText(e)| > 2 ==> pat[i + 2] == ElementText(e)[2];
  }

  /** What stands behind an element: the next one, which is longer than one character unless it is a character. */
  lemma NextElement(pat: string, i: nat, es: seq<Element>)
    requires Stands(pat, i, ElementsText(es))
    ensures es == [] ==> ElementsText(es) == []
    ensures es != [] ==> At(pat, i) == ElementText(es[0])[0] && |ElementsText(es)| >= |ElementText(es[0])|
    ensures |ElementsText(es)| == 1 ==> |es| == 1
    ensures |es| == 1 ==> ElementsText(es) == ElementText(es[0])
  {
    if es != [] {
      StandsParts(pat, i, ElementText(es[0]), ElementsText(es[1..]));
      if |es| > 1 {
        assert es[1..] != [];
      }
    }
  }

  /** The closing bracket of a set text is the one behind its elements. */
  lemma {:induction false} SetEndMeans(pat: string, i: nat, es: seq<Element>, first: bool)
    requires es != [] && ElementsOk(es, first) && Stands(pat, i, ElementsText(es))
    requires At(pat, i + |ElementsText(es)|) == ']'
    ensures SetEnd(pat, i) == Ends(i + |ElementsText(es)| + 1)
    decreases |es|
  {
    hide SetEnd;
    var n := |ElementText(es[0])|;
    StandsParts(pat, i, ElementText(es[0]), ElementsText(es[1..]));
    NextElement(pat, i + n, es[1..]);
    if |es| > 1 {
      SetEndMeans(pat, i + n, es[1..], false);
    }
    SetEndStep(pat, i, es[0], first);
  }

  lemma SetEndStep(pat: string, i: nat, e: Element, first: bool)
    requires ElementOk(e, first) && Stands(pat, i, ElementText(e))
    ensures var j := i + |ElementText(e)|;
      SetEnd(pat, i) == if At(pat, j) == ']' then Ends(j + 1) else SetEnd(pat, j)
  {
    FirstElement(pat, i, e);
    if e.Span? {
      assert SetEnd(pat, i) == SetEnd(pat, i + 1) == SetEnd(pat, i + 2);
    }
  }

  // --------------------------------------------------------- single characters

  /** What stands for one character: any one, itself, what follows a percent sign, or a set. */
  datatype Class =
    | Any
    | Plain(c: char)
    | Escape(x: char)
    | Bracket(complement: bool, elements: seq<Element>)

  function ClassText(k: Class): (s: string)
    ensures s != []
  {
    match k
    case Any => "."
    case Plain(c) => [c]
    case Escape(x) => [ESC, x]
    case Bracket(complement, es) => ['['] + (if complement then ['^'] else []) + (ElementsText(es) + [']'])
  }

  predicate ClassCovers(k: Class, c: char) {
    match k
    case Any => true
    case Plain(d) => c == d
    case Escape(x) => MatchClass(c, x)
    case Bracket(complement, es) => ElementsCover(es, c) != complement
  }

  predicate ClassOk(k: Class) {
    match k
    case Any => true
    case Plain(c) => c !in {'\0', '.', '[', '(', ')', ESC}
    case Escape(x) => x !in {'\0', 'b', 'f'} && !IsDigit(x)
    case Bracket(complement, es) =>
      es != [] && ElementsOk(es, true) && (!complement ==> ElementText(es[0])[0] != '^')
  }

  /** The text of a class is read up to its end and covers what the class covers. */
  lemma ClassMeans(pat: string, p: nat, k: Class)
    requires ClassOk(k) && Stands(pat, p, ClassText(k))
    ensures At(pat, p) == ClassText(k)[0] && (k.Escape? ==> At(pat, p + 1) == k.x)
    ensures At(pat, p) != '\0' && ItemEnd(pat, p) == Ends(p + |ClassText(k)|)
    ensures forall c :: Single(pat, p, p + |ClassText(k)|, c) <==> ClassCovers(k, c)
  {
    assert pat[p] == ClassText(k)[0];
    assert k.Escape? ==> pat[p + 1] == ClassText(k)[1];
    if k.Bracket? {
      BracketMeans(pat, p, k);
    }
  }

  lemma BracketMeans(pat: string, p: nat, k: Class)
    requires k.Bracket? && ClassOk(k) && Stands(pat, p, ClassText(k))
    ensures At(pat, p) == '[' && ItemEnd(pat, p) == Ends(p + |ClassText(k)|)
    ensures forall c :: MatchSet(pat, p, p + |ClassText(k)| - 1, c) <==> ClassCovers(k, c)
  {
    hide InSet, SetEnd, ElementsOk;
    var caret: string := if k.complement then ['^'] else [];
    var i := p + 1 + |caret|;
    StandsParts(pat, p, ['['] + caret, ElementsText(k.elements) + [']']);
    StandsParts(pat, p, ['['], caret);
    StandsParts(pat, i, ElementsText(k.elements), [']']);
    FirstFour(pat, p, ['[']);
    FirstFour(pat, i + |ElementsText(k.elements)|, [']']);
    assert k.complement ==> pat[p + 1] == caret[0];
    NextElement(pat, i, k.elements);
    SetEndMeans(pat, i, k.elements, true);
    forall c ensures InSet(pat, i, i + |ElementsText(k.elements)|, c) <==> ElementsCover(k.elements, c) {
      InSetMeans(pat, i, k.elements, true, c);
    }
  }

  // ----------------------------------------------------------------- the parts

  /** How often a single-character part is taken, and which count comes first. */
  datatype Suffix = Once | Question | Star | Plus | Minus

  datatype Part =
    | Open
    | Close
    | Position
    | Pair(x: char, y: char)
    | Border(k: Class)
    | Back(digit: char)
    | Chars(k: Class, f: Suffix)

  function SuffixText(f: Suffix): string {
    match f
    case Once => ""
    case Question => "?"
    case Star => "*"
    case Plus => "+"
    case Minus => "-"
  }

  function PartText(x: Part): (s: string)
    ensures s != []
  {
    match x
    case Open => "("
    case Close => ")"
    case Position => "()"
    case Pair(x, y) => [ESC, 'b', x, y]
    case Border(k) => [ESC, 'f'] + ClassText(k)
    case Back(d) => [ESC, d]
    case Chars(k, f) => ClassText(k) + SuffixText(f)
  }

  /** A pattern: its parts, and perhaps a dollar sign that holds it to the end of the subject. */
  function Text(parts: seq<Part>, anchored: bool): string {
    if parts == [] then (if anchored then "$" else "") else PartText(parts[0]) + Text(parts[1..], anchored)
  }

  /** What may stand before the character `next`, or at the end, where that is zero. */
  predicate PartOk(x: Part, next: char) {
    match x
    case Open => next != ')'
    case Close => true
    case Position => true
    case Pair(x, y) => x != '\0' && y != '\0'
    case Border(k) => k.Bracket? && ClassOk(k)
    case Back(d) => IsDigit(d)
    case Chars(k, f) =>
      ClassOk(k) && (f.Once? ==> next !in {'?', '*', '+', '-'} && (k == Plain('$') ==> next != '\0'))
  }

  predicate PartsOk(parts: seq<Part>, anchored: bool) {
    parts != [] ==> PartOk(parts[0], At(Text(parts[1..], anchored), 0)) && PartsOk(parts[1..], anchored)
  }

  /** The item that a part is read as, when it stands from `p` to `next`. */
  predicate ReadAs(pat: string, p: nat, x: Part, next: nat) {
    match x
    case Open => ItemAt(pat, p) == OpenCapture(CAP_UNFINISHED, next)
    case Close => ItemAt(pat, p) == CloseCapture(next)
    case Position => ItemAt(pat, p) == OpenCapture(CAP_POSITION, next)
    case Pair(x, y) => ItemAt(pat, p) == Balance(next) && At(pat, p + 2) == x && At(pat, p + 3) == y
    case Border(_) => ItemAt(pat, p) == Frontier(p + 2, next)
    case Back(d) => ItemAt(pat, p) == BackReference(d as int - '1' as int, next)
    case Chars(_, Once) => ItemAt(pat, p) == One(next)
    case Chars(k, Question) => ItemAt(pat, p) == Repeated(Optional, p + |ClassText(k)|, next)
    case Chars(k, Star) => ItemAt(pat, p) == Repeated(Greedy, p + |ClassText(k)|, next)
    case Chars(k, Plus) => ItemAt(pat, p) == Repeated(GreedyPlus, p + |ClassText(k)|, next)
    case Chars(k, Minus) => ItemAt(pat, p) == Repeated(Lazy, p + |ClassText(k)|, next)
  }

  lemma PartReadAs(pat: string, p: nat, x: Part)
    requires Stands(pat, p, PartText(x)) && PartOk(x, At(pat, p + |PartText(x)|))
    ensures ReadAs(pat, p, x, p + |PartText(x)|)
  {
    hide InSet, SetEnd, ElementsOk, ItemEnd, ClassText, ClassOk;
    assert forall i :: 0 <= i < |PartText(x)| ==> pat[p + i] == PartText(x)[i];
    match x {
      case Chars(k, f) => CharsReadAs(pat, p, k, f);
      case Border(k) => BorderReadAs(pat, p, k);
      case Pair(_, _) => FirstFour(pat, p, PartText(x));
      case _ => FirstFour(pat, p, PartText(x));
    }
  }

  lemma FirstFour(pat: string, p: nat, q: string)
    requires Stands(pat, p, q)
    ensures |q| > 0 ==> At(pat, p) == q[0]
    ensures |q| > 1 ==> At(pat, p + 1) == q[1]
    ensures |q| > 2 ==> At(pat, p + 2) == q[2]
    ensures |q| > 3 ==> At(pat, p + 3) == q[3]
  {
    assert |q| > 0 ==> pat[p + 0] == q[0];
  }

  lemma BorderReadAs(pat: string, p: nat, k: Class)
    requires k.Bracket? && ClassOk(k) && Stands(pat, p, [ESC, 'f'] + ClassText(k))
    ensures ItemAt(pat, p) == Frontier(p + 2, p + 2 + |ClassText(k)|)
  {
    hide SetEnd, ItemEnd, ClassText, ClassOk;
    StandsParts(pat, p, [ESC, 'f'], ClassText(k));
    FirstFour(pat, p, [ESC, 'f']);
    ClassMeans(pat, p + 2, k);
    BracketFirst(k);
  }

  lemma BracketFirst(k: Class)
    requires k.Bracket?
    ensures ClassText(k)[0] == '['
  {
  }

  lemma CharsReadAs(pat: string, p: nat, k: Class, f: Suffix)
    requires PartOk(Chars(k, f), At(pat, p + |ClassText(k)| + |SuffixText(f)|))
    requires Stands(pat, p, ClassText(k) + SuffixText(f))
    ensures ReadAs(pat, p, Chars(k, f), p + |ClassText(k)| + |SuffixText(f)|)
  {
    hide ItemEnd, ElementsText, ElementsOk;
    StandsParts(pat, p, ClassText(k), SuffixText(f));
    FirstFour(pat, p + |ClassText(k)|, SuffixText(f));
    ClassMeans(pat, p, k);
    assert ItemAt(pat, p) == SingleItem(pat, p);
  }

  // -------------------------------------------------------- what the parts match

  predicate CountOk(f: Suffix, n: nat) {
    match f
    case Once => n == 1
    case Question => n <= 1
    case Star => true
    case Plus => n >= 1
    case Minus => true
  }

  /** Capture `l` is the one that was opened last of those still open. */
  ghost predicate Innermost(caps: seq<Capture>, l: nat) {
    && l < |caps| && caps[l].len == CAP_UNFINISHED
    && forall i :: l < i < |caps| ==> caps[i].len != CAP_UNFINISHED
  }

  ghost predicate AllOf(k: Class, src: string, s: nat, n: nat) {
    s + n <= |src| && forall i :: s <= i < s + n ==> ClassCovers(k, src[i])
  }

  /** The class covers the character behind `s`, but not the one before; zero stands at both ends. */
  ghost predicate AtBorder(k: Class, src: string, s: nat)
    requires s <= |src|
  {
    && !ClassCovers(k, if s == 0 then '\0' else src[s - 1])
    && ClassCovers(k, if s == |src| then '\0' else src[s])
  }

  /** One part takes the subject from `s` to `s2`; it finds the captures `caps` and leaves `caps2`. */
  ghost predicate PartTakes(x: Part, src: string, s: nat, caps: seq<Capture>, s2: nat, caps2: seq<Capture>)
    requires s <= |src|
  {
    && s2 <= |src|
    && match x
       case Open => s2 == s && |caps| < MAXCAPTURES && caps2 == caps + [Capture(s, CAP_UNFINISHED)]
       case Position => s2 == s && |caps| < MAXCAPTURES && caps2 == caps + [Capture(s, CAP_POSITION)]
       case Close =>
         s2 == s && exists l: nat :: Innermost(caps, l) && caps2 == caps[l := Capture(caps[l].init, s - caps[l].init)]
       case Pair(x, y) => caps2 == caps && BalancedAt(src, s, x, y, s2)
       case Border(k) => s2 == s && caps2 == caps && AtBorder(k, src, s)
       case Back(d) =>
         var l := d as int - '1' as int;
         caps2 == caps && 0 <= l < |caps| && 0 <= caps[l].len && s2 == s + caps[l].len && Recurs(src, caps, l, s)
       case Chars(k, f) => caps2 == caps && s <= s2 && CountOk(f, s2 - s) && AllOf(k, src, s, s2 - s)
  }

  /**
  The parts match the subject from `s` to `e`, with captures `caps` before and `caps2` behind. Nothing is said of how
  the pattern is written or of the order in which matches are tried.
  */
  ghost predicate Takes(parts: seq<Part>, anchored: bool, src: string, s: nat, caps: seq<Capture>, e: nat,
                        caps2: seq<Capture>)
    requires s <= |src|
    decreases |parts|
  {
    if parts == [] then e == s && caps2 == caps && (anchored ==> s == |src|)
    else
      exists s2: nat, mid ::
        && PartTakes(parts[0], src, s, caps, s2, mid)
        && s2 <= |src| && Takes(parts[1..], anchored, src, s2, mid, e, caps2)
  }

  /** The pattern from `p` to its end is the text of `parts`. */
  ghost predicate Remains(pat: string, p: nat, parts: seq<Part>, anchored: bool) {
    PartsOk(parts, anchored) && Stands(pat, p, Text(parts, anchored)) && p + |Text(parts, anchored)| == |pat|
  }

  lemma RemainsEnd(pat: string, p: nat, anchored: bool)
    requires Remains(pat, p, [], anchored)
    ensures ItemAt(pat, p) == if anchored then EndAnchor else End
  {
    FirstFour(pat, p, Text([], anchored));
  }

  lemma RemainsNext(pat: string, p: nat, parts: seq<Part>, anchored: bool)
    requires parts != [] && Remains(pat, p, parts, anchored)
    ensures Stands(pat, p, PartText(parts[0])) && p + |PartText(parts[0])| <= |pat|
    ensures ReadAs(pat, p, parts[0], p + |PartText(parts[0])|)
    ensures PartOk(parts[0], At(pat, p + |PartText(parts[0])|))
    ensures Remains(pat, p + |PartText(parts[0])|, parts[1..], anchored)
  {
    hide PartText, ReadAs, PartOk, Text, PartsOk, Stands;
    TextNext(parts, anchored);
    var behind := Text(parts[1..], anchored);
    var next := p + |PartText(parts[0])|;
    StandsParts(pat, p, PartText(parts[0]), behind);
    StandsWithin(pat, p, PartText(parts[0]));
    FirstFour(pat, next, behind);
    assert At(pat, next) == At(behind, 0);
    PartReadAs(pat, p, parts[0]);
  }

  lemma TextNext(parts: seq<Part>, anchored: bool)
    requires parts != []
    ensures Text(parts, anchored) == PartText(parts[0]) + Text(parts[1..], anchored)
    ensures PartsOk(parts, anchored) <==>
      PartOk(parts[0], At(Text(parts[1..], anchored), 0)) && PartsOk(parts[1..], anchored)
  {
    hide PartText, PartOk;
  }

  lemma StandsWithin(pat: string, p: nat, q: string)
    requires Stands(pat, p, q)
    ensures p + |q| <= |pat|
  {
  }

  // ------------------------------------------------------------------ the theorem

  /** A single-character item covers what its class covers. */
  lemma CharsCover(src: string, pat: string, s: nat, n: nat, p: nat, k: Class)
    requires ClassOk(k) && Stands(pat, p, ClassText(k))
    ensures AllOf(k, src, s, n) <==> s + n <= |src| && AllCovered(src, pat, s, n, p, p + |ClassText(k)|)
    ensures AllOf(k, src, s, 1) <==> Covers(src, pat, s, p, p + |ClassText(k)|)
  {
    hide ClassText, ClassOk, Single, ClassCovers;
    ClassMeans(pat, p, k);
    if s + n <= |src| {
      forall i | s <= i < s + n ensures Covers(src, pat, i, p, p + |ClassText(k)|) <==> ClassCovers(k, src[i]) {
      }
    }
  }

  lemma BorderMeans(src: string, pat: string, s: nat, p: nat, k: Class)
    requires s <= |src| && ClassOk(k) && k.Bracket? && Stands(pat, p, ClassText(k))
    ensures AtFrontier(src, pat, s, p, p + |ClassText(k)|) <==> AtBorder(k, src, s)
  {
    hide ClassText, ClassOk, MatchSet, ClassCovers;
    BracketMeans(pat, p, k);
  }

  /** How a replay goes on behind the part that stands at `p`. */
  lemma ReplayMark(x: Part, src: string, pat: string, s: nat, p: nat, caps: seq<Capture>, counts: seq<nat>)
    requires s <= |src| && Stands(pat, p, PartText(x)) && ReadAs(pat, p, x, p + |PartText(x)|)
    ensures var next := p + |PartText(x)|;
      match x
      case Open => Replay(src, pat, s, p, caps, counts) ==
        if |caps| < MAXCAPTURES then Replay(src, pat, s, next, caps + [Capture(s, CAP_UNFINISHED)], counts) else None
      case Position => Replay(src, pat, s, p, caps, counts) ==
        if |caps| < MAXCAPTURES then Replay(src, pat, s, next, caps + [Capture(s, CAP_POSITION)], counts) else None
      case Close =>
        var l := LastOpen(caps);
        Replay(src, pat, s, p, caps, counts) ==
        if l < |caps| then Replay(src, pat, s, next, caps[l := Capture(caps[l].init, s - caps[l].init)], counts)
        else None
      case Back(d) =>
        var l := d as int - '1' as int;
        Replay(src, pat, s, p, caps, counts) ==
        if 0 <= l < |caps| && 0 <= caps[l].len && Recurs(src, caps, l, s)
        then Replay(src, pat, s + caps[l].len, next, caps, counts) else None
      case _ => true
  {
    hide ItemAt, ClassText, PartText;
  }

  lemma ReplayPair(x: char, y: char, src: string, pat: string, s: nat, p: nat, caps: seq<Capture>, counts: seq<nat>)
    requires s <= |src| && ReadAs(pat, p, Pair(x, y), p + 4)
    ensures Replay(src, pat, s, p, caps, counts).Some? ==> Balanced(src, s, x, y).Some?
    ensures forall k: nat :: BalancedAt(src, s, x, y, k) ==>
      Balanced(src, s, x, y) == Some(k)
      && Replay(src, pat, s, p, caps, counts) == Replay(src, pat, k, p + 4, caps, counts)
    ensures Balanced(src, s, x, y).Some? ==> BalancedAt(src, s, x, y, Balanced(src, s, x, y).value)
  {
    hide ItemAt, BalancedAt, Balanced;
    BalancedMeaning(src, s, x, y);
  }

  lemma ReplayBorder(k: Class, src: string, pat: string, s: nat, p: nat, caps: seq<Capture>, counts: seq<nat>)
    requires s <= |src| && PartOk(Border(k), At(pat, p + 2 + |ClassText(k)|)) && Stands(pat, p, PartText(Border(k)))
    ensures Replay(src, pat, s, p, caps, counts) ==
      if AtBorder(k, src, s) then Replay(src, pat, s, p + 2 + |ClassText(k)|, caps, counts) else None
  {
    hide ItemAt, ClassText, ClassOk, AtBorder, AtFrontier;
    PartReadAs(pat, p, Border(k));
    StandsParts(pat, p, [ESC, 'f'], ClassText(k));
    BorderMeans(src, pat, s, p + 2, k);
  }

  lemma ReplayChars(k: Class, f: Suffix, src: string, pat: string, s: nat, p: nat, caps: seq<Capture>, counts: seq<nat>)
    requires s <= |src| && Stands(pat, p, PartText(Chars(k, f)))
    requires PartOk(Chars(k, f), At(pat, p + |PartText(Chars(k, f))|))
    ensures var next := p + |PartText(Chars(k, f))|;
      Replay(src, pat, s, p, caps, counts) ==
      if f.Once? then if AllOf(k, src, s, 1) then Replay(src, pat, s + 1, next, caps, counts) else None
      else if counts != [] && CountOk(f, counts[0]) && AllOf(k, src, s, counts[0])
      then Replay(src, pat, s + counts[0], next, caps, counts[1..]) else None
  {
    hide ItemAt, ClassText, ClassOk, AllOf, AllCovered, Covers;
    PartReadAs(pat, p, Chars(k, f));
    StandsParts(pat, p, ClassText(k), SuffixText(f));
    CharsCover(src, pat, s, if f.Once? || counts == [] then 1 else counts[0], p, k);
  }

  /** The first step of a replay of the text, and the counts that are left for the others. */
  lemma ReplayPart(x: Part, src: string, pat: string, s: nat, p: nat, caps: seq<Capture>, counts: seq<nat>)
    returns (s2: nat, mid: seq<Capture>, rest: seq<nat>)
    requires s <= |src| && Stands(pat, p, PartText(x)) && PartOk(x, At(pat, p + |PartText(x)|))
    requires Replay(src, pat, s, p, caps, counts).Some?
    ensures PartTakes(x, src, s, caps, s2, mid)
    ensures Replay(src, pat, s, p, caps, counts) == Replay(src, pat, s2, p + |PartText(x)|, mid, rest)
  {
    hide ItemAt, ReadAs, ClassText, ClassOk, AtBorder, BalancedAt, Replay, Balanced;
    PartReadAs(pat, p, x);
    s2, mid, rest := s, caps, counts;
    match x {
      case Open =>
        ReplayMark(x, src, pat, s, p, caps, counts);
        mid := caps + [Capture(s, CAP_UNFINISHED)];
      case Position =>
        ReplayMark(x, src, pat, s, p, caps, counts);
        mid := caps + [Capture(s, CAP_POSITION)];
      case Close =>
        ReplayMark(x, src, pat, s, p, caps, counts);
        var l := LastOpen(caps);
        assert Innermost(caps, l);
        mid := caps[l := Capture(caps[l].init, s - caps[l].init)];
      case Back(d) =>
        ReplayMark(x, src, pat, s, p, caps, counts);
        s2 := s + caps[d as int - '1' as int].len;
      case Pair(x, y) =>
        ReplayPair(x, y, src, pat, s, p, caps, counts);
        s2 := Balanced(src, s, x, y).value;
      case Border(k) => ReplayBorder(k, src, pat, s, p, caps, counts);
      case Chars(k, f) =>
        ReplayChars(k, f, src, pat, s, p, caps, counts);
        s2, rest := s + (if f.Once? then 1 else counts[0]), if f.Once? then counts else counts[1..];
    }
  }

  /** Whatever a part takes, the text of the part takes, with some count before the others. */
  lemma PartReplay(x: Part, src: string, pat: string, s: nat, p: nat, caps: seq<Capture>, s2: nat, mid: seq<Capture>,
                   rest: seq<nat>) returns (counts: seq<nat>)
    requires s <= |src| && Stands(pat, p, PartText(x)) && PartOk(x, At(pat, p + |PartText(x)|))
    requires PartTakes(x, src, s, caps, s2, mid)
    ensures Replay(src, pat, s, p, caps, counts) == Replay(src, pat, s2, p + |PartText(x)|, mid, rest)
  {
    hide ItemAt, ReadAs, ClassText, ClassOk, AtBorder, BalancedAt, Replay, Balanced, AllOf;
    PartReadAs(pat, p, x);
    counts := rest;
    match x {
      case Open => ReplayMark(x, src, pat, s, p, caps, counts);
      case Position => ReplayMark(x, src, pat, s, p, caps, counts);
      case Close =>
        ReplayMark(x, src, pat, s, p, caps, counts);
        var l: nat :| Innermost(caps, l) && mid == caps[l := Capture(caps[l].init, s - caps[l].init)];
        InnermostIs(caps, l);
      case Back(_) => ReplayMark(x, src, pat, s, p, caps, counts);
      case Pair(x, y) => ReplayPair(x, y, src, pat, s, p, caps, counts);
      case Border(k) => ReplayBorder(k, src, pat, s, p, caps, counts);
      case Chars(k, f) =>
        counts := if f.Once? then rest else [s2 - s] + rest;
        ReplayChars(k, f, src, pat, s, p, caps, counts);
        assert !f.Once? ==> counts[1..] == rest;
    }
  }

  lemma ReplayEnd(anchored: bool, src: string, pat: string, s: nat, p: nat, caps: seq<Capture>, counts: seq<nat>)
    requires s <= |src| && Remains(pat, p, [], anchored)
    ensures Replay(src, pat, s, p, caps, counts) ==
      if counts == [] && (anchored ==> s == |src|) then Some((s, caps)) else None
  {
    hide ItemAt;
    RemainsEnd(pat, p, anchored);
  }

  lemma InnermostIs(caps: seq<Capture>, l: nat)
    requires Innermost(caps, l)
    ensures LastOpen(caps) == l
  {
  }

  /** What a replay of the text takes, the parts take. */
  lemma {:induction false} ReplayTakes(parts: seq<Part>, anchored: bool, src: string, pat: string, s: nat, p: nat,
                                       caps: seq<Capture>, counts: seq<nat>)
    requires s <= |src| && Remains(pat, p, parts, anchored) && Replay(src, pat, s, p, caps, counts).Some?
    ensures var (e, caps2) := Replay(src, pat, s, p, caps, counts).value;
      Takes(parts, anchored, src, s, caps, e, caps2)
    decreases |parts|
  {
    hide ItemAt, Remains, ReadAs, Replay, PartOk, PartTakes;
    if parts == [] {
      ReplayEnd(anchored, src, pat, s, p, caps, counts);
    } else {
      RemainsNext(pat, p, parts, anchored);
      var s2, mid, rest := ReplayPart(parts[0], src, pat, s, p, caps, counts);
      PartEnd(parts[0], src, s, caps, s2, mid);
      ReplayTakes(parts[1..], anchored, src, pat, s2, p + |PartText(parts[0])|, mid, rest);
    }
  }

  lemma PartEnd(x: Part, src: string, s: nat, caps: seq<Capture>, s2: nat, mid: seq<Capture>)
    requires s <= |src| && PartTakes(x, src, s, caps, s2, mid)
    ensures s2 <= |src|
  {
  }

  /** What the parts take, a replay of the text takes. */
  lemma {:induction false} TakesReplay(parts: seq<Part>, anchored: bool, src: string, pat: string, s: nat, p: nat,
                                       caps: seq<Capture>, e: nat, caps2: seq<Capture>) returns (counts: seq<nat>)
    requires s <= |src| && Remains(pat, p, parts, anchored) && Takes(parts, anchored, src, s, caps, e, caps2)
    ensures Replay(src, pat, s, p, caps, counts) == Some((e, caps2))
    decreases |parts|
  {
    hide ItemAt, Remains, ReadAs, Replay, PartOk, PartTakes;
    if parts == [] {
      counts := [];
      ReplayEnd(anchored, src, pat, s, p, caps, counts);
    } else {
      RemainsNext(pat, p, parts, anchored);
      var s2: nat, mid :| PartTakes(parts[0], src, s, caps, s2, mid)
        && (s2 <= |src| && Takes(parts[1..], anchored, src, s2, mid, e, caps2));
      var rest := TakesReplay(parts[1..], anchored, src, pat, s2, p + |PartText(parts[0])|, mid, e, caps2);
      counts := PartReplay(parts[0], src, pat, s, p, caps, s2, mid, rest);
    }
  }

  /**
  A pattern, or what is left of it from `p` on, means what its parts mean: what the matcher finds the parts take, and
  where it fails they take nothing.
  */
  lemma MeansItsParts(parts: seq<Part>, anchored: bool, src: string, pat: string, s: nat, p: nat, caps: seq<Capture>)
    requires s <= |src| && Remains(pat, p, parts, anchored)
    ensures var m := FirstMatch(src, pat, s, p, caps);
      && (m.Found? ==> Takes(parts, anchored, src, s, caps, m.end, m.caps))
      && (m.Fail? ==> forall e, caps2 :: !Takes(parts, anchored, src, s, caps, e, caps2))
  {
    hide Takes, Replay, FirstMatch, Remains;
    var counts := FirstMatchIsPreferred(src, pat, s, p, caps);
    var m := FirstMatch(src, pat, s, p, caps);
    if m.Found? {
      ReplayTakes(parts, anchored, src, pat, s, p, caps, counts);
    } else if m.Fail? {
      forall e, caps2 ensures !Takes(parts, anchored, src, s, caps, e, caps2) {
        if Takes(parts, anchored, src, s, caps, e, caps2) {
          var other := TakesReplay(parts, anchored, src, pat, s, p, caps, e, caps2);
        }
      }
    }
  }

  /** The text of parts is such a pattern. */
  lemma TextRemains(parts: seq<Part>, anchored: bool)
    requires PartsOk(parts, anchored)
    ensures Remains(Text(parts, anchored), 0, parts, anchored)
  {
  }

  // ------------------------------------------------------------ the class letters

  const DIGITS := "0123456789"
  const SPACES := [9 as char, 10 as char, 11 as char, 12 as char, 13 as char, 32 as char]

  /** The classes of the C locale that are listed. */
  lemma ClassLists(c: char)
    ensures MatchClass(c, 'd') <==> c in DIGITS
    ensures MatchClass(c, 's') <==> c in SPACES
    ensures MatchClass(c, 'x') <==> c in DIGITS || c in "abcdef" || c in "ABCDEF"
    ensures MatchClass(c, 'z') <==> c as int == 0
  {
  }

  lemma Punctuation(c: char)
    ensures MatchClass(c, 'p') <==>
      c in "!\"#$%&'()*+,-./" || c in ":;<=>?@" || c in "[\\]^_`" || c in "{|}~"
  {
    Run("!\"#$%&'()*+,-./", c);
    Run(":;<=>?@", c);
    Run("[\\]^_`", c);
    Run("{|}~", c);
  }

  /** Characters that follow one another. */
  lemma Run(q: string, c: char)
    requires q != [] && forall i :: 0 <= i < |q| ==> q[i] as int == q[0] as int + i
    ensures c in q <==> q[0] <= c <= q[|q| - 1]
  {
    if q[0] <= c <= q[|q| - 1] {
      assert q[c as int - q[0] as int] == c;
    }
  }

  /** The letters, and the classes that are made of others. */
  lemma ClassUnions(c: char)
    ensures MatchClass(c, 'l') <==> 'a' <= c <= 'z'
    ensures MatchClass(c, 'u') <==> 'A' <= c <= 'Z'
    ensures MatchClass(c, 'a') <==> MatchClass(c, 'l') || MatchClass(c, 'u')
    ensures MatchClass(c, 'w') <==> MatchClass(c, 'a') || MatchClass(c, 'd')
    ensures MatchClass(c, 'c') <==> c as int < 128 && c != ' ' && !MatchClass(c, 'p') && !MatchClass(c, 'w')
  {
  }

  /** A class letter in upper case is the complement; any other character behind a percent sign is itself. */
  lemma ClassComplements(c: char, x: char)
    ensures x in "acdlpsuwxz" ==> MatchClass(c, (x as int - 32) as char) == !MatchClass(c, x)
    ensures x !in "acdlpsuwxzACDLPSUWXZ" ==> (MatchClass(c, x) <==> c == x)
  {
  }
}
