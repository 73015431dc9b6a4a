/**
What it means for a pattern to match, and which match comes first.

A match is determined by how often each repeated item of the pattern is taken:
`Replay` checks a given choice of counts. The preferred choice is the first in
lexicographic order, where a lazy item prefers fewer repetitions and every other
item prefers more. `FirstMatch` searches by backtracking, without any state, and
the theorem `FirstMatchIsPreferred` says that it finds exactly that choice.
*/
module PatternSpec {
  import opened Pattern

  const MAXCAPTURES: nat := 32

  /** A capture: where it starts, and its length or CAP_UNFINISHED or CAP_POSITION. */
  datatype Capture = Capture(init: nat, len: int)

  datatype Match = Fail | Found(end: nat, caps: seq<Capture>) | Error(error: PatternError)

  datatype Option<T> = None | Some(value: T)

  /** Captures lie before position `s` of the subject. */
  ghost predicate CapsOk(src: string, caps: seq<Capture>, s: nat) {
    s <= |src| && forall i :: 0 <= i < |caps| ==> caps[i].init <= s && caps[i].init + caps[i].len <= s
  }

  // ------------------------------------------------- items without repetition

  /** The excess of openings over closings in `src[i..j]`, a closing being recognised first. */
  function Excess(src: string, i: nat, j: nat, b: char, e: char): int
    requires i <= j <= |src|
    decreases j - i
  {
    if i == j then 0
    else Excess(src, i, j - 1, b, e) + (if src[j - 1] == e then -1 else if src[j - 1] == b then 1 else 0)
  }

  /** At `j`, the delimiter at `s` has not been balanced yet. */
  predicate StillOpen(src: string, s: nat, j: nat, b: char, e: char)
    requires s < j <= |src|
  {
    1 + Excess(src, s + 1, j, b, e) > 0
  }

  /** `k` is the first position behind `s` by which the delimiter at `s` has been balanced. */
  ghost predicate BalancedAt(src: string, s: nat, b: char, e: char, k: nat) {
    && s < k <= |src| && src[s] == b
    && 1 + Excess(src, s + 1, k, b, e) == 0
    && forall j :: s < j < k ==> StillOpen(src, s, j, b, e)
  }

  /** The index of the innermost capture still open, or the number of captures. */
  function LastOpen(caps: seq<Capture>): (l: nat)
    ensures l <= |caps|
    ensures l < |caps| ==> caps[l].len == CAP_UNFINISHED && forall i :: l < i < |caps| ==> caps[i].len != CAP_UNFINISHED
    ensures l == |caps| ==> forall i :: 0 <= i < |caps| ==> caps[i].len != CAP_UNFINISHED
  {
    if caps == [] then 0
    else
      var n := |caps| - 1;
      if caps[n].len == CAP_UNFINISHED then n
      else
        var l := LastOpen(caps[..n]);
        if l < n then l else |caps|
  }

  /** The text of a finished capture recurs at `s`; a position capture never does. */
  predicate Recurs(src: string, caps: seq<Capture>, l: nat, s: nat)
    requires l < |caps|
  {
    var c := caps[l];
    && 0 <= c.len && s + c.len <= |src| && c.init + c.len <= |src|
    && src[c.init..c.init + c.len] == src[s..s + c.len]
  }

  predicate AtFrontier(src: string, pat: string, s: nat, p: nat, ep: nat) {
    && ep > 0
    && !MatchSet(pat, p, ep - 1, if s == 0 then '\0' else At(src, s - 1))
    && MatchSet(pat, p, ep - 1, At(src, s))
  }

  /** `src[s]` exists and the single-character item covers it. */
  predicate Covers(src: string, pat: string, s: nat, p: nat, ep: nat) {
    s < |src| && Single(pat, p, ep, src[s])
  }

  /** How many characters from `s` on the single-character item covers. */
  function CountCovered(src: string, pat: string, s: nat, p: nat, ep: nat): (n: nat)
    requires s <= |src|
    ensures s + n <= |src|
    ensures forall k :: s <= k < s + n ==> Covers(src, pat, k, p, ep)
    ensures !Covers(src, pat, s + n, p, ep)
    decreases |src| - s
  {
    if Covers(src, pat, s, p, ep) then 1 + CountCovered(src, pat, s + 1, p, ep) else 0
  }

  /** The end of the balanced text at `s`, if there is one; see `BalancedAt`. */
  function BalanceEnd(src: string, i: nat, cont: nat, b: char, e: char): (r: Option<nat>)
    requires i <= |src| && cont > 0
    ensures r.Some? ==> i < r.value <= |src|
    decreases |src| - i
  {
    if i == |src| then None
    else if src[i] == e then (if cont == 1 then Some(i + 1) else BalanceEnd(src, i + 1, cont - 1, b, e))
    else if src[i] == b then BalanceEnd(src, i + 1, cont + 1, b, e)
    else BalanceEnd(src, i + 1, cont, b, e)
  }

  function Balanced(src: string, s: nat, b: char, e: char): (r: Option<nat>)
    requires s <= |src|
    ensures r.Some? ==> s < r.value <= |src|
  {
    if s < |src| && src[s] == b then BalanceEnd(src, s + 1, 1, b, e) else None
  }

  lemma {:induction false} ExcessLeft(src: string, i: nat, j: nat, b: char, e: char)
    requires i < j <= |src|
    ensures Excess(src, i, j, b, e) == (if src[i] == e then -1 else if src[i] == b then 1 else 0) + Excess(src, i + 1, j, b, e)
    decreases j
  {
    if j > i + 1 {
      ExcessLeft(src, i, j - 1, b, e);
    } else {
      assert Excess(src, i, i, b, e) == 0;
    }
  }

  lemma {:induction false} BalanceEndMeaning(src: string, i: nat, cont: nat, b: char, e: char)
    requires i <= |src| && cont > 0
    ensures var r := BalanceEnd(src, i, cont, b, e);
            && (r.Some? ==> cont + Excess(src, i, r.value, b, e) == 0)
            && (forall j :: i <= j <= |src| && (r.Some? ==> j < r.value) ==> cont + Excess(src, i, j, b, e) > 0)
    decreases |src| - i
  {
    if i < |src| {
      var step := if src[i] == e then -1 else if src[i] == b then 1 else 0;
      forall j | i < j <= |src| ensures Excess(src, i, j, b, e) == step + Excess(src, i + 1, j, b, e) {
        ExcessLeft(src, i, j, b, e);
      }
      if !(src[i] == e && cont == 1) {
        BalanceEndMeaning(src, i + 1, cont + step, b, e);
      }
    }
  }

  /** The matcher's count finds the first balanced end, and finds one if there is one. */
  lemma BalancedMeaning(src: string, s: nat, b: char, e: char)
    requires s <= |src|
    ensures forall k: nat :: Balanced(src, s, b, e) == Some(k) <==> BalancedAt(src, s, b, e, k)
  {
    if s < |src| && src[s] == b {
      BalanceEndMeaning(src, s + 1, 1, b, e);
      forall k: nat ensures Balanced(src, s, b, e) == Some(k) <==> BalancedAt(src, s, b, e, k) {
        var r := Balanced(src, s, b, e);
        if r.Some? && r.value < k {
          assert !StillOpen(src, s, r.value, b, e);
        }
      }
    }
  }

  // ---------------------------------------------------------------- replaying

  predicate AllCovered(src: string, pat: string, s: nat, n: nat, p: nat, ep: nat) {
    forall k :: s <= k < s + n ==> Covers(src, pat, k, p, ep)
  }

  /** The numbers of repetitions an item allows. */
  predicate Allowed(r: Repeat, n: nat) {
    match r
    case Optional => n <= 1
    case Greedy => true
    case GreedyPlus => n >= 1
    case Lazy => true
  }

  /**
  The match from subject position `s` and pattern position `p` in which the
  repeated items, in order, are taken as often as `counts` says: its end and its
  captures, or None if there is no such match.
  */
  function Replay(src: string, pat: string, s: nat, p: nat, caps: seq<Capture>, counts: seq<nat>): Option<(nat, seq<Capture>)>
    requires s <= |src|
    decreases |pat| - p
  {
    match ItemAt(pat, p)
    case End => if counts == [] then Some((s, caps)) else None
    case EndAnchor => if counts == [] && s == |src| then Some((s, caps)) else None
    case Invalid(_) => None
    case OpenCapture(what, next) =>
      if |caps| < MAXCAPTURES then Replay(src, pat, s, next, caps + [Capture(s, what)], counts) else None
    case CloseCapture(next) =>
      var l := LastOpen(caps);
      if l < |caps| then Replay(src, pat, s, next, caps[l := Capture(caps[l].init, s - caps[l].init)], counts) else None
    case Balance(next) =>
      (match Balanced(src, s, At(pat, p + 2), At(pat, p + 3))
       case None => None
       case Some(k) => Replay(src, pat, k, next, caps, counts))
    case Frontier(bracket, next) =>
      if AtFrontier(src, pat, s, bracket, next) then Replay(src, pat, s, next, caps, counts) else None
    case BackReference(l, next) =>
      if 0 <= l < |caps| && caps[l].len != CAP_UNFINISHED && Recurs(src, caps, l, s)
      then Replay(src, pat, s + caps[l].len, next, caps, counts) else None
    case One(next) =>
      if Covers(src, pat, s, p, next) then Replay(src, pat, s + 1, next, caps, counts) else None
    case Repeated(r, ep, next) =>
      if counts != [] && Allowed(r, counts[0]) && s + counts[0] <= |src| && AllCovered(src, pat, s, counts[0], p, ep)
      then Replay(src, pat, s + counts[0], next, caps, counts[1..]) else None
  }

  /** The repeated items from `p` on make the choice `a` come before the different choice `b`. */
  predicate Prefers(pat: string, p: nat, a: seq<nat>, b: seq<nat>)
    decreases |pat| - p
  {
    var i := ItemAt(pat, p);
    if !HasNext(i) then false
    else if i.Repeated? then
      a != [] && b != [] &&
      (if a[0] == b[0] then Prefers(pat, i.next, a[1..], b[1..])
       else if i.repeat.Lazy? then a[0] < b[0]
       else a[0] > b[0])
    else Prefers(pat, i.next, a, b)
  }

  // ----------------------------------------------------------- backtracking

  /** `match` without its state: captures are passed along and need no undoing. */
  function FirstMatch(src: string, pat: string, s: nat, p: nat, caps: seq<Capture>): Match
    requires s <= |src|
    decreases |pat| - p, 0, 0
  {
    match ItemAt(pat, p)
    case End => Found(s, caps)
    case EndAnchor => if s == |src| then Found(s, caps) else Fail
    case Invalid(e) => Error(e)
    case OpenCapture(what, next) =>
      if |caps| >= MAXCAPTURES then Error(TooManyCaptures)
      else FirstMatch(src, pat, s, next, caps + [Capture(s, what)])
    case CloseCapture(next) =>
      var l := LastOpen(caps);
      if l == |caps| then Error(InvalidPatternCapture)
      else FirstMatch(src, pat, s, next, caps[l := Capture(caps[l].init, s - caps[l].init)])
    case Balance(next) =>
      (match Balanced(src, s, At(pat, p + 2), At(pat, p + 3))
       case None => Fail
       case Some(k) => FirstMatch(src, pat, k, next, caps))
    case Frontier(bracket, next) =>
      if AtFrontier(src, pat, s, bracket, next) then FirstMatch(src, pat, s, next, caps) else Fail
    case BackReference(l, next) =>
      if l < 0 || l >= |caps| || caps[l].len == CAP_UNFINISHED then Error(InvalidCaptureIndex)
      else if Recurs(src, caps, l, s) then FirstMatch(src, pat, s + caps[l].len, next, caps)
      else Fail
    case One(next) =>
      if Covers(src, pat, s, p, next) then FirstMatch(src, pat, s + 1, next, caps) else Fail
    case Repeated(Optional, ep, next) =>
      var r := if Covers(src, pat, s, p, ep) then FirstMatch(src, pat, s + 1, next, caps) else Fail;
      if r != Fail then r else FirstMatch(src, pat, s, next, caps)
    case Repeated(Greedy, ep, next) =>
      LongestFirst(src, pat, s, CountCovered(src, pat, s, p, ep), next, caps)
    case Repeated(GreedyPlus, ep, next) =>
      if Covers(src, pat, s, p, ep) then
        LongestFirst(src, pat, s + 1, CountCovered(src, pat, s + 1, p, ep), next, caps)
      else Fail
    case Repeated(Lazy, ep, next) => ShortestFirst(src, pat, s, p, ep, next, caps)
  }

  /** `max_expand` after counting: try `i` repetitions, then fewer. */
  function LongestFirst(src: string, pat: string, s: nat, i: nat, next: nat, caps: seq<Capture>): Match
    requires s + i <= |src|
    decreases |pat| - next, 1, i
  {
    var r := FirstMatch(src, pat, s + i, next, caps);
    if r != Fail || i == 0 then r else LongestFirst(src, pat, s, i - 1, next, caps)
  }

  /** `min_expand`: try no further repetition, then one more. */
  function ShortestFirst(src: string, pat: string, s: nat, p: nat, ep: nat, next: nat, caps: seq<Capture>): Match
    requires s <= |src|
    decreases |pat| - next, 1, |src| - s
  {
    var r := FirstMatch(src, pat, s, next, caps);
    if r != Fail then r
    else if Covers(src, pat, s, p, ep) then ShortestFirst(src, pat, s + 1, p, ep, next, caps)
    else Fail
  }

  // -------------------------------------------------------------- the theorem

  /** `counts` is a match, and every other match comes after it. */
  ghost predicate Preferred(src: string, pat: string, s: nat, p: nat, caps: seq<Capture>, counts: seq<nat>)
    requires s <= |src|
  {
    && Replay(src, pat, s, p, caps, counts).Some?
    && forall other :: Replay(src, pat, s, p, caps, other).Some? ==> other == counts || Prefers(pat, p, counts, other)
  }

  /** No choice of counts is a match. */
  ghost predicate NoReplay(src: string, pat: string, s: nat, p: nat, caps: seq<Capture>)
    requires s <= |src|
  {
    forall counts :: Replay(src, pat, s, p, caps, counts).None?
  }

  ghost predicate NoReplayAfter(src: string, pat: string, s: nat, k: nat, p: nat, caps: seq<Capture>) {
    s + k <= |src| ==> NoReplay(src, pat, s + k, p, caps)
  }

  /** What a search result says about the replays. */
  ghost predicate Agrees(m: Match, src: string, pat: string, s: nat, p: nat, caps: seq<Capture>, counts: seq<nat>)
    requires s <= |src|
  {
    match m
    case Fail => NoReplay(src, pat, s, p, caps)
    case Found(e, cs) => Preferred(src, pat, s, p, caps, counts) && Replay(src, pat, s, p, caps, counts) == Some((e, cs))
    case Error(_) => true
  }

  /**
  `FirstMatch` fails exactly when no choice of counts gives a match, and what it
  finds is the match of the preferred choice. An error says that the search met
  a malformed part of the pattern before it could finish.
  */
  lemma {:induction false} FirstMatchIsPreferred(src: string, pat: string, s: nat, p: nat, caps: seq<Capture>)
    returns (counts: seq<nat>)
    requires s <= |src|
    ensures Agrees(FirstMatch(src, pat, s, p, caps), src, pat, s, p, caps, counts)
    decreases |pat| - p, 3, 0
  {
    counts := [];
    match ItemAt(pat, p) {
      case End =>
      case EndAnchor =>
      case Invalid(e) =>
      case OpenCapture(what, next) =>
        if |caps| < MAXCAPTURES {
          counts := FirstMatchIsPreferred(src, pat, s, next, caps + [Capture(s, what)]);
        }
      case CloseCapture(next) =>
        var l := LastOpen(caps);
        if l < |caps| {
          counts := FirstMatchIsPreferred(src, pat, s, next, caps[l := Capture(caps[l].init, s - caps[l].init)]);
        }
      case Balance(next) =>
        var k := Balanced(src, s, At(pat, p + 2), At(pat, p + 3));
        if k.Some? {
          counts := FirstMatchIsPreferred(src, pat, k.value, next, caps);
        }
      case Frontier(bracket, next) =>
        if AtFrontier(src, pat, s, bracket, next) {
          counts := FirstMatchIsPreferred(src, pat, s, next, caps);
        }
      case BackReference(l, next) =>
        if 0 <= l < |caps| && caps[l].len != CAP_UNFINISHED && Recurs(src, caps, l, s) {
          counts := FirstMatchIsPreferred(src, pat, s + caps[l].len, next, caps);
        }
      case One(next) =>
        if Covers(src, pat, s, p, next) {
          counts := FirstMatchIsPreferred(src, pat, s + 1, next, caps);
        }
      case Repeated(r, ep, next) => counts := RepeatedIsPreferred(src, pat, s, p, caps);
    }
  }

  predicate CanTake(src: string, pat: string, s: nat, n: nat, p: nat, ep: nat, r: Repeat) {
    Allowed(r, n) && s + n <= |src| && AllCovered(src, pat, s, n, p, ep)
  }

  lemma CoveredCount(src: string, pat: string, s: nat, n: nat, p: nat, ep: nat)
    requires s <= |src|
    ensures s + n <= |src| && AllCovered(src, pat, s, n, p, ep) <==> n <= CountCovered(src, pat, s, p, ep)
  {
    var c := CountCovered(src, pat, s, p, ep);
    if n > c && s + n <= |src| {
      assert !Covers(src, pat, s + c, p, ep);
    }
  }

  /** A count for this item and the preferred choice for the rest make the preferred choice. */
  lemma TakeFirst(src: string, pat: string, s: nat, p: nat, caps: seq<Capture>, n: nat, rest: seq<nat>)
    requires s <= |src| && ItemAt(pat, p).Repeated?
    requires var i := ItemAt(pat, p);
             && CanTake(src, pat, s, n, p, i.ep, i.repeat)
             && Preferred(src, pat, s + n, i.next, caps, rest)
             && forall k: nat :: CanTake(src, pat, s, k, p, i.ep, i.repeat) && (if i.repeat.Lazy? then k < n else k > n) ==>
                  NoReplayAfter(src, pat, s, k, i.next, caps)
    ensures Replay(src, pat, s, p, caps, [n] + rest) == Replay(src, pat, s + n, ItemAt(pat, p).next, caps, rest)
    ensures Preferred(src, pat, s, p, caps, [n] + rest)
  {
    var i := ItemAt(pat, p);
    var counts := [n] + rest;
    assert counts[1..] == rest;
    forall other | Replay(src, pat, s, p, caps, other).Some? ensures other == counts || Prefers(pat, p, counts, other) {
      assert CanTake(src, pat, s, other[0], p, i.ep, i.repeat);
      assert Replay(src, pat, s + other[0], i.next, caps, other[1..]).Some?;
      assert !NoReplayAfter(src, pat, s, other[0], i.next, caps);
      if other[0] == n {
        assert other == [n] + other[1..];
      }
    }
  }

  lemma TakeNone(src: string, pat: string, s: nat, p: nat, caps: seq<Capture>)
    requires s <= |src| && ItemAt(pat, p).Repeated?
    requires var i := ItemAt(pat, p);
             forall k: nat :: CanTake(src, pat, s, k, p, i.ep, i.repeat) ==> NoReplayAfter(src, pat, s, k, i.next, caps)
    ensures NoReplay(src, pat, s, p, caps)
  {
    var i := ItemAt(pat, p);
    forall counts ensures Replay(src, pat, s, p, caps, counts).None? {
      if counts != [] && CanTake(src, pat, s, counts[0], p, i.ep, i.repeat) {
        assert NoReplayAfter(src, pat, s, counts[0], i.next, caps);
      }
    }
  }

  lemma {:induction false} RepeatedIsPreferred(src: string, pat: string, s: nat, p: nat, caps: seq<Capture>)
    returns (counts: seq<nat>)
    requires s <= |src| && ItemAt(pat, p).Repeated?
    ensures Agrees(FirstMatch(src, pat, s, p, caps), src, pat, s, p, caps, counts)
    decreases |pat| - p, 2, 0
  {
    var i := ItemAt(pat, p);
    match i.repeat {
      case Optional => counts := OptionalIsPreferred(src, pat, s, p, caps);
      case Greedy => counts := GreedyIsPreferred(src, pat, s, 0, p, caps);
      case GreedyPlus =>
        if Covers(src, pat, s, p, i.ep) {
          counts := GreedyIsPreferred(src, pat, s, 1, p, caps);
        } else {
          forall k: nat ensures !CanTake(src, pat, s, k, p, i.ep, i.repeat) {}
          TakeNone(src, pat, s, p, caps);
          counts := [];
        }
      case Lazy => counts := LazyIsPreferred(src, pat, s, p, caps);
    }
  }

  lemma {:induction false} OptionalIsPreferred(src: string, pat: string, s: nat, p: nat, caps: seq<Capture>)
    returns (counts: seq<nat>)
    requires s <= |src| && ItemAt(pat, p).Repeated? && ItemAt(pat, p).repeat == Optional
    ensures Agrees(FirstMatch(src, pat, s, p, caps), src, pat, s, p, caps, counts)
    decreases |pat| - p, 1, 0
  {
    hide Preferred, NoReplay;
    var i := ItemAt(pat, p);
    counts := [];
    if Covers(src, pat, s, p, i.ep) {
      var rest := FirstMatchIsPreferred(src, pat, s + 1, i.next, caps);
      var r := FirstMatch(src, pat, s + 1, i.next, caps);
      if r.Found? {
        counts := [1] + rest;
        TakeFirst(src, pat, s, p, caps, 1, rest);
        return;
      } else if r.Error? {
        return;
      }
    }
    var rest := FirstMatchIsPreferred(src, pat, s, i.next, caps);
    var r := FirstMatch(src, pat, s, i.next, caps);
    if r.Found? {
      counts := [0] + rest;
      TakeFirst(src, pat, s, p, caps, 0, rest);
    } else if r.Fail? {
      TakeNone(src, pat, s, p, caps);
    }
  }

  /** The repetitions from `low` on, the longest first. */
  lemma {:induction false} GreedyIsPreferred(src: string, pat: string, s: nat, low: nat, p: nat, caps: seq<Capture>)
    returns (counts: seq<nat>)
    requires s <= |src| && ItemAt(pat, p).Repeated?
    requires var i := ItemAt(pat, p);
             (i.repeat.Greedy? && low == 0) || (i.repeat.GreedyPlus? && low == 1 && Covers(src, pat, s, p, i.ep))
    ensures Agrees(FirstMatch(src, pat, s, p, caps), src, pat, s, p, caps, counts)
    decreases |pat| - p, 1, 0
  {
    hide Preferred, NoReplay, CanTake, NoReplayAfter, FirstMatch, LongestFirst, CountCovered, ItemAt;
    var i := ItemAt(pat, p);
    var c := CountCovered(src, pat, s + low, p, i.ep);
    GreedyRange(src, pat, s, low, p);
    var n, rest := LongestIsPreferred(src, pat, s + low, c, i.next, caps);
    counts := [low + n] + rest;
    forall k: nat ensures CanTake(src, pat, s, k, p, i.ep, i.repeat) <==> low <= k <= low + c {
      TakeFrom(src, pat, s, low, k, p, i.ep, i.repeat);
    }
    forall k: nat | low <= k
      ensures NoReplayAfter(src, pat, s, k, i.next, caps) == NoReplayAfter(src, pat, s + low, k - low, i.next, caps)
    {
      ShiftNoReplay(src, pat, s, low, k, i.next, caps);
    }
    var m := LongestFirst(src, pat, s + low, c, i.next, caps);
    GreedyFirst(src, pat, s, low, p, caps);
    if m.Found? {
      TakeFirst(src, pat, s, p, caps, low + n, rest);
    } else if m.Fail? {
      TakeNone(src, pat, s, p, caps);
    }
  }

  /** A greedy repetition tries the counts from the longest down. */
  lemma GreedyFirst(src: string, pat: string, s: nat, low: nat, p: nat, caps: seq<Capture>)
    requires s <= |src| && ItemAt(pat, p).Repeated?
    requires var i := ItemAt(pat, p);
             (i.repeat.Greedy? && low == 0) || (i.repeat.GreedyPlus? && low == 1 && Covers(src, pat, s, p, i.ep))
    ensures var i := ItemAt(pat, p);
            s + low + CountCovered(src, pat, s + low, p, i.ep) <= |src|
            && LongestFirst(src, pat, s + low, CountCovered(src, pat, s + low, p, i.ep), i.next, caps) == FirstMatch(src, pat, s, p, caps)
  {
  }

  lemma GreedyRange(src: string, pat: string, s: nat, low: nat, p: nat)
    requires s <= |src| && ItemAt(pat, p).Repeated?
    requires var i := ItemAt(pat, p);
             (i.repeat.Greedy? && low == 0) || (i.repeat.GreedyPlus? && low == 1 && Covers(src, pat, s, p, i.ep))
    ensures s + low <= |src| && s + low + CountCovered(src, pat, s + low, p, ItemAt(pat, p).ep) <= |src|
  {
  }

  lemma ShiftNoReplay(src: string, pat: string, s: nat, low: nat, k: nat, p: nat, caps: seq<Capture>)
    requires low <= k
    ensures NoReplayAfter(src, pat, s, k, p, caps) == NoReplayAfter(src, pat, s + low, k - low, p, caps)
  {
    assert s + k == s + low + (k - low);
  }

  lemma TakeFrom(src: string, pat: string, s: nat, low: nat, k: nat, p: nat, ep: nat, r: Repeat)
    requires s <= |src|
    requires (r.Greedy? && low == 0) || (r.GreedyPlus? && low == 1 && Covers(src, pat, s, p, ep))
    ensures CanTake(src, pat, s, k, p, ep, r) <==> low <= k <= low + CountCovered(src, pat, s + low, p, ep)
  {
    CoveredCount(src, pat, s, k, p, ep);
  }

  lemma {:induction false} LongestIsPreferred(src: string, pat: string, s: nat, i: nat, next: nat, caps: seq<Capture>)
    returns (n: nat, rest: seq<nat>)
    requires s + i <= |src|
    ensures var m := LongestFirst(src, pat, s, i, next, caps);
            && (m.Found? ==>
                  && n <= i && Agrees(m, src, pat, s + n, next, caps, rest)
                  && forall k: nat :: n < k <= i ==> NoReplayAfter(src, pat, s, k, next, caps))
            && (m.Fail? ==> forall k: nat :: k <= i ==> NoReplayAfter(src, pat, s, k, next, caps))
    decreases |pat| - next, 4, i
  {
    hide Preferred, NoReplay;
    n := i;
    rest := FirstMatchIsPreferred(src, pat, s + i, next, caps);
    if FirstMatch(src, pat, s + i, next, caps) == Fail && i > 0 {
      n, rest := LongestIsPreferred(src, pat, s, i - 1, next, caps);
    }
  }

  lemma {:induction false} LazyIsPreferred(src: string, pat: string, s: nat, p: nat, caps: seq<Capture>)
    returns (counts: seq<nat>)
    requires s <= |src| && ItemAt(pat, p).Repeated? && ItemAt(pat, p).repeat.Lazy?
    ensures Agrees(FirstMatch(src, pat, s, p, caps), src, pat, s, p, caps, counts)
    decreases |pat| - p, 1, 0
  {
    hide Preferred, NoReplay;
    var i := ItemAt(pat, p);
    var n, rest := ShortestIsPreferred(src, pat, s, s, p, i.ep, i.next, caps);
    counts := [n] + rest;
    var m := ShortestFirst(src, pat, s, p, i.ep, i.next, caps);
    if m.Found? {
      TakeFirst(src, pat, s, p, caps, n, rest);
    } else if m.Fail? {
      TakeNone(src, pat, s, p, caps);
    }
  }

  /** The repetitions counted from `s0`, from position `s` on, the shortest first. */
  lemma {:induction false} ShortestIsPreferred(src: string, pat: string, s0: nat, s: nat, p: nat, ep: nat, next: nat, caps: seq<Capture>)
    returns (n: nat, rest: seq<nat>)
    requires s0 <= s <= |src| && AllCovered(src, pat, s0, s - s0, p, ep)
    ensures var m := ShortestFirst(src, pat, s, p, ep, next, caps);
            && (m.Found? ==>
                  && s0 + n <= |src| && AllCovered(src, pat, s0, n, p, ep) && n >= s - s0
                  && Agrees(m, src, pat, s0 + n, next, caps, rest)
                  && forall k: nat :: s - s0 <= k < n ==> NoReplayAfter(src, pat, s0, k, next, caps))
            && (m.Fail? ==> forall k: nat :: s - s0 <= k && s0 + k <= |src| && AllCovered(src, pat, s0, k, p, ep) ==>
                  NoReplayAfter(src, pat, s0, k, next, caps))
    decreases |pat| - next, 4, |src| - s
  {
    hide Preferred, NoReplay;
    n := s - s0;
    rest := FirstMatchIsPreferred(src, pat, s, next, caps);
    if FirstMatch(src, pat, s, next, caps) == Fail {
      if Covers(src, pat, s, p, ep) {
        n, rest := ShortestIsPreferred(src, pat, s0, s + 1, p, ep, next, caps);
      }
    }
  }

  /** Of two different matches exactly one comes first, so there is one preferred match. */
  lemma {:induction false} PrefersIsTotal(src: string, pat: string, s: nat, s2: nat, p: nat,
      caps: seq<Capture>, caps2: seq<Capture>, a: seq<nat>, b: seq<nat>)
    requires s <= |src| && s2 <= |src|
    requires Replay(src, pat, s, p, caps, a).Some? && Replay(src, pat, s2, p, caps2, b).Some? && a != b
    ensures Prefers(pat, p, a, b) <==> !Prefers(pat, p, b, a)
    decreases |pat| - p
  {
    hide ItemAt, Single, AllCovered, AtFrontier, LastOpen;
    match ItemAt(pat, p) {
      case End =>
      case EndAnchor =>
      case Invalid(e) =>
      case OpenCapture(what, next) =>
        PrefersIsTotal(src, pat, s, s2, next, caps + [Capture(s, what)], caps2 + [Capture(s2, what)], a, b);
      case CloseCapture(next) =>
        var l, l2 := LastOpen(caps), LastOpen(caps2);
        PrefersIsTotal(src, pat, s, s2, next, caps[l := Capture(caps[l].init, s - caps[l].init)],
                       caps2[l2 := Capture(caps2[l2].init, s2 - caps2[l2].init)], a, b);
      case Balance(next) =>
        var b1, b2 := At(pat, p + 2), At(pat, p + 3);
        PrefersIsTotal(src, pat, Balanced(src, s, b1, b2).value, Balanced(src, s2, b1, b2).value, next, caps, caps2, a, b);
      case Frontier(bracket, next) => PrefersIsTotal(src, pat, s, s2, next, caps, caps2, a, b);
      case BackReference(l, next) =>
        PrefersIsTotal(src, pat, s + caps[l].len, s2 + caps2[l].len, next, caps, caps2, a, b);
      case One(next) => PrefersIsTotal(src, pat, s + 1, s2 + 1, next, caps, caps2, a, b);
      case Repeated(r, ep, next) =>
        if a[0] == b[0] {
          assert a == [a[0]] + a[1..] && b == [b[0]] + b[1..];
          PrefersIsTotal(src, pat, s + a[0], s2 + b[0], next, caps, caps2, a[1..], b[1..]);
        }
    }
  }

  // -------------------------------------------------------- well-formed patterns

  /** What the pattern alone determines of a capture: open, a position, or closed. */
  function Shape(caps: seq<Capture>): (q: seq<int>)
    ensures |q| == |caps|
    ensures forall i :: 0 <= i < |q| ==> q[i] == if caps[i].len < 0 then caps[i].len else 0
  {
    seq(|caps|, i requires 0 <= i < |caps| => if caps[i].len < 0 then caps[i].len else 0)
  }

  function LastOpenShape(q: seq<int>): (l: nat)
    ensures l <= |q|
  {
    if q == [] then 0
    else if q[|q| - 1] == CAP_UNFINISHED then |q| - 1
    else
      var l := LastOpenShape(q[..|q| - 1]);
      if l < |q| - 1 then l else |q|
  }

  /** A check of the pattern text alone, from `p` on, given which captures are open. */
  predicate WellFormed(pat: string, p: nat, q: seq<int>)
    decreases |pat| - p
  {
    match ItemAt(pat, p)
    case End => true
    case EndAnchor => true
    case Invalid(_) => false
    case OpenCapture(what, next) => |q| < MAXCAPTURES && WellFormed(pat, next, q + [what])
    case CloseCapture(next) =>
      var l := LastOpenShape(q);
      l < |q| && WellFormed(pat, next, q[l := 0])
    case Balance(next) => WellFormed(pat, next, q)
    case Frontier(_, next) => WellFormed(pat, next, q)
    case BackReference(l, next) => 0 <= l < |q| && q[l] != CAP_UNFINISHED && WellFormed(pat, next, q)
    case One(next) => WellFormed(pat, next, q)
    case Repeated(_, _, next) => WellFormed(pat, next, q)
  }

  lemma {:induction false} LastOpenShapeSame(caps: seq<Capture>)
    ensures LastOpenShape(Shape(caps)) == LastOpen(caps)
  {
    if caps != [] {
      var n := |caps| - 1;
      assert Shape(caps)[..n] == Shape(caps[..n]);
      LastOpenShapeSame(caps[..n]);
    }
  }

  /** A well-formed pattern never raises an error, whatever the subject. */
  lemma {:induction false} WellFormedNoError(src: string, pat: string, s: nat, p: nat, caps: seq<Capture>)
    requires CapsOk(src, caps, s) && WellFormed(pat, p, Shape(caps))
    ensures !FirstMatch(src, pat, s, p, caps).Error?
    decreases |pat| - p, 0, 0
  {
    hide ItemAt, Single, AtFrontier, LastOpen, LastOpenShape;
    match ItemAt(pat, p) {
      case End =>
      case EndAnchor =>
      case Invalid(e) =>
      case OpenCapture(what, next) =>
        assert Shape(caps + [Capture(s, what)]) == Shape(caps) + [what];
        WellFormedNoError(src, pat, s, next, caps + [Capture(s, what)]);
      case CloseCapture(next) =>
        LastOpenShapeSame(caps);
        var l := LastOpen(caps);
        var caps2 := caps[l := Capture(caps[l].init, s - caps[l].init)];
        assert Shape(caps2) == Shape(caps)[l := 0];
        WellFormedNoError(src, pat, s, next, caps2);
      case Balance(next) =>
        var k := Balanced(src, s, At(pat, p + 2), At(pat, p + 3));
        if k.Some? {
          WellFormedNoError(src, pat, k.value, next, caps);
        }
      case Frontier(bracket, next) => WellFormedNoError(src, pat, s, next, caps);
      case BackReference(l, next) =>
        if Recurs(src, caps, l, s) {
          WellFormedNoError(src, pat, s + caps[l].len, next, caps);
        }
      case One(next) =>
        if Covers(src, pat, s, p, next) {
          WellFormedNoError(src, pat, s + 1, next, caps);
        }
      case Repeated(Optional, ep, next) =>
        if Covers(src, pat, s, p, ep) {
          WellFormedNoError(src, pat, s + 1, next, caps);
        }
        WellFormedNoError(src, pat, s, next, caps);
      case Repeated(Greedy, ep, next) => LongestNoError(src, pat, s, CountCovered(src, pat, s, p, ep), next, caps);
      case Repeated(GreedyPlus, ep, next) =>
        if Covers(src, pat, s, p, ep) {
          LongestNoError(src, pat, s + 1, CountCovered(src, pat, s + 1, p, ep), next, caps);
        }
      case Repeated(Lazy, ep, next) => ShortestNoError(src, pat, s, p, ep, next, caps);
    }
  }

  lemma {:induction false} LongestNoError(src: string, pat: string, s: nat, i: nat, next: nat, caps: seq<Capture>)
    requires CapsOk(src, caps, s) && s + i <= |src| && WellFormed(pat, next, Shape(caps))
    ensures !LongestFirst(src, pat, s, i, next, caps).Error?
    decreases |pat| - next, 1, i
  {
    WellFormedNoError(src, pat, s + i, next, caps);
    if i > 0 {
      LongestNoError(src, pat, s, i - 1, next, caps);
    }
  }

  lemma {:induction false} ShortestNoError(src: string, pat: string, s: nat, p: nat, ep: nat, next: nat, caps: seq<Capture>)
    requires CapsOk(src, caps, s) && WellFormed(pat, next, Shape(caps))
    ensures !ShortestFirst(src, pat, s, p, ep, next, caps).Error?
    decreases |pat| - next, 1, |src| - s
  {
    WellFormedNoError(src, pat, s, next, caps);
    if Covers(src, pat, s, p, ep) {
      ShortestNoError(src, pat, s + 1, p, ep, next, caps);
    }
  }

  /** For a well-formed pattern: found exactly when some choice of counts is a match. */
  lemma MatchesExactly(src: string, pat: string, s: nat, p: nat)
    requires s <= |src| && WellFormed(pat, p, [])
    ensures FirstMatch(src, pat, s, p, []).Found? <==> exists counts :: Replay(src, pat, s, p, [], counts).Some?
    ensures FirstMatch(src, pat, s, p, []).Fail? <==> forall counts :: Replay(src, pat, s, p, [], counts).None?
  {
    assert Shape([]) == [];
    WellFormedNoError(src, pat, s, p, []);
    var counts := FirstMatchIsPreferred(src, pat, s, p, []);
    if FirstMatch(src, pat, s, p, []).Found? {
      assert Replay(src, pat, s, p, [], counts).Some?;
    } else {
      assert NoReplay(src, pat, s, p, []);
    }
  }
}
