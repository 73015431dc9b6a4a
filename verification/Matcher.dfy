/**
The matcher as `lstrlib.c` writes it: captures are set in place before the rest
of the pattern is tried and undone when that fails. Each method is proved to
return what `FirstMatch` returns and, on failure, to leave the captures below
the level as they were.
*/
module Matcher {
  import opened Pattern
  import opened PatternSpec

  /** NULL, a position in the subject, an error raised, or a jump back to `init` in `match`. */
  datatype Result = Null | At(pos: nat) | Raised(error: PatternError) | Next(pos: nat, pat: nat)

  // ---------------------------------------------------------------- classes

  /** `classend`. */
  method FindItemEnd(pat: string, p: nat) returns (r: ClassEnd)
    requires Pattern.At(pat, p) != '\0'
    ensures r == ItemEnd(pat, p)
  {
    var c := Pattern.At(pat, p);
    var q := p + 1;
    if c == ESC {
      if Pattern.At(pat, q) == '\0' {
        return Malformed(EndsWithEscape);
      }
      return Ends(q + 1);
    }
    if c != '[' {
      return Ends(q);
    }
    if Pattern.At(pat, q) == '^' {
      q := q + 1;
    }
    var first := true;
    while first || Pattern.At(pat, q) != ']'
      invariant first ==> SetEnd(pat, q) == ItemEnd(pat, p)
      invariant !first && Pattern.At(pat, q) != ']' ==> SetEnd(pat, q) == ItemEnd(pat, p)
      invariant !first && Pattern.At(pat, q) == ']' ==> Ends(q + 1) == ItemEnd(pat, p)
      decreases |pat| - q, first
    {
      first := false;
      if Pattern.At(pat, q) == '\0' {
        return Malformed(MissingBracket);
      }
      q := q + 1;
      if Pattern.At(pat, q - 1) == ESC && Pattern.At(pat, q) != '\0' {
        q := q + 1;
      }
    }
    return Ends(q + 1);
  }

  /** `matchbracketclass`. */
  method MatchBracketClass(c: char, pat: string, start: nat, ec: nat) returns (r: bool)
    ensures r == MatchSet(pat, start, ec, c)
  {
    var p := start;
    var sig := true;
    if Pattern.At(pat, p + 1) == '^' {
      sig := false;
      p := p + 1;
    }
    p := p + 1;
    while p < ec
      invariant MatchSet(pat, start, ec, c) == (InSet(pat, p, ec, c) == sig)
      decreases ec - p
    {
      if Pattern.At(pat, p) == ESC {
        p := p + 1;
        if MatchClass(c, Pattern.At(pat, p)) {
          return sig;
        }
      } else if Pattern.At(pat, p + 1) == '-' && p + 2 < ec {
        p := p + 2;
        if Pattern.At(pat, p - 2) <= c <= Pattern.At(pat, p) {
          return sig;
        }
      } else if Pattern.At(pat, p) == c {
        return sig;
      }
      p := p + 1;
    }
    return !sig;
  }

  /** `singlematch`. */
  method SingleMatch(c: char, pat: string, p: nat, ep: nat) returns (r: bool)
    requires ep > 0
    ensures r == Single(pat, p, ep, c)
  {
    match Pattern.At(pat, p) {
      case '.' => r := true;
      case '%' => r := MatchClass(c, Pattern.At(pat, p + 1));
      case '[' => r := MatchBracketClass(c, pat, p, ep - 1);
      case x => r := x == c;
    }
  }

  class MatchState {
    const src: string
    const pat: string
    var level: nat
    const capture: array<Capture>

    constructor (src: string, pat: string)
      ensures this.src == src && this.pat == pat && level == 0 && Valid() && fresh(capture)
    {
      this.src := src;
      this.pat := pat;
      level := 0;
      capture := new Capture[MAXCAPTURES](_ => Capture(0, CAP_POSITION));
    }

    predicate Valid()
      reads this
    {
      capture.Length == MAXCAPTURES && level <= MAXCAPTURES
    }

    /** The captures below the level. */
    ghost function Caps(): seq<Capture>
      requires Valid()
      reads this, capture
    {
      capture[..level]
    }

    /** The result `r` and the captures it leaves are those of the search result `m`. */
    ghost predicate Gives(r: Result, m: Match, before: seq<Capture>)
      requires Valid()
      reads this, capture
    {
      match m
      case Fail => r == Null && Caps() == before
      case Found(e, cs) => r == At(e) && Caps() == cs
      case Error(x) => r == Raised(x)
    }

    /** `capture_to_close`. */
    method CaptureToClose() returns (l: int)
      requires Valid()
      ensures l == if LastOpen(Caps()) < level then LastOpen(Caps()) else -1
    {
      l := level - 1;
      assert Caps()[..level] == Caps();
      while l >= 0
        invariant -1 <= l < level
        invariant LastOpen(Caps()) == if LastOpen(capture[..l + 1]) <= l then LastOpen(capture[..l + 1]) else level
        decreases l
      {
        if capture[l].len == CAP_UNFINISHED {
          return;
        }
        assert capture[..l + 1][..l] == capture[..l];
        l := l - 1;
      }
    }

    /** `matchbalance`; the delimiters at `p` have been checked. */
    method MatchBalance(s: nat, p: nat) returns (r: Result)
      requires s <= |src| && Pattern.At(pat, p) != '\0' && Pattern.At(pat, p + 1) != '\0'
      ensures r == match Balanced(src, s, Pattern.At(pat, p), Pattern.At(pat, p + 1)) case None => Null case Some(k) => At(k)
    {
      if Pattern.At(src, s) != Pattern.At(pat, p) {
        return Null;
      }
      var b, e := Pattern.At(pat, p), Pattern.At(pat, p + 1);
      var cont := 1;
      var i := s + 1;
      while i < |src|
        invariant s < i <= |src| && cont > 0
        invariant BalanceEnd(src, i, cont, b, e) == Balanced(src, s, b, e)
      {
        if src[i] == e {
          cont := cont - 1;
          if cont == 0 {
            return At(i + 1);
          }
        } else if src[i] == b {
          cont := cont + 1;
        }
        i := i + 1;
      }
      return Null;
    }

    /** `start_capture`. */
    method StartCapture(s: nat, p: nat, next: nat, what: int) returns (r: Result)
      requires Valid() && CapsOk(src, Caps(), s) && what < 0
      requires ItemAt(pat, p) == OpenCapture(what, next)
      modifies this`level, capture
      ensures Valid() && Gives(r, FirstMatch(src, pat, s, p, old(Caps())), old(Caps()))
      decreases |pat| - next, 5
    {
      if level >= MAXCAPTURES {
        return Raised(TooManyCaptures);
      }
      ghost var before := Caps();
      capture[level] := Capture(s, what);
      level := level + 1;
      assert Caps() == before + [Capture(s, what)];
      r := DoMatch(s, next);
      if r == Null {
        level := level - 1;
        assert Caps() == (before + [Capture(s, what)])[..level];
      }
    }

    /** `end_capture`. */
    method EndCapture(s: nat, p: nat, next: nat) returns (r: Result)
      requires Valid() && CapsOk(src, Caps(), s)
      requires ItemAt(pat, p) == CloseCapture(next)
      modifies this`level, capture
      ensures Valid() && Gives(r, FirstMatch(src, pat, s, p, old(Caps())), old(Caps()))
      decreases |pat| - next, 5
    {
      ghost var before := Caps();
      var l := CaptureToClose();
      if l < 0 {
        return Raised(InvalidPatternCapture);
      }
      capture[l] := capture[l].(len := s - capture[l].init);
      ghost var closed := before[l := Capture(before[l].init, s - before[l].init)];
      assert Caps() == closed;
      r := DoMatch(s, next);
      if r == Null {
        capture[l] := capture[l].(len := CAP_UNFINISHED);
        assert Caps() == closed[l := before[l]] == before;
      }
    }

    /** `match_capture`, with `check_capture`: the index is that of a digit, counted from one. */
    method MatchCapture(s: nat, l: int) returns (r: Result)
      requires Valid() && CapsOk(src, Caps(), s)
      ensures r == if l < 0 || l >= level || Caps()[l].len == CAP_UNFINISHED then Raised(InvalidCaptureIndex)
                   else if Recurs(src, Caps(), l, s) then At(s + Caps()[l].len)
                   else Null
    {
      if l < 0 || l >= level || capture[l].len == CAP_UNFINISHED {
        return Raised(InvalidCaptureIndex);
      }
      var init, len := capture[l].init, capture[l].len;
      assert capture[l] == Caps()[l];
      // a position capture has a length that, taken as unsigned, exceeds any subject
      if len >= 0 && |src| - s >= len && src[init..init + len] == src[s..s + len] {
        return At(s + len);
      }
      return Null;
    }

    /** `max_expand`. */
    method MaxExpand(s: nat, p: nat, ep: nat, next: nat) returns (r: Result)
      requires Valid() && CapsOk(src, Caps(), s) && ep > 0 && next <= |pat|
      modifies this`level, capture
      ensures Valid()
      ensures Gives(r, LongestFirst(src, pat, s, CountCovered(src, pat, s, p, ep), next, old(Caps())), old(Caps()))
      decreases |pat| - next, 5
    {
      ghost var before := Caps();
      var i := 0;
      while s + i < |src|
        invariant s + i <= |src| && Valid() && Caps() == before
        invariant CountCovered(src, pat, s, p, ep) == i + CountCovered(src, pat, s + i, p, ep)
      {
        var m := SingleMatch(src[s + i], pat, p, ep);
        if !m {
          break;
        }
        i := i + 1;
      }
      assert i == CountCovered(src, pat, s, p, ep);
      while i >= 0
        invariant -1 <= i && s + i <= |src| && Valid() && Caps() == before && CapsOk(src, before, s)
        invariant i >= 0 ==>
                    LongestFirst(src, pat, s, CountCovered(src, pat, s, p, ep), next, before) == LongestFirst(src, pat, s, i, next, before)
        invariant i < 0 ==> LongestFirst(src, pat, s, CountCovered(src, pat, s, p, ep), next, before) == Fail
        decreases i
      {
        r := DoMatch(s + i, next);
        if r != Null {
          return;
        }
        i := i - 1;
      }
      r := Null;
    }

    /** `min_expand`. */
    method MinExpand(start: nat, p: nat, ep: nat, next: nat) returns (r: Result)
      requires Valid() && CapsOk(src, Caps(), start) && ep > 0 && next <= |pat|
      modifies this`level, capture
      ensures Valid()
      ensures Gives(r, ShortestFirst(src, pat, start, p, ep, next, old(Caps())), old(Caps()))
      decreases |pat| - next, 5
    {
      var s: nat := start;
      ghost var before := Caps();
      while true
        invariant start <= s <= |src| && Valid() && Caps() == before && CapsOk(src, before, s)
        invariant ShortestFirst(src, pat, start, p, ep, next, before) == ShortestFirst(src, pat, s, p, ep, next, before)
        decreases |src| - s
      {
        r := DoMatch(s, next);
        if r != Null {
          return;
        }
        var m := false;
        if s < |src| {
          m := SingleMatch(src[s], pat, p, ep);
        }
        if !m {
          return Null;
        }
        s := s + 1;
      }
    }

    /** `match`. */
    method DoMatch(s0: nat, p0: nat) returns (r: Result)
      requires Valid() && CapsOk(src, Caps(), s0)
      modifies this`level, capture
      ensures Valid() && Gives(r, FirstMatch(src, pat, s0, p0, old(Caps())), old(Caps()))
      ensures !r.Next?
      decreases |pat| - p0, 4
    {
      var s: nat, p: nat := s0, p0;
      ghost var before := Caps();
      while true
        invariant p0 <= p && Valid() && Caps() == before && CapsOk(src, before, s)
        invariant FirstMatch(src, pat, s, p, before) == FirstMatch(src, pat, s0, p0, before)
        decreases |pat| - p
      {
        var c, c1 := Pattern.At(pat, p), Pattern.At(pat, p + 1);
        if c == '(' {
          if c1 == ')' {
            r := StartCapture(s, p, p + 2, CAP_POSITION);
          } else {
            r := StartCapture(s, p, p + 1, CAP_UNFINISHED);
          }
          return;
        } else if c == ')' {
          r := EndCapture(s, p, p + 1);
          return;
        } else if c == '\0' {
          return At(s);
        } else if c == '$' && c1 == '\0' {
          return if s == |src| then At(s) else Null;
        } else if c == ESC && (c1 == 'b' || c1 == 'f' || IsDigit(c1)) {
          r := MatchEscape(s, p);
          if !r.Next? {
            return;
          }
        } else {
          r := MatchItem(s, p);
          if !r.Next? {
            return;
          }
        }
        s, p := r.pos, r.pat;
      }
    }

    /** The jump back to `init` with `s2` and `p2` goes on with the same search. */
    ghost predicate Continues(s: nat, p: nat, s2: nat, p2: nat, before: seq<Capture>)
      requires s <= |src|
    {
      p < p2 <= |pat| && CapsOk(src, before, s2) && FirstMatch(src, pat, s2, p2, before) == FirstMatch(src, pat, s, p, before)
    }

    /** Either the search goes on, with nothing changed, or `r` is its result. */
    ghost predicate StepGives(r: Result, s: nat, p: nat, before: seq<Capture>)
      requires Valid() && s <= |src|
      reads this, capture
    {
      if r.Next? then Caps() == before && Continues(s, p, r.pos, r.pat, before)
      else Gives(r, FirstMatch(src, pat, s, p, before), before)
    }

    /** The cases `%b`, `%f` and `%1` of `match`. */
    method MatchEscape(s: nat, p: nat) returns (r: Result)
      requires Valid() && CapsOk(src, Caps(), s)
      requires Pattern.At(pat, p) == ESC
      requires var x := Pattern.At(pat, p + 1); x == 'b' || x == 'f' || IsDigit(x)
      ensures StepGives(r, s, p, Caps())
    {
      var c1 := Pattern.At(pat, p + 1);
      if c1 == 'b' {
        if Pattern.At(pat, p + 2) == '\0' || Pattern.At(pat, p + 3) == '\0' {
          return Raised(UnbalancedPattern);
        }
        r := MatchBalance(s, p + 2);
        if r.At? {
          r := Next(r.pos, p + 4);
        }
      } else if c1 == 'f' {
        r := MatchFrontier(s, p);
      } else {
        r := MatchCapture(s, c1 as int - '1' as int);
        if r.At? {
          r := Next(r.pos, p + 2);
        }
      }
    }

    method MatchFrontier(s: nat, p: nat) returns (r: Result)
      requires Valid() && CapsOk(src, Caps(), s)
      requires Pattern.At(pat, p) == ESC && Pattern.At(pat, p + 1) == 'f'
      ensures StepGives(r, s, p, Caps())
    {
      if Pattern.At(pat, p + 2) != '[' {
        return Raised(MissingFrontierSet);
      }
      var e := FindItemEnd(pat, p + 2);
      if e.Malformed? {
        return Raised(e.error);
      }
      var previous := if s == 0 then '\0' else Pattern.At(src, s - 1);
      var m1 := MatchBracketClass(previous, pat, p + 2, e.ep - 1);
      var m2 := MatchBracketClass(Pattern.At(src, s), pat, p + 2, e.ep - 1);
      return if m1 || !m2 then Null else Next(s, e.ep);
    }

    /** The default case of `match`: a single-character item and what follows it. */
    method MatchItem(s: nat, p: nat) returns (r: Result)
      requires Valid() && CapsOk(src, Caps(), s)
      requires Pattern.At(pat, p) != '\0' && ItemAt(pat, p) == SingleItem(pat, p)
      modifies this`level, capture
      ensures Valid() && StepGives(r, s, p, old(Caps()))
      decreases |pat| - p, 3
    {
      var e := FindItemEnd(pat, p);
      if e.Malformed? {
        return Raised(e.error);
      }
      var ep := e.ep;
      var m := false;
      if s < |src| {
        m := SingleMatch(src[s], pat, p, ep);
      }
      match Pattern.At(pat, ep) {
        case '?' =>
          r := Null;
          if m {
            r := DoMatch(s + 1, ep + 1);
          }
          if r == Null {
            r := Next(s, ep + 1);
          }
        case '*' => r := MaxExpand(s, p, ep, ep + 1);
        case '+' =>
          r := Null;
          if m {
            r := MaxExpand(s + 1, p, ep, ep + 1);
          }
        case '-' => r := MinExpand(s, p, ep, ep + 1);
        case _ => r := if m then Next(s + 1, ep) else Null;
      }
    }
  }
}
