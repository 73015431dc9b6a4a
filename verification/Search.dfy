/**
What string.find and string.gsub build on the matcher: the leftmost match, the
plain search, and global substitution.
*/
module Search {
  import opened Pattern
  import opened PatternSpec
  import opened Matcher

  datatype Found = NotFound | FoundAt(start: nat, end: nat, caps: seq<Capture>) | Failed(error: PatternError)

  /** Every start position from `init` up to but not including `k` fails. */
  ghost predicate FailBefore(src: string, pat: string, p: nat, init: nat, k: nat)
    requires k <= |src| + 1
  {
    forall i :: init <= i < k ==> FirstMatch(src, pat, i, p, []) == Fail
  }

  /**
  The loop of `str_find_aux`: the first start position at which the pattern
  matches or raises an error decides; an anchored pattern is tried at `init` only.
  */
  method FindMatch(src: string, pat: string, init: nat, p: nat, anchor: bool) returns (r: Found)
    requires init <= |src|
    ensures r.NotFound? ==> FailBefore(src, pat, p, init, if anchor then init + 1 else |src| + 1)
    ensures r.FoundAt? ==>
              && init <= r.start <= |src| && (anchor ==> r.start == init)
              && FailBefore(src, pat, p, init, r.start)
              && FirstMatch(src, pat, r.start, p, []) == Match.Found(r.end, r.caps)
    ensures r.Failed? ==>
              exists k :: init <= k <= |src| && (anchor ==> k == init) && FailBefore(src, pat, p, init, k)
                          && FirstMatch(src, pat, k, p, []) == Error(r.error)
  {
    var ms := new MatchState(src, pat);
    var s1 := init;
    while true
      invariant init <= s1 <= |src| && ms.Valid() && ms.src == src && ms.pat == pat && fresh(ms) && fresh(ms.capture)
      invariant FailBefore(src, pat, p, init, s1) && (anchor ==> s1 == init)
      decreases |src| - s1
    {
      ms.level := 0;
      assert ms.Caps() == [];
      var res := ms.DoMatch(s1, p);
      match res {
        case At(e) => return FoundAt(s1, e, ms.capture[..ms.level]);
        case Raised(e) => return Failed(e);
        case _ =>
      }
      assert FirstMatch(src, pat, s1, p, []) == Fail;
      if s1 == |src| || anchor {
        return NotFound;
      }
      s1 := s1 + 1;
    }
  }

  // ------------------------------------------------------------- plain search

  predicate OccursAt(s1: string, s2: string, i: nat) {
    i + |s2| <= |s1| && s1[i..i + |s2|] == s2
  }

  lemma OccursHead(s1: string, s2: string, i: nat)
    requires |s2| > 0
    ensures OccursAt(s1, s2, i) <==>
              i + |s2| <= |s1| && s1[i] == s2[0] && s1[i + 1..i + |s2|] == s2[1..]
  {
    if i + |s2| <= |s1| {
      assert s1[i..i + |s2|] == [s1[i]] + s1[i + 1..i + |s2|];
      assert s2 == [s2[0]] + s2[1..];
      assert s1[i..i + |s2|][1..] == s1[i + 1..i + |s2|];
      assert s1[i..i + |s2|][0] == s1[i];
    }
  }

  /** `memchr`: the first position from `from` on, among `n`, that holds `c`. */
  method MemChr(s: string, from: nat, c: char, n: nat) returns (i: int)
    requires from + n <= |s|
    ensures i == -1 ==> forall k :: from <= k < from + n ==> s[k] != c
    ensures i != -1 ==> from <= i < from + n && s[i] == c && forall k :: from <= k < i ==> s[k] != c
  {
    for j := from to from + n
      invariant forall k :: from <= k < j ==> s[k] != c
    {
      if s[j] == c {
        return j;
      }
    }
    return -1;
  }

  /** `lmemfind`: the first occurrence of `s2` in `s1`, or -1 if there is none. */
  method MemFind(s1: string, s2: string) returns (r: int)
    ensures r == -1 <==> forall i: nat :: !OccursAt(s1, s2, i)
    ensures r != -1 ==> r >= 0 && OccursAt(s1, s2, r) && forall i: nat :: i < r ==> !OccursAt(s1, s2, i)
  {
    if |s2| == 0 {
      assert OccursAt(s1, s2, 0);
      return 0;
    }
    if |s2| > |s1| {
      return -1;
    }
    var l2 := |s2| - 1;
    var l1 := |s1| - l2;
    var from := 0;
    while l1 > 0
      invariant 0 <= from && from + l1 == |s1| - l2 && l1 >= 0
      invariant forall i: nat :: i < from ==> !OccursAt(s1, s2, i)
      decreases l1
    {
      var init := MemChr(s1, from, s2[0], l1);
      forall i: nat | from <= i && (init == -1 || i < init) ensures !OccursAt(s1, s2, i) {
        OccursHead(s1, s2, i);
      }
      if init == -1 {
        return -1;
      }
      OccursHead(s1, s2, init);
      if s1[init + 1..init + 1 + l2] == s2[1..] {
        return init;
      }
      l1 := l1 - (init + 1 - from);
      from := init + 1;
    }
    return -1;
  }

  // ------------------------------------------------------ global substitution

  datatype Substituted = Done(out: string, count: nat) | Broken(error: PatternError)

  /** The replacement for a match, given where it starts and ends and its captures. */
  type Replacement = (nat, nat, seq<Capture>) -> string

  function Prepend(head: string, n: nat, r: Substituted): Substituted {
    match r
    case Done(out, count) => Done(head + out, n + count)
    case Broken(e) => Broken(e)
  }

  /** What one round of the loop of `str_gsub` adds to the output and to the count, where it goes on, and whether it is the last. */
  datatype Round = Round(piece: string, count: nat, s: nat, last: bool)

  function NextRound(src: string, s: nat, m: Match, anchor: bool, repl: Replacement): (r: Round)
    requires s <= |src| && (m.Found? ==> s <= m.end <= |src|)
    ensures r.s <= |src| && r.count <= 1 && (r.last || r.s > s)
  {
    var hit := if m.Found? then repl(s, m.end, m.caps) else "";
    var count := if m.Found? then 1 else 0;
    if m.Found? && m.end > s then Round(hit, count, m.end, anchor)
    else if s < |src| then Round(hit + [src[s]], count, s + 1, anchor)
    else Round(hit, count, s, true)
  }

  /** What `str_gsub` produces from position `s` on, with at most `left` replacements. */
  function Gsub(src: string, pat: string, p: nat, s: nat, left: nat, anchor: bool, repl: Replacement): Substituted
    requires s <= |src|
    decreases |src| - s
  {
    if left == 0 then Done(src[s..], 0)
    else
      var m := FirstMatch(src, pat, s, p, []);
      FoundAfter(src, pat, s, p, []);
      if m.Error? then Broken(m.error)
      else
        var r := NextRound(src, s, m, anchor, repl);
        if r.last then Done(r.piece + src[r.s..], r.count)
        else Prepend(r.piece, r.count, Gsub(src, pat, p, r.s, left - r.count, anchor, repl))
  }

  /** A match ends within the subject, not before it starts. */
  lemma {:induction false} FoundAfter(src: string, pat: string, s: nat, p: nat, caps: seq<Capture>)
    requires s <= |src|
    ensures FirstMatch(src, pat, s, p, caps).Found? ==> s <= FirstMatch(src, pat, s, p, caps).end <= |src|
  {
    var counts := FirstMatchIsPreferred(src, pat, s, p, caps);
    if FirstMatch(src, pat, s, p, caps).Found? {
      ReplayAfter(src, pat, s, p, caps, counts);
    }
  }

  lemma {:induction false} ReplayAfter(src: string, pat: string, s: nat, p: nat, caps: seq<Capture>, counts: seq<nat>)
    requires s <= |src|
    ensures var r := Replay(src, pat, s, p, caps, counts); r.Some? ==> s <= r.value.0 <= |src|
    decreases |pat| - p
  {
    hide ItemAt, Single, AllCovered, AtFrontier, Allowed, LastOpen;
    match ItemAt(pat, p) {
      case OpenCapture(what, next) => ReplayAfter(src, pat, s, next, caps + [Capture(s, what)], counts);
      case CloseCapture(next) =>
        var l := LastOpen(caps);
        if l < |caps| {
          ReplayAfter(src, pat, s, next, caps[l := Capture(caps[l].init, s - caps[l].init)], counts);
        }
      case Balance(next) =>
        var k := Balanced(src, s, Pattern.At(pat, p + 2), Pattern.At(pat, p + 3));
        if k.Some? {
          ReplayAfter(src, pat, k.value, next, caps, counts);
        }
      case Frontier(bracket, next) => ReplayAfter(src, pat, s, next, caps, counts);
      case BackReference(l, next) =>
        if 0 <= l < |caps| && Recurs(src, caps, l, s) {
          ReplayAfter(src, pat, s + caps[l].len, next, caps, counts);
        }
      case One(next) =>
        if s < |src| {
          ReplayAfter(src, pat, s + 1, next, caps, counts);
        }
      case Repeated(r, ep, next) =>
        if counts != [] && s + counts[0] <= |src| {
          ReplayAfter(src, pat, s + counts[0], next, caps, counts[1..]);
        }
      case _ =>
    }
  }

  // ------------------------------------------------ what a substitution is

  datatype Hit = Hit(start: nat, end: nat, caps: seq<Capture>)

  /** Where the search goes on after `n` of the hits: behind a hit, or one character on if it is empty. */
  function Resumed(s: nat, hits: seq<Hit>, n: nat): nat
    requires n <= |hits|
  {
    if n == 0 then s
    else if hits[n - 1].end > hits[n - 1].start then hits[n - 1].end
    else hits[n - 1].start + 1
  }

  /** `h` is the match at the first position from `from` on at which the pattern matches. */
  ghost predicate Leftmost(src: string, pat: string, p: nat, from: nat, h: Hit) {
    && from <= h.start <= h.end <= |src|
    && FailBefore(src, pat, p, from, h.start)
    && FirstMatch(src, pat, h.start, p, []) == Match.Found(h.end, h.caps)
  }

  /** The subject from `s` on, with the hits replaced. */
  function Output(src: string, s: nat, hits: seq<Hit>, repl: Replacement): string
    requires s <= |src|
    decreases |hits|
  {
    if hits == [] then src[s..]
    else
      var h := hits[0];
      if s <= h.start <= h.end <= |src|
      then src[s..h.start] + repl(h.start, h.end, h.caps) + Output(src, h.end, hits[1..], repl)
      else ""
  }

  /** No position from `from` on that is still tried matches; an anchored pattern is tried once. */
  ghost predicate NoMore(src: string, pat: string, p: nat, from: nat, anchor: bool, hits: seq<Hit>) {
    if anchor then hits == [] && from <= |src| ==> FirstMatch(src, pat, from, p, []) == Fail
    else FailBefore(src, pat, p, from, |src| + 1)
  }

  /** The first position tried from `from` on that does not fail raises `e`. */
  ghost predicate RaisedAt(src: string, pat: string, p: nat, from: nat, anchor: bool, k: nat, e: PatternError) {
    && from <= k <= |src| && (anchor ==> k == from)
    && FailBefore(src, pat, p, from, k) && FirstMatch(src, pat, k, p, []) == Error(e)
  }

  /** The hits of a substitution from `s` on: each is the leftmost one from where the search goes on after the last. */
  ghost predicate AreHits(src: string, pat: string, p: nat, s: nat, left: nat, anchor: bool, hits: seq<Hit>) {
    && |hits| <= left
    && (forall i :: 0 <= i < |hits| ==> Leftmost(src, pat, p, Resumed(s, hits, i), hits[i]))
    && (anchor ==> |hits| <= 1 && (hits != [] ==> hits[0].start == s))
  }

  /**
  What `str_gsub` is for: its result replaces exactly the hits, in order, keeps every character outside of them, and
  counts them; there are as many as are allowed, or none is left.
  */
  ghost predicate Substitutes(
      src: string, pat: string, p: nat, s: nat, left: nat, anchor: bool, repl: Replacement, hits: seq<Hit>, r: Substituted)
    requires s <= |src|
  {
    && AreHits(src, pat, p, s, left, anchor, hits)
    && var from := Resumed(s, hits, |hits|);
       match r
       case Done(out, count) =>
         && count == |hits| && out == Output(src, s, hits, repl)
         && (|hits| < left ==> NoMore(src, pat, p, from, anchor, hits))
       case Broken(e) => |hits| < left && (anchor ==> hits == []) && exists k: nat :: RaisedAt(src, pat, p, from, anchor, k, e)
  }

  /** A character before the first hit is kept. */
  lemma OutputNext(src: string, s: nat, hits: seq<Hit>, repl: Replacement)
    requires s < |src| && (hits != [] ==> s + 1 <= hits[0].start <= hits[0].end <= |src|)
    ensures Output(src, s, hits, repl) == [src[s]] + Output(src, s + 1, hits, repl)
  {
    if hits == [] {
      assert src[s..] == [src[s]] + src[s + 1..];
    } else {
      var h := hits[0];
      var a, b, c := src[s + 1..h.start], repl(h.start, h.end, h.caps), Output(src, h.end, hits[1..], repl);
      assert src[s..h.start] == [src[s]] + a;
      assert [src[s]] + a + b + c == [src[s]] + (a + b + c);
    }
  }

  /** One more hit in front. */
  lemma HitFirst(src: string, pat: string, p: nat, s: nat, left: nat, h: Hit, hits: seq<Hit>)
    requires left > 0 && Leftmost(src, pat, p, s, h)
    requires AreHits(src, pat, p, Resumed(s, [h], 1), left - 1, false, hits)
    ensures AreHits(src, pat, p, s, left, false, [h] + hits)
    ensures Resumed(s, [h] + hits, |hits| + 1) == Resumed(Resumed(s, [h], 1), hits, |hits|)
  {
    hide Leftmost;
    var all := [h] + hits;
    forall i | 0 <= i < |all| ensures Leftmost(src, pat, p, Resumed(s, all, i), all[i]) {
      if i > 0 {
        assert Leftmost(src, pat, p, Resumed(Resumed(s, [h], 1), hits, i - 1), hits[i - 1]);
      }
    }
  }

  /** A position that fails in front of the first one tried. */
  lemma MissFirst(src: string, pat: string, p: nat, s: nat, left: nat, hits: seq<Hit>)
    requires s < |src| && FirstMatch(src, pat, s, p, []) == Fail && AreHits(src, pat, p, s + 1, left, false, hits)
    ensures AreHits(src, pat, p, s, left, false, hits)
    ensures hits != [] ==> Resumed(s, hits, |hits|) == Resumed(s + 1, hits, |hits|)
  {
    forall i | 0 <= i < |hits| ensures Leftmost(src, pat, p, Resumed(s, hits, i), hits[i]) {
      assert Leftmost(src, pat, p, Resumed(s + 1, hits, i), hits[i]);
    }
  }

  /** What a hit at `s` adds to the output, up to where the search goes on. */
  function Piece(src: string, h: Hit, repl: Replacement): string
    requires h.start < |src|
  {
    if h.end > h.start then repl(h.start, h.end, h.caps) else repl(h.start, h.end, h.caps) + [src[h.start]]
  }

  lemma HitOutput(src: string, h: Hit, hits: seq<Hit>, repl: Replacement)
    requires h.start <= h.end <= |src| && h.start < |src|
    requires hits != [] ==> Resumed(h.start, [h], 1) <= hits[0].start <= hits[0].end <= |src|
    ensures Output(src, h.start, [h] + hits, repl) == Piece(src, h, repl) + Output(src, Resumed(h.start, [h], 1), hits, repl)
  {
    hide Output;
    OutputFirst(src, h.start, h, hits, repl);
    if h.end == h.start {
      OutputNext(src, h.start, hits, repl);
      Reassociate(repl(h.start, h.end, h.caps), [src[h.start]], Output(src, h.start + 1, hits, repl));
    }
  }

  lemma Reassociate(a: string, b: string, c: string)
    ensures a + b + c == a + (b + c)
  {
  }

  lemma OutputFirst(src: string, s: nat, h: Hit, hits: seq<Hit>, repl: Replacement)
    requires h.start == s <= h.end <= |src|
    ensures Output(src, s, [h] + hits, repl) == repl(s, h.end, h.caps) + Output(src, h.end, hits, repl)
  {
    assert ([h] + hits)[1..] == hits && src[s..s] == "";
    assert "" + repl(s, h.end, h.caps) == repl(s, h.end, h.caps);
  }

  /** A hit at `s` itself, and what follows it. */
  lemma AddHit(
      src: string, pat: string, p: nat, s: nat, left: nat, repl: Replacement, h: Hit, hits: seq<Hit>, r: Substituted)
    requires left > 0 && h.start == s < |src| && Leftmost(src, pat, p, s, h) && Resumed(s, [h], 1) <= |src|
    requires Substitutes(src, pat, p, Resumed(s, [h], 1), left - 1, false, repl, hits, r)
    ensures Substitutes(src, pat, p, s, left, false, repl, [h] + hits, Prepend(Piece(src, h, repl), 1, r))
  {
    hide *;
    HitBounds(src, pat, p, s, h);
    var on := Resumed(s, [h], 1);
    HitsOf(src, pat, p, on, left - 1, repl, hits, r);
    HitFirst(src, pat, p, s, left, h, hits);
    FirstBounds(src, pat, p, on, left - 1, hits);
    HitOutput(src, h, hits, repl);
    Lengthened(src, pat, p, s, on, left, repl, Piece(src, h, repl), hits, [h] + hits, r);
  }

  lemma HitsOf(src: string, pat: string, p: nat, s: nat, left: nat, repl: Replacement, hits: seq<Hit>, r: Substituted)
    requires s <= |src| && Substitutes(src, pat, p, s, left, false, repl, hits, r)
    ensures AreHits(src, pat, p, s, left, false, hits)
  {
  }

  /** The hits `all` are one more than `hits`, go on where they do, and add `piece` to their output. */
  lemma Lengthened(
      src: string, pat: string, p: nat, s: nat, on: nat, left: nat, repl: Replacement, piece: string,
      hits: seq<Hit>, all: seq<Hit>, r: Substituted)
    requires left > 0 && s <= |src| && on <= |src|
    requires Substitutes(src, pat, p, on, left - 1, false, repl, hits, r) && AreHits(src, pat, p, s, left, false, all)
    requires |all| == |hits| + 1 && Resumed(s, all, |all|) == Resumed(on, hits, |hits|)
    requires Output(src, s, all, repl) == piece + Output(src, on, hits, repl)
    ensures Substitutes(src, pat, p, s, left, false, repl, all, Prepend(piece, 1, r))
  {
    hide AreHits, Resumed, Output, RaisedAt, FailBefore;
  }

  lemma FirstBounds(src: string, pat: string, p: nat, s: nat, left: nat, hits: seq<Hit>)
    requires AreHits(src, pat, p, s, left, false, hits)
    ensures hits != [] ==> s <= hits[0].start <= hits[0].end <= |src|
  {
    if hits != [] {
      assert Leftmost(src, pat, p, Resumed(s, hits, 0), hits[0]);
    }
  }

  lemma HitBounds(src: string, pat: string, p: nat, s: nat, h: Hit)
    requires Leftmost(src, pat, p, s, h)
    ensures s <= h.start <= h.end <= |src|
  {
  }

  /** No match at `s`. */
  lemma AddMiss(src: string, pat: string, p: nat, s: nat, left: nat, repl: Replacement, hits: seq<Hit>, r: Substituted)
    requires s < |src| && left > 0 && FirstMatch(src, pat, s, p, []) == Fail
    requires Substitutes(src, pat, p, s + 1, left, false, repl, hits, r)
    ensures Substitutes(src, pat, p, s, left, false, repl, hits, Prepend([src[s]], 0, r))
  {
    hide FirstMatch, Output;
    MissFirst(src, pat, p, s, left, hits);
    FirstBounds(src, pat, p, s + 1, left, hits);
    OutputNext(src, s, hits, repl);
    hide AreHits;
    if hits == [] {
      assert Resumed(s, hits, |hits|) == s && Resumed(s + 1, hits, |hits|) == s + 1;
      if r.Broken? {
        var k: nat :| RaisedAt(src, pat, p, s + 1, false, k, r.error);
        assert RaisedAt(src, pat, p, s, false, k, r.error);
      } else {
        assert NoMore(src, pat, p, s + 1, false, hits);
        assert NoMore(src, pat, p, s, false, hits);
      }
    }
  }

  /** `Gsub` is the substitution of such hits. */
  lemma {:induction false} GsubSubstitutes(
      src: string, pat: string, p: nat, s: nat, left: nat, anchor: bool, repl: Replacement)
    returns (hits: seq<Hit>)
    requires s <= |src|
    ensures Substitutes(src, pat, p, s, left, anchor, repl, hits, Gsub(src, pat, p, s, left, anchor, repl))
    decreases |src| - s
  {
    hide Substitutes, Leftmost;
    if left == 0 {
      hits := NoneAllowed(src, pat, p, s, anchor, repl);
    } else {
      var m := FirstMatch(src, pat, s, p, []);
      FoundAfter(src, pat, s, p, []);
      hide FirstMatch;
      if m.Error? {
        hits := ErrorFirst(src, pat, p, s, left, anchor, repl);
      } else if anchor || s == |src| {
        hits := GsubOnce(src, pat, p, s, left, anchor, repl);
      } else if m.Found? {
        var h := Hit(s, m.end, m.caps);
        var on := Resumed(s, [h], 1);
        FoundHere(src, pat, p, s);
        GsubGoesOn(src, pat, p, s, left, repl);
        var rest := GsubSubstitutes(src, pat, p, on, left - 1, false, repl);
        AddHit(src, pat, p, s, left, repl, h, rest, Gsub(src, pat, p, on, left - 1, false, repl));
        hits := [h] + rest;
      } else {
        GsubGoesOn(src, pat, p, s, left, repl);
        hits := GsubSubstitutes(src, pat, p, s + 1, left, false, repl);
        AddMiss(src, pat, p, s, left, repl, hits, Gsub(src, pat, p, s + 1, left, false, repl));
      }
    }
  }

  lemma FoundHere(src: string, pat: string, p: nat, s: nat)
    requires s <= |src| && FirstMatch(src, pat, s, p, []).Found?
    ensures var m := FirstMatch(src, pat, s, p, []); Leftmost(src, pat, p, s, Hit(s, m.end, m.caps))
  {
    FoundAfter(src, pat, s, p, []);
  }

  lemma NoneAllowed(src: string, pat: string, p: nat, s: nat, anchor: bool, repl: Replacement) returns (hits: seq<Hit>)
    requires s <= |src|
    ensures Substitutes(src, pat, p, s, 0, anchor, repl, hits, Gsub(src, pat, p, s, 0, anchor, repl))
  {
    hits := [];
  }

  lemma ErrorFirst(src: string, pat: string, p: nat, s: nat, left: nat, anchor: bool, repl: Replacement)
    returns (hits: seq<Hit>)
    requires s <= |src| && left > 0 && FirstMatch(src, pat, s, p, []).Error?
    ensures Substitutes(src, pat, p, s, left, anchor, repl, hits, Gsub(src, pat, p, s, left, anchor, repl))
  {
    hits := [];
    var e := FirstMatch(src, pat, s, p, []).error;
    GsubError(src, pat, p, s, left, anchor, repl);
    assert Resumed(s, hits, |hits|) == s && RaisedAt(src, pat, p, s, anchor, s, e);
    hide FirstMatch, Gsub, RaisedAt;
  }

  /** One round, when it is the last. */
  lemma GsubOnce(src: string, pat: string, p: nat, s: nat, left: nat, anchor: bool, repl: Replacement)
    returns (hits: seq<Hit>)
    requires s <= |src| && left > 0 && !FirstMatch(src, pat, s, p, []).Error? && (anchor || s == |src|)
    ensures Substitutes(src, pat, p, s, left, anchor, repl, hits, Gsub(src, pat, p, s, left, anchor, repl))
  {
    var m := FirstMatch(src, pat, s, p, []);
    FoundAfter(src, pat, s, p, []);
    OnceDone(src, pat, p, s, left, anchor, repl);
    hide FirstMatch, Gsub;
    if m.Found? {
      hits := [Hit(s, m.end, m.caps)];
      OnceOutput(src, s, hits[0], repl);
      hide Output;
      assert Leftmost(src, pat, p, Resumed(s, hits, 0), hits[0]);
    } else {
      hits := [];
    }
  }

  lemma OnceDone(src: string, pat: string, p: nat, s: nat, left: nat, anchor: bool, repl: Replacement)
    requires s <= |src| && left > 0 && !FirstMatch(src, pat, s, p, []).Error? && (anchor || s == |src|)
    ensures var m := FirstMatch(src, pat, s, p, []);
      && (m.Found? ==> s <= m.end <= |src|)
      && Gsub(src, pat, p, s, left, anchor, repl)
           == if m.Found? then Done(repl(s, m.end, m.caps) + src[m.end..], 1) else Done(src[s..], 0)
  {
    var m := FirstMatch(src, pat, s, p, []);
    FoundAfter(src, pat, s, p, []);
    RoundLast(src, pat, p, s, left, anchor, repl);
    hide FirstMatch, Gsub;
    if m.Found? {
      OncePiece(src, s, m, anchor, repl);
    } else if s < |src| {
      assert src[s..] == [src[s]] + src[s + 1..];
      assert "" + [src[s]] + src[s + 1..] == [src[s]] + src[s + 1..];
    } else {
      assert "" + src[s..] == src[s..];
    }
  }

  lemma RoundLast(src: string, pat: string, p: nat, s: nat, left: nat, anchor: bool, repl: Replacement)
    requires s <= |src| && left > 0 && !FirstMatch(src, pat, s, p, []).Error? && (anchor || s == |src|)
    ensures var m := FirstMatch(src, pat, s, p, []);
      && (m.Found? ==> s <= m.end <= |src|)
      && var r := NextRound(src, s, m, anchor, repl);
      r.last && Gsub(src, pat, p, s, left, anchor, repl) == Done(r.piece + src[r.s..], r.count)
  {
    FoundAfter(src, pat, s, p, []);
    hide FirstMatch;
  }

  lemma OncePiece(src: string, s: nat, m: Match, anchor: bool, repl: Replacement)
    requires s <= |src| && m.Found? && s <= m.end <= |src|
    ensures var r := NextRound(src, s, m, anchor, repl); r.piece + src[r.s..] == repl(s, m.end, m.caps) + src[m.end..]
  {
    var hit := repl(s, m.end, m.caps);
    if m.end == s && s < |src| {
      assert src[s..] == [src[s]] + src[s + 1..];
      assert hit + [src[s]] + src[s + 1..] == hit + ([src[s]] + src[s + 1..]);
    }
  }

  lemma OnceOutput(src: string, s: nat, h: Hit, repl: Replacement)
    requires h.start == s <= h.end <= |src|
    ensures Output(src, s, [h], repl) == repl(s, h.end, h.caps) + src[h.end..]
  {
    assert [h][1..] == [] && src[s..s] == "";
  }

  lemma GsubGoesOn(src: string, pat: string, p: nat, s: nat, left: nat, repl: Replacement)
    requires s < |src| && left > 0 && !FirstMatch(src, pat, s, p, []).Error?
    ensures var m := FirstMatch(src, pat, s, p, []);
      if m.Found? then
        && s <= m.end <= |src|
        && var h := Hit(s, m.end, m.caps);
        Gsub(src, pat, p, s, left, false, repl)
          == Prepend(Piece(src, h, repl), 1, Gsub(src, pat, p, Resumed(s, [h], 1), left - 1, false, repl))
      else
        Gsub(src, pat, p, s, left, false, repl) == Prepend([src[s]], 0, Gsub(src, pat, p, s + 1, left, false, repl))
  {
    FoundAfter(src, pat, s, p, []);
    hide FirstMatch;
    assert "" + [src[s]] == [src[s]];
  }

  lemma LeftmostUnique(src: string, pat: string, p: nat, from: nat, h: Hit, h2: Hit)
    requires Leftmost(src, pat, p, from, h) && Leftmost(src, pat, p, from, h2)
    ensures h == h2
  {
    hide FirstMatch;
    var m, m2 := FirstMatch(src, pat, h.start, p, []), FirstMatch(src, pat, h2.start, p, []);
    assert m.Found? && m2.Found?;
  }

  lemma {:induction false} SameHits(
      src: string, pat: string, p: nat, s: nat, left: nat, anchor: bool, hits: seq<Hit>, hits2: seq<Hit>, n: nat)
    requires AreHits(src, pat, p, s, left, anchor, hits) && AreHits(src, pat, p, s, left, anchor, hits2)
    requires n <= |hits| && n <= |hits2|
    ensures forall i :: 0 <= i < n ==> hits[i] == hits2[i]
    ensures Resumed(s, hits, n) == Resumed(s, hits2, n)
  {
    hide Leftmost;
    if n > 0 {
      SameHits(src, pat, p, s, left, anchor, hits, hits2, n - 1);
      LeftmostUnique(src, pat, p, Resumed(s, hits, n - 1), hits[n - 1], hits2[n - 1]);
    }
  }

  lemma NoneLeft(src: string, pat: string, p: nat, from: nat, anchor: bool, hits: seq<Hit>, h: Hit)
    requires NoMore(src, pat, p, from, anchor, hits) && (anchor ==> hits == [] && h.start == from)
    ensures !Leftmost(src, pat, p, from, h)
  {
    hide FirstMatch;
  }

  lemma RaisedNone(
      src: string, pat: string, p: nat, from: nat, anchor: bool, k: nat, e: PatternError, h: Hit)
    requires RaisedAt(src, pat, p, from, anchor, k, e) && (anchor ==> h.start == from)
    ensures !Leftmost(src, pat, p, from, h)
  {
    hide FirstMatch;
    var m := FirstMatch(src, pat, k, p, []);
    assert m == Error(e);
  }

  /** A substitution that is complete has no further hit. */
  lemma NoFurther(
      src: string, pat: string, p: nat, s: nat, left: nat, anchor: bool, repl: Replacement, hits: seq<Hit>, r: Substituted,
      hits2: seq<Hit>)
    requires s <= |src| && Substitutes(src, pat, p, s, left, anchor, repl, hits, r)
    requires AreHits(src, pat, p, s, left, anchor, hits2)
    ensures |hits2| <= |hits|
  {
    hide FirstMatch, Leftmost, NoMore, RaisedAt, Output;
    if |hits| < |hits2| {
      var n := |hits|;
      SameHits(src, pat, p, s, left, anchor, hits, hits2, n);
      var from := Resumed(s, hits, n);
      if r.Done? {
        NoneLeft(src, pat, p, from, anchor, hits, hits2[n]);
      } else {
        var k: nat :| RaisedAt(src, pat, p, from, anchor, k, r.error);
        RaisedNone(src, pat, p, from, anchor, k, r.error, hits2[n]);
      }
    }
  }

  /** There is one substitution only. */
  lemma SubstitutesOnce(
      src: string, pat: string, p: nat, s: nat, left: nat, anchor: bool, repl: Replacement,
      hits: seq<Hit>, r: Substituted, hits2: seq<Hit>, r2: Substituted)
    requires s <= |src| && Substitutes(src, pat, p, s, left, anchor, repl, hits, r)
    requires Substitutes(src, pat, p, s, left, anchor, repl, hits2, r2)
    ensures hits == hits2 && r == r2
  {
    NoFurther(src, pat, p, s, left, anchor, repl, hits, r, hits2);
    NoFurther(src, pat, p, s, left, anchor, repl, hits2, r2, hits);
    SameHits(src, pat, p, s, left, anchor, hits, hits2, |hits|);
    hide AreHits, FirstMatch, Output, NoMore, RaisedAt;
    assert hits == hits2;
    var from := Resumed(s, hits, |hits|);
    if r.Broken? {
      var k: nat :| RaisedAt(src, pat, p, from, anchor, k, r.error);
      RaisedOnce(src, pat, p, from, anchor, hits, k, r.error, r2);
    } else if r2.Broken? {
      var k: nat :| RaisedAt(src, pat, p, from, anchor, k, r2.error);
      RaisedOnce(src, pat, p, from, anchor, hits, k, r2.error, r);
    }
  }

  lemma RaisedOnce(
      src: string, pat: string, p: nat, from: nat, anchor: bool, hits: seq<Hit>, k: nat, e: PatternError, r: Substituted)
    requires RaisedAt(src, pat, p, from, anchor, k, e) && (anchor ==> hits == [])
    requires r.Done? ==> NoMore(src, pat, p, from, anchor, hits)
    requires r.Broken? ==> exists i: nat :: RaisedAt(src, pat, p, from, anchor, i, r.error)
    ensures r == Broken(e)
  {
    hide FirstMatch;
    var m := FirstMatch(src, pat, k, p, []);
    assert m == Error(e);
    if r.Broken? {
      var i: nat :| RaisedAt(src, pat, p, from, anchor, i, r.error);
      var m2 := FirstMatch(src, pat, i, p, []);
      assert m2 == Error(r.error);
    }
  }

  lemma GsubRound(src: string, pat: string, p: nat, s: nat, b: string, n: nat, left: nat, anchor: bool, repl: Replacement)
    requires s <= |src| && left > 0 && !FirstMatch(src, pat, s, p, []).Error?
    ensures var m := FirstMatch(src, pat, s, p, []); m.Found? ==> s <= m.end <= |src|
    ensures var r := NextRound(src, s, FirstMatch(src, pat, s, p, []), anchor, repl);
            Prepend(b, n, Gsub(src, pat, p, s, left, anchor, repl)) ==
              if r.last then Done(b + r.piece + src[r.s..], n + r.count)
              else Prepend(b + r.piece, n + r.count, Gsub(src, pat, p, r.s, left - r.count, anchor, repl))
  {
    FoundAfter(src, pat, s, p, []);
    var r := NextRound(src, s, FirstMatch(src, pat, s, p, []), anchor, repl);
    hide FirstMatch, NextRound;
    if r.last {
      assert b + (r.piece + src[r.s..]) == b + r.piece + src[r.s..];
    } else {
      PrependTwice(b, n, r.piece, r.count, Gsub(src, pat, p, r.s, left - r.count, anchor, repl));
    }
  }

  lemma PrependTwice(b: string, n: nat, c: string, k: nat, r: Substituted)
    ensures Prepend(b, n, Prepend(c, k, r)) == Prepend(b + c, n + k, r)
  {
    if r.Done? {
      assert b + (c + r.out) == b + c + r.out;
    }
  }

  /** `str_gsub`. */
  method GlobalSubstitute(src: string, pat: string, p: nat, maxS: nat, anchor: bool, repl: Replacement) returns (r: Substituted)
    ensures r == Gsub(src, pat, p, 0, maxS, anchor, repl)
  {
    hide Gsub, FirstMatch;
    var ms := new MatchState(src, pat);
    var s: nat, n: nat, b := 0, 0, "";
    ghost var goal := Gsub(src, pat, p, 0, maxS, anchor, repl);
    var last := false;
    while n < maxS && !last
      invariant n <= maxS && s <= |src|
      invariant ms.Valid() && ms.src == src && ms.pat == pat && fresh(ms) && fresh(ms.capture)
      invariant !last ==> goal == Prepend(b, n, Gsub(src, pat, p, s, maxS - n, anchor, repl))
      invariant last ==> goal == Done(b + src[s..], n)
      decreases !last, |src| - s
    {
      ghost var m := FirstMatch(src, pat, s, p, []);
      if !m.Error? {
        GsubRound(src, pat, p, s, b, n, maxS - n, anchor, repl);
      }
      ms.level := 0;
      assert ms.Caps() == [];
      var e := ms.DoMatch(s, p);
      if e.Raised? {
        GsubError(src, pat, p, s, maxS - n, anchor, repl);
        return Broken(e.error);
      }
      ghost var next, b0, n0 := NextRound(src, s, m, anchor, repl), b, n;
      if e.At? {
        n := n + 1;
        b := b + repl(s, e.pos, ms.capture[..ms.level]);
      }
      last := anchor;
      if e.At? && e.pos > s {
        s := e.pos;
      } else if s < |src| {
        b := b + [src[s]];
        s := s + 1;
      } else {
        last := true;
      }
      assert b == b0 + next.piece && n == n0 + next.count && s == next.s && last == next.last;
    }
    if !last {
      GsubNone(src, pat, p, s, anchor, repl);
    }
    r := Done(b + src[s..], n);
  }

  lemma GsubError(src: string, pat: string, p: nat, s: nat, left: nat, anchor: bool, repl: Replacement)
    requires s <= |src| && left > 0 && FirstMatch(src, pat, s, p, []).Error?
    ensures Gsub(src, pat, p, s, left, anchor, repl) == Broken(FirstMatch(src, pat, s, p, []).error)
  {
  }

  lemma GsubNone(src: string, pat: string, p: nat, s: nat, anchor: bool, repl: Replacement)
    requires s <= |src|
    ensures Gsub(src, pat, p, s, 0, anchor, repl) == Done(src[s..], 0)
  {
  }

  /** Replacing every match by itself gives the subject back, however many replacements are allowed. */
  lemma {:induction false} GsubIdentity(src: string, pat: string, p: nat, s: nat, left: nat, anchor: bool, repl: Replacement)
    requires s <= |src|
    requires forall i: nat, j: nat, caps :: i <= j <= |src| ==> repl(i, j, caps) == src[i..j]
    ensures var r := Gsub(src, pat, p, s, left, anchor, repl); r.Done? ==> r.out == src[s..] && r.count <= left
    decreases |src| - s
  {
    if left > 0 && !FirstMatch(src, pat, s, p, []).Error? {
      FoundAfter(src, pat, s, p, []);
      var m := FirstMatch(src, pat, s, p, []);
      var r := NextRound(src, s, m, anchor, repl);
      RoundIdentity(src, s, m, anchor, repl);
      hide NextRound, FirstMatch;
      if !r.last {
        GsubIdentity(src, pat, p, r.s, left - r.count, anchor, repl);
      }
    }
  }

  lemma RoundIdentity(src: string, s: nat, m: Match, anchor: bool, repl: Replacement)
    requires s <= |src| && (m.Found? ==> s <= m.end <= |src|)
    requires forall i: nat, j: nat, caps :: i <= j <= |src| ==> repl(i, j, caps) == src[i..j]
    ensures var r := NextRound(src, s, m, anchor, repl); r.piece + src[r.s..] == src[s..]
  {
    if s < |src| {
      assert src[s..] == [src[s]] + src[s + 1..];
    }
    if m.Found? {
      assert repl(s, m.end, m.caps) == src[s..m.end];
      assert src[s..] == src[s..m.end] + src[m.end..];
    }
  }
}
