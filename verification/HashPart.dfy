/**
The hash part of a table: a chained scatter table with Brent's variation, as a
sequence of nodes, and what each way of adding a key does to its chains.
*/
module HashPart {

  /** A key: `Int` is a number with an integer value that fits an int, `Other` any other value but nil and NaN. */
  datatype Key = Nil | NaN | Int(k: int) | Other(id: int)

  datatype Value = Empty | Val(n: int)

  /** `next` is the position of the next node of the chain, or -1. */
  datatype Node = Node(key: Key, val: Value, next: int)

  const FREE: Node := Node(Nil, Empty, -1)

  /** The hash of a key may depend on the size of the hash part. */
  type HashFn = (Key, nat) -> nat

  /** `mainposition`. */
  function MainPos(hash: HashFn, size: nat, key: Key): (p: nat)
    requires size > 0
    ensures p < size
  {
    hash(key, size) % size
  }

  // ----------------------------------------------------------------- chains

  /** Links lead to nodes, and always to one of lower rank: chains do not return. */
  ghost predicate LinksOk(node: seq<Node>, rank: seq<nat>) {
    && |rank| == |node|
    && forall i :: 0 <= i < |node| ==> LinkOk(node, rank, i)
  }

  ghost predicate LinkOk(node: seq<Node>, rank: seq<nat>, i: nat)
    requires i < |node| == |rank|
  {
    var j := node[i].next;
    -1 <= j < |node| && (j >= 0 ==> rank[j] < rank[i])
  }

  /** No node is the next of two. */
  ghost predicate OnePredecessor(node: seq<Node>) {
    forall i, j :: 0 <= i < j < |node| && node[i].next == node[j].next ==> node[i].next == -1
  }

  /** Node `j` is on the chain from node `i` on. */
  ghost predicate Reaches(node: seq<Node>, rank: seq<nat>, i: nat, j: nat)
    requires LinksOk(node, rank) && i < |node|
    decreases if i < |rank| then rank[i] else 0
  {
    i == j || (assert LinkOk(node, rank, i); node[i].next >= 0 && Reaches(node, rank, node[i].next, j))
  }

  /** A node without a key is alone. */
  ghost predicate FreeOk(node: seq<Node>, i: nat)
    requires i < |node|
  {
    node[i].key.Nil? ==> node[i] == FREE && forall j :: 0 <= j < |node| ==> node[j].next != i
  }

  /** The key of node `i` can be found: its main position holds a key that belongs there, and leads to it. */
  ghost predicate KeyOk(hash: HashFn, node: seq<Node>, rank: seq<nat>, i: nat)
    requires LinksOk(node, rank) && i < |node|
  {
    !node[i].key.Nil? ==>
      var p := MainPos(hash, |node|, node[i].key);
      && !node[i].key.NaN?
      && Reaches(node, rank, p, i)
      && InPlace(hash, node, p)
  }

  /** The node holds a key whose main position it is. */
  predicate InPlace(hash: HashFn, node: seq<Node>, p: nat)
    requires p < |node|
  {
    !node[p].key.Nil? && MainPos(hash, |node|, node[p].key) == p
  }

  ghost predicate KeysDistinct(node: seq<Node>) {
    forall i, j :: 0 <= i < j < |node| && node[i].key == node[j].key ==> node[i].key.Nil?
  }

  /** No node from `lastfree` on is free. */
  ghost predicate FreeBelow(node: seq<Node>, lastfree: int) {
    lastfree <= |node| && forall i :: 0 <= i < |node| && lastfree <= i ==> !node[i].key.Nil?
  }

  ghost predicate HashOk(hash: HashFn, node: seq<Node>, rank: seq<nat>, lastfree: int) {
    && |node| > 0
    && LinksOk(node, rank) && OnePredecessor(node) && KeysDistinct(node) && FreeBelow(node, lastfree)
    && (forall i :: 0 <= i < |node| ==> FreeOk(node, i))
    && (forall i :: 0 <= i < |node| ==> KeyOk(hash, node, rank, i))
  }

  /** A hash part of free nodes only. */
  lemma FreshOk(hash: HashFn, node: seq<Node>)
    requires |node| > 0 && forall i :: 0 <= i < |node| ==> node[i] == FREE
    ensures HashOk(hash, node, seq(|node|, _ => 0), |node|)
  {
    var rank: seq<nat> := seq(|node|, _ => 0);
    assert forall i :: 0 <= i < |node| ==> LinkOk(node, rank, i);
  }

  /** The free node just found below `lastfree` has been used. */
  lemma LowerFree(hash: HashFn, node: seq<Node>, rank: seq<nat>, lastfree: int)
    requires HashOk(hash, node, rank, lastfree + 1) && (0 <= lastfree < |node| ==> !node[lastfree].key.Nil?)
    ensures HashOk(hash, node, rank, lastfree)
  {
  }

  // --------------------------------------------------------- chains that stay

  /** Chains do not depend on keys and values. */
  lemma {:induction false} ReachesSame(node: seq<Node>, rank: seq<nat>, node2: seq<Node>, i: nat, j: nat)
    requires LinksOk(node, rank) && |node2| == |node| && i < |node|
    requires forall x :: 0 <= x < |node| ==> node2[x].next == node[x].next
    ensures LinksOk(node2, rank) && (Reaches(node2, rank, i, j) <==> Reaches(node, rank, i, j))
    decreases if i < |rank| then rank[i] else 0
  {
    LinksSame(node, rank, node2);
    assert LinkOk(node, rank, i);
    if node[i].next >= 0 {
      ReachesSame(node, rank, node2, node[i].next, j);
    }
  }

  lemma LinksSame(node: seq<Node>, rank: seq<nat>, node2: seq<Node>)
    requires LinksOk(node, rank) && |node2| == |node|
    requires forall x :: 0 <= x < |node| ==> node2[x].next == node[x].next
    ensures LinksOk(node2, rank)
  {
    forall x | 0 <= x < |node| ensures LinkOk(node2, rank, x) {
      assert LinkOk(node, rank, x);
    }
  }

  /** What a chain reaches it reaches through the predecessor. */
  lemma {:induction false} ReachesStep(node: seq<Node>, rank: seq<nat>, i: nat, j: nat)
    requires LinksOk(node, rank) && i < |node| && j < |node| && Reaches(node, rank, i, j) && node[j].next >= 0
    ensures Reaches(node, rank, i, node[j].next)
    decreases if i < |rank| then rank[i] else 0
  {
    assert LinkOk(node, rank, i) && LinkOk(node, rank, j);
    if i != j {
      ReachesStep(node, rank, node[i].next, j);
    }
  }

  // ---------------------------------------------------------- adding a key

  /** The key is in no node. */
  predicate Absent(node: seq<Node>, key: Key) {
    forall i :: 0 <= i < |node| ==> node[i].key != key
  }

  /** The value of a node changes. */
  lemma ValueChanged(hash: HashFn, node: seq<Node>, rank: seq<nat>, lastfree: int, p: nat, v: Value)
    requires HashOk(hash, node, rank, lastfree) && p < |node| && !node[p].key.Nil?
    ensures HashOk(hash, node[p := node[p].(val := v)], rank, lastfree)
  {
    var node2 := node[p := node[p].(val := v)];
    LinksSame(node, rank, node2);
    forall i | 0 <= i < |node| ensures FreeOk(node2, i) && KeyOk(hash, node2, rank, i) {
      assert FreeOk(node, i) && KeyOk(hash, node, rank, i);
      ReachesSame(node, rank, node2, MainPos(hash, |node|, node[i].key), i);
    }
  }

  /** A key whose main position holds no value takes that node as it is linked. */
  lemma Overwritten(hash: HashFn, node: seq<Node>, rank: seq<nat>, lastfree: int, key: Key)
    requires HashOk(hash, node, rank, lastfree) && Absent(node, key) && !key.Nil? && !key.NaN?
    ensures var p := MainPos(hash, |node|, key); HashOk(hash, node[p := node[p].(key := key)], rank, lastfree)
  {
    var p := MainPos(hash, |node|, key);
    var node2 := node[p := node[p].(key := key)];
    LinksSame(node, rank, node2);
    forall i | 0 <= i < |node| ensures FreeOk(node2, i) && KeyOk(hash, node2, rank, i) {
      assert FreeOk(node, i) && KeyOk(hash, node, rank, i);
      ReachesSame(node, rank, node2, MainPos(hash, |node|, node[i].key), i);
    }
  }

  /** Ranks spread out, with room for node `n` just below node `p`. */
  function Spread(rank: seq<nat>, n: nat, p: nat): (r: seq<nat>)
    requires n < |rank| && p < |rank|
    ensures |r| == |rank| && forall i :: 0 <= i < |rank| ==> r[i] == if i == n then 2 * rank[p] else 2 * rank[i] + 1
  {
    seq(|rank|, i requires 0 <= i < |rank| => if i == n then 2 * rank[p] else 2 * rank[i] + 1)
  }

  /** Node `n` put into the chain behind node `p`. */
  function ChainedBehind(node: seq<Node>, p: nat, n: nat, key: Key): (r: seq<Node>)
    requires p < |node| && n < |node|
    ensures |r| == |node|
  {
    node[n := Node(key, node[n].val, node[p].next)][p := node[p].(next := n)]
  }

  lemma {:induction false} BehindReaches(node: seq<Node>, rank: seq<nat>, p: nat, n: nat, key: Key, i: nat, j: nat)
    requires LinksOk(node, rank) && p < |node| && n < |node| && p != n && i < |node| && i != n
    requires LinksOk(ChainedBehind(node, p, n, key), Spread(rank, n, p))
    requires Reaches(node, rank, i, j) && forall x :: 0 <= x < |node| ==> node[x].next != n
    ensures Reaches(ChainedBehind(node, p, n, key), Spread(rank, n, p), i, j)
    decreases rank[i]
  {
    var node2, rank2 := ChainedBehind(node, p, n, key), Spread(rank, n, p);
    assert LinkOk(node, rank, i) && LinkOk(node2, rank2, i) && LinkOk(node2, rank2, n);
    if i != j {
      BehindReaches(node, rank, p, n, key, node[i].next, j);
      if i == p {
        assert Reaches(node2, rank2, n, j);
      }
    }
  }

  lemma BehindLinks(node: seq<Node>, rank: seq<nat>, p: nat, n: nat, key: Key)
    requires LinksOk(node, rank) && OnePredecessor(node) && p < |node| && n < |node| && p != n && FreeOk(node, n) && node[n].key.Nil?
    ensures LinksOk(ChainedBehind(node, p, n, key), Spread(rank, n, p)) && OnePredecessor(ChainedBehind(node, p, n, key))
  {
    var node2, rank2 := ChainedBehind(node, p, n, key), Spread(rank, n, p);
    forall i | 0 <= i < |node| ensures LinkOk(node2, rank2, i) {
      assert LinkOk(node, rank, i) && LinkOk(node, rank, p);
    }
  }

  /** The colliding key is in its main position `p`: the new key goes to the free node `n`, behind it. */
  lemma PlacedBehind(hash: HashFn, node: seq<Node>, rank: seq<nat>, lastfree: int, key: Key, n: nat)
    requires HashOk(hash, node, rank, lastfree) && Absent(node, key) && !key.Nil? && !key.NaN?
    requires n < |node| && node[n].key.Nil? && InPlace(hash, node, MainPos(hash, |node|, key))
    ensures var p := MainPos(hash, |node|, key); HashOk(hash, ChainedBehind(node, p, n, key), Spread(rank, n, p), lastfree)
  {
    var p := MainPos(hash, |node|, key);
    var node2, rank2 := ChainedBehind(node, p, n, key), Spread(rank, n, p);
    assert FreeOk(node, n);
    BehindLinks(node, rank, p, n, key);
    forall i | 0 <= i < |node| ensures FreeOk(node2, i) && KeyOk(hash, node2, rank2, i) {
      assert FreeOk(node, i) && KeyOk(hash, node, rank, i) && LinkOk(node2, rank2, p);
      if i == n {
        assert Reaches(node2, rank2, n, n);
      } else if !node[i].key.Nil? {
        BehindReaches(node, rank, p, n, key, MainPos(hash, |node|, node[i].key), i);
      }
    }
  }

  /** The node `p` moved to `n`, with its predecessor `q` linked to it there, and a new key in its place. */
  function MovedAway(node: seq<Node>, q: nat, p: nat, n: nat, key: Key): (r: seq<Node>)
    requires q < |node| && p < |node| && n < |node|
    ensures |r| == |node|
  {
    node[q := node[q].(next := n)][n := node[p]][p := Node(key, Empty, -1)]
  }

  /** Where the key of a node is after the move. */
  function Relocated(j: nat, p: nat, n: nat): nat {
    if j == p then n else j
  }

  lemma {:induction false} MovedReaches(node: seq<Node>, rank: seq<nat>, q: nat, p: nat, n: nat, key: Key, i: nat, j: nat)
    requires LinksOk(node, rank) && OnePredecessor(node) && q < |node| && p < |node| && n < |node| && q != p && q != n && p != n
    requires node[q].next == p && (forall x :: 0 <= x < |node| ==> node[x].next != n)
    requires LinksOk(MovedAway(node, q, p, n, key), rank[n := rank[p]])
    requires i < |node| && i != n && Reaches(node, rank, i, j)
    ensures Reaches(MovedAway(node, q, p, n, key), rank[n := rank[p]], Relocated(i, p, n), Relocated(j, p, n))
    decreases rank[i]
  {
    var node2, rank2 := MovedAway(node, q, p, n, key), rank[n := rank[p]];
    assert LinkOk(node, rank, i) && LinkOk(node2, rank2, Relocated(i, p, n));
    if i != j {
      MovedReaches(node, rank, q, p, n, key, node[i].next, j);
      assert node2[Relocated(i, p, n)].next == Relocated(node[i].next, p, n);
    }
  }

  lemma MovedLinks(node: seq<Node>, rank: seq<nat>, q: nat, p: nat, n: nat, key: Key)
    requires LinksOk(node, rank) && OnePredecessor(node) && q < |node| && p < |node| && n < |node| && q != p && q != n && p != n
    requires node[q].next == p && node[n].key.Nil? && FreeOk(node, n)
    ensures LinksOk(MovedAway(node, q, p, n, key), rank[n := rank[p]]) && OnePredecessor(MovedAway(node, q, p, n, key))
    ensures forall x :: 0 <= x < |node| ==> MovedAway(node, q, p, n, key)[x].next != p
  {
    var node2, rank2 := MovedAway(node, q, p, n, key), rank[n := rank[p]];
    forall i | 0 <= i < |node| ensures LinkOk(node2, rank2, i) && node2[i].next != p {
      assert LinkOk(node, rank, i) && LinkOk(node, rank, p) && LinkOk(node, rank, q);
    }
  }

  /** The colliding key is not in its main position: it makes room, and the new key takes its own. */
  lemma PlacedInstead(hash: HashFn, node: seq<Node>, rank: seq<nat>, lastfree: int, key: Key, n: nat, q: nat)
    requires HashOk(hash, node, rank, lastfree) && Absent(node, key) && !key.Nil? && !key.NaN?
    requires n < |node| && node[n].key.Nil? && q < |node|
    requires var p := MainPos(hash, |node|, key); !node[p].key.Nil? && !InPlace(hash, node, p) && node[q].next == p
    ensures var p := MainPos(hash, |node|, key); HashOk(hash, MovedAway(node, q, p, n, key), rank[n := rank[p]], lastfree)
  {
    var p := MainPos(hash, |node|, key);
    var node2, rank2 := MovedAway(node, q, p, n, key), rank[n := rank[p]];
    assert FreeOk(node, n) && FreeOk(node, q) && LinkOk(node, rank, q);
    MovedLinks(node, rank, q, p, n, key);
    forall i | 0 <= i < |node| ensures FreeOk(node2, i) && KeyOk(hash, node2, rank2, i) {
      assert FreeOk(node, i) && KeyOk(hash, node, rank, i) && KeyOk(hash, node, rank, p);
      if i == p {
        assert Reaches(node2, rank2, p, p);
      } else if i == n {
        MovedKey(hash, node, rank, q, p, n, key, p);
      } else {
        MovedKey(hash, node, rank, q, p, n, key, i);
      }
    }
  }

  lemma MovedKey(hash: HashFn, node: seq<Node>, rank: seq<nat>, q: nat, p: nat, n: nat, key: Key, j: nat)
    requires LinksOk(node, rank) && OnePredecessor(node) && q < |node| && p < |node| && n < |node| && q != p && q != n && p != n
    requires node[q].next == p && node[n].key.Nil? && FreeOk(node, n) && j < |node| && !InPlace(hash, node, p)
    requires LinksOk(MovedAway(node, q, p, n, key), rank[n := rank[p]])
    requires KeyOk(hash, node, rank, j) && j != n && MainPos(hash, |node|, key) == p && !key.Nil?
    ensures KeyOk(hash, MovedAway(node, q, p, n, key), rank[n := rank[p]], Relocated(j, p, n))
  {
    if !node[j].key.Nil? {
      MovedReaches(node, rank, q, p, n, key, MainPos(hash, |node|, node[j].key), j);
    }
  }
}
