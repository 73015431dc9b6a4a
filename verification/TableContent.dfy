/**
The finite map that a table stands for, given its array part and its hash part.
*/
module TableContent {
  import opened HashPart

  /** Keys that live in an array part of size `n`. */
  predicate ArrayKey(key: Key, n: nat) {
    key.Int? && 1 <= key.k <= n
  }

  /** No key of the array part is in the hash part. */
  ghost predicate Apart(arr: seq<Value>, node: seq<Node>) {
    forall i :: 0 <= i < |node| ==> !ArrayKey(node[i].key, |arr|)
  }

  ghost predicate PartsOk(arr: seq<Value>, node: seq<Node>) {
    KeysDistinct(node) && Apart(arr, node) && forall i :: 0 <= i < |node| && node[i].val != Empty ==> !node[i].key.Nil?
  }

  function ArrayKeys(arr: seq<Value>): (s: set<Key>)
    ensures forall key :: key in s <==> ArrayKey(key, |arr|) && arr[key.k - 1] != Empty
  {
    set i | 0 <= i < |arr| && arr[i] != Empty :: Int(i + 1)
  }

  function NodeKeys(node: seq<Node>): (s: set<Key>)
    ensures forall i :: 0 <= i < |node| && node[i].val != Empty ==> node[i].key in s
    ensures forall key :: key in s ==> exists i :: 0 <= i < |node| && node[i].val != Empty && node[i].key == key
  {
    set i | 0 <= i < |node| && node[i].val != Empty :: node[i].key
  }

  /** The position of the node that holds `key` and a value. */
  ghost function NodeOf(node: seq<Node>, key: Key): (i: nat)
    requires key in NodeKeys(node)
    ensures i < |node| && node[i].val != Empty && node[i].key == key
  {
    var i :| 0 <= i < |node| && node[i].val != Empty && node[i].key == key;
    i
  }

  ghost function Content(arr: seq<Value>, node: seq<Node>): (m: map<Key, Value>)
    ensures m.Keys == ArrayKeys(arr) + NodeKeys(node)
  {
    map key | key in ArrayKeys(arr) + NodeKeys(node) ::
      if key in ArrayKeys(arr) then arr[key.k - 1] else node[NodeOf(node, key)].val
  }

  /** The value of a key, nil if it has none. */
  function At(m: map<Key, Value>, key: Key): Value {
    if key in m then m[key] else Empty
  }

  /** An assignment: nil removes the key. */
  function Put(m: map<Key, Value>, key: Key, v: Value): map<Key, Value> {
    if v == Empty then m - {key} else m[key := v]
  }

  lemma AtNode(arr: seq<Value>, node: seq<Node>, i: nat)
    requires PartsOk(arr, node) && i < |node| && !node[i].key.Nil?
    ensures At(Content(arr, node), node[i].key) == node[i].val
  {
    var key := node[i].key;
    assert key !in ArrayKeys(arr);
    if key in NodeKeys(node) {
      var j := NodeOf(node, key);
      assert j == i by {
        assert node[j].key == node[i].key;
      }
    }
  }

  lemma AtArray(arr: seq<Value>, node: seq<Node>, i: nat)
    requires PartsOk(arr, node) && i < |arr|
    ensures At(Content(arr, node), Int(i + 1)) == arr[i]
  {
    assert ArrayKey(Int(i + 1), |arr|);
  }

  lemma AtAbsent(arr: seq<Value>, node: seq<Node>, key: Key)
    requires Absent(node, key) && !ArrayKey(key, |arr|)
    ensures At(Content(arr, node), key) == Empty && key !in Content(arr, node)
  {
    assert key !in NodeKeys(node);
  }

  /** Two contents are equal when every key has the same value in both. */
  lemma SameContent(m: map<Key, Value>, m2: map<Key, Value>)
    requires forall key :: At(m, key) == At(m2, key)
    requires forall key :: key in m ==> m[key] != Empty
    requires forall key :: key in m2 ==> m2[key] != Empty
    ensures m == m2
  {
    forall key ensures key in m <==> key in m2 {
      assert At(m, key) == At(m2, key);
    }
    forall key | key in m ensures m[key] == m2[key] {
      assert At(m, key) == At(m2, key);
    }
  }

  lemma NoEmpty(arr: seq<Value>, node: seq<Node>)
    ensures forall key :: key in Content(arr, node) ==> Content(arr, node)[key] != Empty
  {
  }

  /** Every key of either table has the same value in the other, so they stand for the same map. */
  lemma SameParts(arr: seq<Value>, node: seq<Node>, node2: seq<Node>)
    requires PartsOk(arr, node) && PartsOk(arr, node2)
    requires forall i :: 0 <= i < |node| && node[i].val != Empty ==>
               exists j :: 0 <= j < |node2| && node2[j].key == node[i].key && node2[j].val == node[i].val
    requires forall j :: 0 <= j < |node2| && node2[j].val != Empty ==>
               exists i :: 0 <= i < |node| && node[i].key == node2[j].key && node[i].val == node2[j].val
    ensures Content(arr, node2) == Content(arr, node)
  {
    NoEmpty(arr, node);
    NoEmpty(arr, node2);
    forall key ensures At(Content(arr, node), key) == At(Content(arr, node2), key) {
      if key in ArrayKeys(arr) {
        AtArray(arr, node, key.k - 1);
        AtArray(arr, node2, key.k - 1);
      } else if key in NodeKeys(node) {
        SameNode(arr, node, node2, NodeOf(node, key));
      } else if key in NodeKeys(node2) {
        SameNode(arr, node2, node, NodeOf(node2, key));
      }
    }
    SameContent(Content(arr, node), Content(arr, node2));
  }

  lemma SameNode(arr: seq<Value>, node: seq<Node>, node2: seq<Node>, i: nat)
    requires PartsOk(arr, node) && PartsOk(arr, node2) && i < |node| && node[i].val != Empty
    requires exists j :: 0 <= j < |node2| && node2[j].key == node[i].key && node2[j].val == node[i].val
    ensures At(Content(arr, node), node[i].key) == At(Content(arr, node2), node[i].key)
  {
    AtNode(arr, node, i);
    var j :| 0 <= j < |node2| && node2[j].key == node[i].key && node2[j].val == node[i].val;
    AtNode(arr, node2, j);
  }

  /** Assigning to the node of a key. */
  lemma NodeAssigned(arr: seq<Value>, node: seq<Node>, p: nat, v: Value)
    requires PartsOk(arr, node) && p < |node| && !node[p].key.Nil?
    ensures var node2 := node[p := node[p].(val := v)];
            PartsOk(arr, node2) && Content(arr, node2) == Put(Content(arr, node), node[p].key, v)
  {
    var node2 := node[p := node[p].(val := v)];
    NoEmpty(arr, node);
    NoEmpty(arr, node2);
    forall key ensures At(Content(arr, node2), key) == At(Put(Content(arr, node), node[p].key, v), key) {
      if key == node[p].key {
        AtNode(arr, node2, p);
      } else if key in ArrayKeys(arr) {
        AtArray(arr, node, key.k - 1);
        AtArray(arr, node2, key.k - 1);
      } else if key in NodeKeys(node) {
        var i := NodeOf(node, key);
        AtNode(arr, node, i);
        AtNode(arr, node2, i);
      }
    }
    SameContent(Content(arr, node2), Put(Content(arr, node), node[p].key, v));
  }

  /** Assigning to a slot of the array part. */
  lemma ArrayAssigned(arr: seq<Value>, node: seq<Node>, p: nat, v: Value)
    requires PartsOk(arr, node) && p < |arr|
    ensures PartsOk(arr[p := v], node) && Content(arr[p := v], node) == Put(Content(arr, node), Int(p + 1), v)
  {
    var arr2 := arr[p := v];
    NoEmpty(arr, node);
    NoEmpty(arr2, node);
    forall key ensures At(Content(arr2, node), key) == At(Put(Content(arr, node), Int(p + 1), v), key) {
      if ArrayKey(key, |arr|) {
        AtArray(arr, node, key.k - 1);
        AtArray(arr2, node, key.k - 1);
      } else if key in NodeKeys(node) {
        var i := NodeOf(node, key);
        AtNode(arr, node, i);
        AtNode(arr2, node, i);
      }
    }
    SameContent(Content(arr2, node), Put(Content(arr, node), Int(p + 1), v));
  }

  // ------------------------------------------------- the content stays the same

  lemma NoBadKey(hash: HashFn, arr: seq<Value>, node: seq<Node>, rank: seq<nat>, lastfree: int, key: Key)
    requires HashOk(hash, node, rank, lastfree) && PartsOk(arr, node) && (key.Nil? || key.NaN?)
    ensures key !in Content(arr, node)
  {
    forall i | 0 <= i < |node| && node[i].val != Empty ensures node[i].key != key {
      assert KeyOk(hash, node, rank, i);
    }
  }

  /** A node without a value was given another key. */
  lemma OverwrittenSame(arr: seq<Value>, node: seq<Node>, p: nat, key: Key)
    requires PartsOk(arr, node) && p < |node| && node[p].val == Empty
    requires Absent(node, key) && !ArrayKey(key, |arr|)
    ensures var node2 := node[p := node[p].(key := key)];
            PartsOk(arr, node2) && Content(arr, node2) == Content(arr, node)
  {
    var node2 := node[p := node[p].(key := key)];
    forall i | 0 <= i < |node| && node[i].val != Empty ensures node2[i] == node[i] {}
    SameParts(arr, node, node2);
  }

  lemma BehindSame(arr: seq<Value>, node: seq<Node>, p: nat, n: nat, key: Key)
    requires PartsOk(arr, node) && p < |node| && n < |node| && p != n && node[n] == FREE
    requires Absent(node, key) && !ArrayKey(key, |arr|)
    ensures var node2 := ChainedBehind(node, p, n, key);
            PartsOk(arr, node2) && Content(arr, node2) == Content(arr, node)
  {
    var node2 := ChainedBehind(node, p, n, key);
    assert forall i :: 0 <= i < |node| && i != n ==> node2[i].key == node[i].key && node2[i].val == node[i].val;
    forall i | 0 <= i < |node| && node[i].val != Empty
      ensures exists j :: 0 <= j < |node2| && node2[j].key == node[i].key && node2[j].val == node[i].val
    {
      assert node2[i].key == node[i].key;
    }
    SameParts(arr, node, node2);
  }

  lemma MovedSame(arr: seq<Value>, node: seq<Node>, q: nat, p: nat, n: nat, key: Key)
    requires PartsOk(arr, node) && q < |node| && p < |node| && n < |node| && q != p && q != n && p != n && node[n] == FREE
    requires Absent(node, key) && !ArrayKey(key, |arr|)
    ensures var node2 := MovedAway(node, q, p, n, key);
            PartsOk(arr, node2) && Content(arr, node2) == Content(arr, node)
  {
    var node2 := MovedAway(node, q, p, n, key);
    assert forall i :: 0 <= i < |node| && i != n && i != p ==> node2[i].key == node[i].key && node2[i].val == node[i].val;
    forall i | 0 <= i < |node| && node[i].val != Empty
      ensures exists j :: 0 <= j < |node2| && node2[j].key == node[i].key && node2[j].val == node[i].val
    {
      var j := Relocated(i, p, n);
      assert node2[j].key == node[i].key;
    }
    forall j | 0 <= j < |node2| && node2[j].val != Empty
      ensures exists i :: 0 <= i < |node| && node[i].key == node2[j].key && node[i].val == node2[j].val
    {
      var i := if j == n then p else j;
      assert node[i].key == node2[j].key;
    }
    SameParts(arr, node, node2);
  }

  // -------------------------------------------------------------------- room

  /** The keys of the hash part, with a value or without. */
  function Keys(node: seq<Node>): (s: set<Key>)
    ensures forall i :: 0 <= i < |node| && !node[i].key.Nil? ==> node[i].key in s
    ensures forall key :: key in s ==> exists i :: 0 <= i < |node| && !node[i].key.Nil? && node[i].key == key
  {
    set i | 0 <= i < |node| && !node[i].key.Nil? :: node[i].key
  }

  /** Some node is free. */
  predicate HasFree(node: seq<Node>) {
    exists i :: 0 <= i < |node| && node[i].key.Nil?
  }

  /** Fewer keys than nodes leave a free node. */
  lemma RoomLeft(node: seq<Node>)
    requires KeysDistinct(node) && |Keys(node)| < |node|
    ensures HasFree(node)
  {
    if !HasFree(node) {
      FullKeys(node);
    }
  }

  lemma {:induction false} FullKeys(node: seq<Node>)
    requires KeysDistinct(node) && !HasFree(node)
    ensures |Keys(node)| == |node|
  {
    if node != [] {
      var n := |node| - 1;
      var q := node[..n];
      assert forall i :: 0 <= i < n ==> q[i] == node[i];
      FullKeys(q);
      assert Keys(node) == Keys(q) + {node[n].key};
      assert node[n].key !in Keys(q);
    }
  }
}
