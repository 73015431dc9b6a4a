/**
Tables: search, insertion and growth, against the map a table stands for.
*/
module LuaTable {
  import opened HashPart
  import opened TableContent
  import opened TableSizes

  /** What a search finds: a slot of the array part, a node, or nothing. */
  datatype Slot = InArray(i: nat) | InNode(i: nat) | NoSlot

  /** The errors `luaH_set` and `setnodevector` raise. */
  datatype Status = Fine | Error(message: string) {
    predicate IsFailure() {
      Error?
    }
    function PropagateFailure(): Status {
      this
    }
  }

  /** The slot is that of `key`. */
  ghost predicate SlotOf(arr: seq<Value>, node: seq<Node>, s: Slot, key: Key) {
    match s
    case InArray(i) => ArrayKey(key, |arr|) && i == key.k - 1
    case InNode(i) => i < |node| && node[i].key == key && !key.Nil?
    case NoSlot => false
  }

  /** So many nodes are made for `n` keys: the common empty one, or the least power of two. */
  ghost predicate NodesFor(count: nat, n: nat) {
    if n == 0 then count == 1 else exists i: nat :: count == Pow2(i) && n <= count && (i > 0 ==> Pow2(i - 1) < n)
  }

  /** The keys that an array part of size `n` leaves to the hash part. */
  function Demand(keys: set<Key>, n: nat): set<Key> {
    set key | key in keys && !ArrayKey(key, n)
  }

  /** Every key of `m` has in `total` the value it has in `m`. */
  ghost predicate SubMap(m: map<Key, Value>, total: map<Key, Value>) {
    forall key :: key in m ==> key in total && m[key] == total[key]
  }

  /** The elements of the first `i` slots of the old array part are in `m`. */
  ghost predicate ArrayBack(aold: seq<Value>, m: map<Key, Value>, i: nat) {
    forall k :: 0 <= k < i && k < |aold| && aold[k] != Empty ==> Int(k + 1) in m
  }

  /** The elements of the old nodes from `j` on are in `m`. */
  ghost predicate NodesBack(nold: seq<Node>, m: map<Key, Value>, j: int) {
    forall k :: 0 <= k < |nold| && j <= k && nold[k].val != Empty ==> nold[k].key in m
  }

  lemma NodesStart(hash: HashFn, nold: seq<Node>, rold: seq<nat>, lold: int, m: map<Key, Value>)
    requires HashOk(hash, nold, rold, lold)
    ensures forall k :: 0 <= k < |nold| && nold[k].val != Empty ==> !nold[k].key.Nil? && !nold[k].key.NaN?
    ensures NodesBack(nold, m, |nold|)
  {
    forall k | 0 <= k < |nold| && nold[k].val != Empty ensures !nold[k].key.Nil? && !nold[k].key.NaN? {
      assert KeyOk(hash, nold, rold, k) && FreeOk(nold, k);
    }
  }

  lemma BackAdded(aold: seq<Value>, nold: seq<Node>, m: map<Key, Value>, i: nat, j: int, key: Key, v: Value)
    ensures ArrayBack(aold, m, i) ==> ArrayBack(aold, m[key := v], i)
    ensures ArrayBack(aold, m, i) && key == Int(i + 1) ==> ArrayBack(aold, m[key := v], i + 1)
    ensures ArrayBack(aold, m, i) && i >= |aold| ==> ArrayBack(aold, m, |aold|)
    ensures ArrayBack(aold, m, i) && i < |aold| && aold[i] == Empty ==> ArrayBack(aold, m, i + 1)
    ensures NodesBack(nold, m, j) && 0 < j <= |nold| && nold[j - 1].key == key ==> NodesBack(nold, m[key := v], j - 1)
    ensures NodesBack(nold, m, j) && 0 < j <= |nold| && nold[j - 1].val == Empty ==> NodesBack(nold, m, j - 1)
  {
  }

  lemma SubMapAdded(m: map<Key, Value>, total: map<Key, Value>, key: Key)
    requires SubMap(m, total) && key in total
    ensures SubMap(m[key := total[key]], total)
  {
  }

  class Table {
    var arr: seq<Value>
    var node: seq<Node>
    /** The hash part is the common empty node. */
    var dummy: bool
    var lastfree: int
    const hash: HashFn
    ghost var rank: seq<nat>

    ghost predicate Valid()
      reads this
    {
      && HashOk(hash, node, rank, if dummy then |node| else lastfree) && PartsOk(arr, node) && |arr| <= MAXASIZE
      && (dummy ==> node == [FREE] && lastfree <= 0)
    }

    /** As `Valid`, with the free node `n` found but not yet used. */
    ghost predicate ValidBut(n: nat)
      reads this
    {
      && HashOk(hash, node, rank, lastfree + 1) && PartsOk(arr, node) && |arr| <= MAXASIZE
      && !dummy && lastfree == n < |node| && node[n].key.Nil?
    }

    ghost function Map(): map<Key, Value>
      reads this
    {
      Content(arr, node)
    }

    // --------------------------------------------------------------- search

    /** The loop of the search functions: the node of the chain from `i` on that holds `key`, or -1. */
    method FindInChain(i: nat, key: Key) returns (j: int)
      requires LinksOk(node, rank) && i < |node|
      ensures -1 <= j < |node|
      ensures j >= 0 ==> node[j].key == key && Reaches(node, rank, i, j)
      ensures j == -1 ==> forall x :: 0 <= x < |node| && node[x].key == key ==> !Reaches(node, rank, i, x)
    {
      j := i;
      while j >= 0 && node[j].key != key
        invariant -1 <= j < |node|
        invariant forall x :: 0 <= x < |node| && node[x].key == key ==>
                    (Reaches(node, rank, i, x) <==> j >= 0 && Reaches(node, rank, j, x))
        invariant j >= 0 ==> Reaches(node, rank, i, j)
        decreases if j >= 0 then rank[j] + 1 else 0
      {
        assert LinkOk(node, rank, j);
        if node[j].next >= 0 {
          ReachesStep(node, rank, i, j);
        }
        j := node[j].next;
      }
    }

    /** The search of `luaH_get`, `luaH_getnum` and `luaH_getstr`. */
    method Find(key: Key) returns (s: Slot)
      requires Valid() && !key.Nil? && !key.NaN?
      ensures s.NoSlot? ==> !ArrayKey(key, |arr|) && Absent(node, key)
      ensures !s.NoSlot? ==> SlotOf(arr, node, s, key)
    {
      if key.Int? && 1 <= key.k <= |arr| {
        return InArray(key.k - 1);
      }
      var p := MainPos(hash, |node|, key);
      var j := FindInChain(p, key);
      if j >= 0 {
        return InNode(j);
      }
      forall x | 0 <= x < |node| ensures node[x].key != key {
        assert KeyOk(hash, node, rank, x);
      }
      return NoSlot;
    }

    /** `luaH_get`: the value of a key, nil if it has none. */
    method Get(key: Key) returns (v: Value)
      requires Valid()
      ensures v == At(Map(), key)
    {
      if key.Nil? || key.NaN? {
        NoBadKey(hash, arr, node, rank, if dummy then |node| else lastfree, key);
        return Empty;
      }
      var s := Find(key);
      match s {
        case InArray(i) =>
          AtArray(arr, node, i);
          return arr[i];
        case InNode(i) =>
          AtNode(arr, node, i);
          return node[i].val;
        case NoSlot =>
          AtAbsent(arr, node, key);
          return Empty;
      }
    }

    // ------------------------------------------------------------ insertion

    /** `getfreepos`: the last free node, or -1. */
    method GetFreePos() returns (n: int)
      requires Valid()
      modifies this`lastfree
      ensures n >= -1 && (n >= 0 ==> ValidBut(n)) && (n == -1 ==> Valid() && (dummy || !HasFree(node)))
    {
      while lastfree > 0
        invariant FreeBelow(node, if dummy then |node| else lastfree) && lastfree <= old(lastfree)
        decreases lastfree
      {
        lastfree := lastfree - 1;
        if node[lastfree].key.Nil? {
          return lastfree;
        }
      }
      lastfree := lastfree - 1;
      return -1;
    }

    /** In `newkey`, the node before `mp` on the chain of the key that is there. */
    method Predecessor(mp: nat) returns (q: nat)
      requires HashOk(hash, node, rank, lastfree + 1) && mp < |node| && node[mp].val != Empty && !InPlace(hash, node, mp)
      ensures q < |node| && node[q].next == mp
    {
      assert FreeOk(node, mp);
      q := MainPos(hash, |node|, node[mp].key);
      assert KeyOk(hash, node, rank, mp);
      while node[q].next != mp
        invariant q < |node| && q != mp && Reaches(node, rank, q, mp)
        decreases rank[q]
      {
        assert LinkOk(node, rank, q);
        q := node[q].next;
      }
    }

    /** A node now holds `key`, and the rest of the table is what it was. */
    twostate predicate Placed(p: nat, key: Key)
      reads this
    {
      && Valid() && Map() == old(Map()) && |node| == |old(node)|
      && p < |node| && node[p].key == key && node[p].val == Empty
      && Keys(node) <= Keys(old(node)) + {key}
    }

    /** In `newkey`, the colliding key is not in its main position and makes room for the new one. */
    method MakeRoom(mp: nat, n: nat, key: Key)
      requires ValidBut(n) && !key.Nil? && !key.NaN? && !ArrayKey(key, |arr|) && Absent(node, key)
      requires mp == MainPos(hash, |node|, key) && node[mp].val != Empty && !InPlace(hash, node, mp)
      modifies this`node, this`rank
      ensures Placed(mp, key)
    {
      hide HashOk, Content, Keys, PartsOk, Absent, InPlace, MainPos;
      ghost var was := node;
      var q := Predecessor(mp);
      RoomMade(hash, arr, node, rank, lastfree, mp, n, q, key);
      rank := rank[n := rank[mp]];
      node := node[q := node[q].(next := n)];
      node := node[n := node[mp]];
      node := node[mp := Node(key, Empty, -1)];
      assert node == MovedAway(was, q, mp, n, key);
    }

    /** In `newkey`, the colliding key is in its main position, and the new one goes to the free node. */
    method ChainFree(mp: nat, n: nat, key: Key)
      requires ValidBut(n) && !key.Nil? && !key.NaN? && !ArrayKey(key, |arr|) && Absent(node, key)
      requires mp == MainPos(hash, |node|, key) && InPlace(hash, node, mp)
      modifies this`node, this`rank
      ensures Placed(n, key)
    {
      ghost var was := node;
      hide HashOk, Content, Keys, PartsOk;
      FreeChained(hash, arr, node, rank, lastfree, mp, n, key);
      rank := Spread(rank, n, mp);
      node := node[n := Node(key, node[n].val, node[mp].next)];
      node := node[mp := node[mp].(next := n)];
      assert node == ChainedBehind(was, mp, n, key);
    }

    /** There is room for `key`: it has a slot, or there is a free node. */
    ghost predicate RoomFor(key: Key)
      reads this
    {
      ArrayKey(key, |arr|) || !Absent(node, key) || (!dummy && HasFree(node))
    }

    /** `newkey`: a slot, still without a value, for a key that is not in the table, which may grow for it. */
    method NewKey(key: Key, ghost room: bool) returns (s: Status, slot: Slot)
      requires Valid() && !key.Nil? && !key.NaN? && !ArrayKey(key, |arr|) && Absent(node, key)
      requires room ==> RoomFor(key)
      modifies this
      ensures s.Fine? ==> Valid() && Map() == old(Map()) && SlotOf(arr, node, slot, key)
      ensures room ==> s.Fine? && |node| == |old(node)| && arr == old(arr) && dummy == old(dummy)
      ensures room ==> Keys(node) <= Keys(old(node)) + {key}
      ensures s.Error? ==> |old(Map()).Keys| >= MAXASIZE
      decreases if room then 0 else 3, 0
    {
      var mp := MainPos(hash, |node|, key);
      if node[mp].val != Empty || dummy {
        var n := GetFreePos();
        if n < 0 {
          slot := NoSlot;
          :- Rehash(key);
          s, slot := Set(key, true);
          return;
        }
        assert FreeOk(node, mp);
        var othern := MainPos(hash, |node|, node[mp].key);
        if othern != mp {
          MakeRoom(mp, n, key);
          return Fine, InNode(mp);
        } else {
          ChainFree(mp, n, key);
          return Fine, InNode(n);
        }
      }
      Overwritten(hash, node, rank, lastfree, key);
      OverwrittenSame(arr, node, mp, key);
      OverwrittenKeys(node, mp, key);
      node := node[mp := node[mp].(key := key)];
      return Fine, InNode(mp);
    }

    /** `luaH_set`: the slot of a key, made if there is none. */
    method Set(key: Key, ghost room: bool) returns (s: Status, slot: Slot)
      requires Valid() && (room ==> !key.Nil? && !key.NaN? && RoomFor(key))
      modifies this
      ensures s.Fine? ==> Valid() && Map() == old(Map()) && SlotOf(arr, node, slot, key)
      ensures s.Fine? ==> !key.Nil? && !key.NaN?
      ensures room ==> s.Fine? && |node| == |old(node)| && arr == old(arr) && dummy == old(dummy)
      ensures room ==> Keys(node) <= Keys(old(node)) + (if ArrayKey(key, |arr|) then {} else {key})
      ensures key.Nil? || key.NaN? ==> Valid() && Map() == old(Map())
      ensures s.Error? ==> key.Nil? || key.NaN? || |old(Map()).Keys| >= MAXASIZE
      decreases if room then 0 else 3, 1
    {
      slot := NoSlot;
      if key.Nil? {
        return Error("table index is nil"), slot;
      } else if key.NaN? {
        return Error("table index is NaN"), slot;
      }
      slot := Find(key);
      if slot != NoSlot {
        return Fine, slot;
      }
      s, slot := NewKey(key, room);
    }

    /** The assignment to a slot. */
    method Assign(slot: Slot, v: Value, ghost key: Key)
      requires Valid() && SlotOf(arr, node, slot, key)
      modifies this`arr, this`node
      ensures Valid() && Map() == TableContent.Put(old(Map()), key, v)
      ensures |arr| == |old(arr)| && |node| == |old(node)| && Keys(node) == Keys(old(node))
    {
      match slot {
        case InArray(i) =>
          ArrayAssigned(arr, node, i, v);
          arr := arr[i := v];
        case InNode(i) =>
          NodeAssigned(arr, node, i, v);
          ValueChanged(hash, node, rank, if dummy then |node| else lastfree, i, v);
          ghost var was := node;
          node := node[i := node[i].(val := v)];
          SameKeys(was, node);
      }
    }

    /** `t[key] = v`: the key has the value, and every other key the value it had. */
    method Put(key: Key, v: Value) returns (s: Status)
      requires Valid()
      modifies this
      ensures s.Fine? ==> Valid() && Map() == TableContent.Put(old(Map()), key, v)
      ensures key.Nil? || key.NaN? ==> s.Error? && Valid() && Map() == old(Map())
      ensures s.Error? ==> key.Nil? || key.NaN? || |old(Map()).Keys| >= MAXASIZE
    {
      var slot;
      s, slot := Set(key, false);
      if s.Fine? {
        Assign(slot, v, key);
      }
    }

    // --------------------------------------------------------------- growth

    /** `setnodevector`. */
    method SetNodeVector(size: nat) returns (s: Status)
      modifies this`node, this`dummy, this`lastfree, this`rank
      ensures s.Fine? ==> HashOk(hash, node, rank, |node|) && (forall i :: 0 <= i < |node| ==> node[i] == FREE)
      ensures s.Fine? ==> |node| >= size && (dummy <==> size == 0) && NodesFor(|node|, size)
      ensures s.Fine? ==> if dummy then node == [FREE] && lastfree == 0 else lastfree == |node|
      ensures s.Error? ==> size > MAXASIZE
    {
      if size == 0 {
        node := [FREE];
        dummy := true;
        FreshOk(hash, node);
        rank := seq(|node|, _ => 0);
        lastfree := 0;
        return Fine;
      }
      var lsize := CeilLog2(size);
      if lsize > MAXBITS {
        MaxBits();
        Pow2Mono(MAXBITS, lsize - 1);
        return Error("table overflow");
      }
      node := seq(Pow2(lsize), _ => FREE);
      dummy := false;
      FreshOk(hash, node);
      rank := seq(|node|, _ => 0);
      lastfree := |node|;
      return Fine;
    }

    /** During `resize`: what has been put back so far is part of `total`, and there is room for the rest. */
    ghost predicate Refilling(total: map<Key, Value>, nasize: nat, nhsize: nat)
      reads this
    {
      && Valid() && |arr| == nasize && |node| >= nhsize && (dummy <==> nhsize == 0) && NodesFor(|node|, nhsize)
      && |Demand(total.Keys, nasize)| <= nhsize
      && SubMap(Map(), total)
      && Keys(node) <= Map().Keys
    }

    /** A key and its value are put back: there is always room. */
    method Reinsert(key: Key, v: Value, ghost total: map<Key, Value>, ghost nasize: nat, ghost nhsize: nat)
      requires Refilling(total, nasize, nhsize) && key in total && total[key] == v && v != Empty && !key.Nil? && !key.NaN?
      modifies this
      ensures Refilling(total, nasize, nhsize) && Map() == old(Map())[key := v]
      decreases 1, 0
    {
      RoomToRefill(arr, node, total, key, nasize, nhsize, dummy);
      SubMapAdded(Map(), total, key);
      hide HashOk, PartsOk, Content, Demand, Keys, SubMap, SlotOf, Absent, HasFree, NodesFor;
      var s, slot := Set(key, true);
      Assign(slot, v, key);
    }

    /** `resize`: the two parts get new sizes and every key its slot again, without another `rehash`. */
    method Resize(nasize: nat, nhsize: nat) returns (s: Status)
      requires Valid() && nasize <= MAXASIZE && |Demand(Map().Keys, nasize)| <= nhsize
      modifies this
      ensures s.Fine? ==> Valid() && Map() == old(Map())
      ensures s.Fine? ==> |arr| == nasize && |node| >= nhsize && (dummy ==> nhsize == 0) && NodesFor(|node|, nhsize)
      ensures s.Fine? ==> Keys(node) <= Demand(Map().Keys, nasize)
      ensures s.Error? ==> nhsize > MAXASIZE
      decreases 1, 2
    {
      ghost var total := Map();
      var aold, nold := arr, node;
      ghost var rold, lold := rank, if dummy then |node| else lastfree;
      if nasize > |arr| {
        arr := arr + seq(nasize - |arr|, _ => Empty);
      }
      :- SetNodeVector(nhsize);
      if nasize < |arr| {
        arr := arr[..nasize];
      }
      StartRefill(aold, nold, arr, node, nasize);
      ValidStart(total, nasize, nhsize);
      hide HashOk, PartsOk, Content, Valid, NodesFor;
      RefillArray(aold, nold, nasize, nhsize);
      RefillNodes(aold, nold, rold, lold, nasize, nhsize);
      Refilled(aold, nold, Map());
      EndRefill(total, nasize, nhsize);
      return Fine;
    }

    /** In `resize`, the elements of a vanishing slice of the array part are put back. */
    method RefillArray(aold: seq<Value>, ghost nold: seq<Node>, nasize: nat, ghost nhsize: nat)
      requires PartsOk(aold, nold) && Refilling(Content(aold, nold), nasize, nhsize)
      requires ArrayBack(aold, Map(), nasize)
      modifies this
      ensures Refilling(Content(aold, nold), nasize, nhsize)
      ensures ArrayBack(aold, Map(), |aold|)
      decreases 1, 1
    {
      hide Refilling, PartsOk, Content, Demand, ArrayBack, NodesBack;
      var i := nasize;
      while i < |aold|
        invariant nasize <= i && Refilling(Content(aold, nold), nasize, nhsize)
        invariant ArrayBack(aold, Map(), i)
      {
        BackAdded(aold, nold, Map(), i, |nold|, Int(i + 1), aold[i]);
        if aold[i] != Empty {
          AtArray(aold, nold, i);
          Reinsert(Int(i + 1), aold[i], Content(aold, nold), nasize, nhsize);
        }
        i := i + 1;
      }
      BackAdded(aold, nold, Map(), i, 0, Nil, Empty);
    }

    /** In `resize`, the elements of the old hash part are put back. */
    method RefillNodes(ghost aold: seq<Value>, nold: seq<Node>, ghost rold: seq<nat>, ghost lold: int, nasize: nat, ghost nhsize: nat)
      requires HashOk(hash, nold, rold, lold) && PartsOk(aold, nold) && Refilling(Content(aold, nold), nasize, nhsize)
      requires ArrayBack(aold, Map(), |aold|)
      modifies this
      ensures Refilling(Content(aold, nold), nasize, nhsize)
      ensures ArrayBack(aold, Map(), |aold|)
      ensures NodesBack(nold, Map(), 0)
      decreases 1, 1
    {
      hide Refilling, PartsOk, Content, HashOk, ArrayBack, NodesBack;
      NodesStart(hash, nold, rold, lold, Map());
      var j := |nold|;
      while j > 0
        invariant 0 <= j <= |nold| && Refilling(Content(aold, nold), nasize, nhsize)
        invariant ArrayBack(aold, Map(), |aold|)
        invariant NodesBack(nold, Map(), j)
      {
        BackAdded(aold, nold, Map(), |aold|, j, nold[j - 1].key, nold[j - 1].val);
        j := j - 1;
        if nold[j].val != Empty {
          AtNode(aold, nold, j);
          Reinsert(nold[j].key, nold[j].val, Content(aold, nold), nasize, nhsize);
        }
      }
    }

    lemma ValidStart(total: map<Key, Value>, nasize: nat, nhsize: nat)
      requires HashOk(hash, node, rank, |node|) && PartsOk(arr, node) && |arr| == nasize <= MAXASIZE
      requires if dummy then node == [FREE] && lastfree == 0 && nhsize == 0 else lastfree == |node|
      requires |node| >= nhsize && |Demand(total.Keys, nasize)| <= nhsize && Keys(node) == {}
      requires (dummy <==> nhsize == 0) && NodesFor(|node|, nhsize)
      requires SubMap(Map(), total)
      ensures Refilling(total, nasize, nhsize)
    {
      hide HashOk, PartsOk, Content;
    }

    lemma EndRefill(total: map<Key, Value>, nasize: nat, nhsize: nat)
      requires Refilling(total, nasize, nhsize)
      ensures Valid() && |arr| == nasize && |node| >= nhsize && (dummy ==> nhsize == 0) && NodesFor(|node|, nhsize)
      ensures Keys(node) <= Demand(Map().Keys, nasize)
    {
      DemandCovers(arr, node);
    }

    /** `rehash`: sizes for the keys there are and one more, which then has room. */
    method Rehash(ek: Key) returns (s: Status)
      requires Valid() && !ek.Nil? && !ek.NaN? && !ArrayKey(ek, |arr|) && Absent(node, ek)
      modifies this
      ensures s.Fine? ==> Valid() && Map() == old(Map()) && RoomFor(ek)
      ensures s.Fine? ==> SizesFor(old(arr), old(node), ek, |arr|, |node|)
      ensures s.Error? ==> |old(Map()).Keys| >= MAXASIZE
      decreases 2, 0
    {
      hide Content, Demand, BestSize, AllInts, NodesFor, SizesFor;
      var n, nhsize := NewSizes(arr, node, ek);
      DemandAtMost(Map().Keys, n);
      ghost var aold, nold := arr, node;
      :- Resize(n, nhsize);
      SizesChosen(aold, nold, ek, n, nhsize, |node|);
      RoomAfter(node, Map().Keys, ek, n, nhsize, dummy);
      return Fine;
    }

    // -------------------------------------------------------------- creation

    /** The temporary values of `luaH_new`: no array part, and the common empty node. */
    constructor (h: HashFn)
      ensures Valid() && Map() == map[] && hash == h && dummy
    {
      hash := h;
      arr := [];
      node := [FREE];
      rank := [0];
      dummy := true;
      lastfree := 0;
      new;
      FreshOk(h, node);
      assert seq(|node|, _ => 0) == rank;
      assert ArrayKeys(arr) == {} && NodeKeys(node) == {};
    }

    /** `luaH_new`. */
    static method New(h: HashFn, narray: nat, nhash: nat) returns (s: Status, t: Table)
      requires narray <= MAXASIZE
      ensures fresh(t) && (s.Fine? ==> t.Valid() && t.Map() == map[] && |t.arr| == narray)
      ensures s.Fine? ==> NodesFor(|t.node|, nhash)
      ensures s.Error? ==> nhash > MAXASIZE
    {
      t := new Table(h);
      t.arr := seq(narray, _ => Empty);
      s := t.SetNodeVector(nhash);
      if s.Fine? {
        assert ArrayKeys(t.arr) == {} && NodeKeys(t.node) == {};
      }
      return s, t;
    }

    // ------------------------------------------------------------- traversal

    /** `findindex`: the position of a key in a traversal, -1 for the start. */
    method FindIndex(key: Key) returns (s: Status, i: int)
      requires Valid()
      ensures s.Fine? ==> PositionOf(arr, node, key, i)
      ensures s.Error? ==> !key.Nil? && forall j :: 0 <= j < |arr| + |node| ==> EntryAt(arr, node, j).0 != key
    {
      i := -1;
      if key.Nil? {
        return Fine, -1;
      }
      if key.NaN? {
        forall j | 0 <= j < |arr| + |node| ensures EntryAt(arr, node, j).0 != key {
          if j >= |arr| {
            assert KeyOk(hash, node, rank, j - |arr|);
          }
        }
        return Error("invalid key to 'next'"), -1;
      }
      var slot := Find(key);
      match slot {
        case InArray(k) => return Fine, k;
        case InNode(k) => return Fine, k + |arr|;
        case NoSlot => return Error("invalid key to 'next'"), -1;
      }
    }

    /** `luaH_next`: the first key with a value behind the given one, and the value. */
    method Next(key: Key) returns (s: Status, more: bool, k: Key, v: Value, ghost from: int, ghost at: int)
      requires Valid()
      ensures s.Error? ==> !key.Nil? && forall j :: 0 <= j < |arr| + |node| ==> EntryAt(arr, node, j).0 != key
      ensures s.Fine? ==> PositionOf(arr, node, key, from) && FirstAfter(arr, node, from, at)
      ensures s.Fine? ==> (more <==> at < |arr| + |node|) && (more ==> (k, v) == EntryAt(arr, node, at))
    {
      more, k, v, from, at := false, Nil, Empty, -1, |arr| + |node|;
      var i :- FindIndex(key);
      from := i;
      i := i + 1;
      while i < |arr|
        invariant from < i
        invariant forall j :: from < j < i && j < |arr| + |node| ==> EntryAt(arr, node, j).1 == Empty
      {
        if arr[i] != Empty {
          at := i;
          return Fine, true, Int(i + 1), arr[i], from, i;
        }
        i := i + 1;
      }
      i := i - |arr|;
      while i < |node|
        invariant 0 <= i && from < i + |arr|
        invariant forall j :: from < j < i + |arr| && j < |arr| + |node| ==> EntryAt(arr, node, j).1 == Empty
      {
        if node[i].val != Empty {
          return Fine, true, node[i].key, node[i].val, from, i + |arr|;
        }
        i := i + 1;
      }
      return Fine, false, Nil, Empty, from, |arr| + |node|;
    }

    /** A traversal from nil on, of a table that is not changed: every key with a value, once, with its value. */
    method Traverse() returns (q: seq<(Key, Value)>)
      requires Valid()
      ensures Lists(q, Map())
    {
      hide HashOk, Content, Entries, Lists, PartsOk, FirstAfter;
      EntriesNone(arr, node);
      q := [];
      var key, done := Nil, false;
      ghost var at := -1;
      while !done
        invariant -1 <= at <= |arr| + |node| && (done <==> at == |arr| + |node|)
        invariant !done ==> PositionOf(arr, node, key, at)
        invariant q == Entries(arr, node, if done then at else at + 1)
        decreases |arr| + |node| - at
      {
        var s, more, k, v, from, next := Next(key);
        if s.Error? {
          assert false;
          return;
        }
        PositionOnce(arr, node, key, at);
        EntriesNext(arr, node, at, next);
        NextPosition(arr, node, at, next);
        if more {
          q := q + [(k, v)];
          key := k;
        } else {
          done := true;
        }
        at := next;
      }
      EntriesContent(arr, node);
    }

    // --------------------------------------------------------------- length

    /** The end of `unbound_search`: from 1 on, up to the first index without a value. */
    method LinearSearch() returns (n: nat)
      requires Valid()
      ensures Boundary(Map(), n)
    {
      hide Valid, Content, At, Map;
      var i: nat := 1;
      var v := Get(Int(i));
      while v != Empty
        invariant i >= 1 && v == At(Map(), Int(i))
        invariant i == 1 || At(Map(), Int(i - 1)) != Empty
        decreases |Remaining(Map(), i)|
      {
        RemainingLess(Map(), i);
        i := i + 1;
        v := Get(Int(i));
      }
      return i - 1;
    }

    /** `unbound_search`: a boundary behind `j0`, which is 0 or an index with a value. */
    method UnboundSearch(j0: nat) returns (n: nat)
      requires Valid() && (j0 == 0 || At(Map(), Int(j0)) != Empty) && j0 < MAX_INT
      ensures Boundary(Map(), n)
    {
      hide Valid, Content;
      var i: nat, j: nat := j0, j0 + 1;
      var v := Get(Int(j));
      while v != Empty
        invariant i < j <= MAX_INT && v == At(Map(), Int(j)) && (i == 0 || At(Map(), Int(i)) != Empty)
        decreases MAX_INT - j
      {
        i := j;
        j := j * 2;
        if j > MAX_INT {
          n := LinearSearch();
          return;
        }
        v := Get(Int(j));
      }
      while j - i > 1
        invariant i < j && At(Map(), Int(j)) == Empty && (i == 0 || At(Map(), Int(i)) != Empty)
      {
        var m := (i + j) / 2;
        var w := Get(Int(m));
        if w == Empty {
          j := m;
        } else {
          i := m;
        }
      }
      return i;
    }

    /** `luaH_getn`: an index with a value (or 0) whose successor has none. */
    method GetN() returns (n: nat)
      requires Valid()
      ensures Boundary(Map(), n)
    {
      var j := |arr|;
      if j > 0 && arr[j - 1] == Empty {
        hide HashOk, Content;
        var i: nat := 0;
        AtArray(arr, node, j - 1);
        while j - i > 1
          invariant i < j <= |arr| && At(Map(), Int(j)) == Empty && (i == 0 || At(Map(), Int(i)) != Empty)
        {
          var m := (i + j) / 2;
          AtArray(arr, node, m - 1);
          if arr[m - 1] == Empty {
            j := m;
          } else {
            i := m;
          }
        }
        return i;
      }
      if j > 0 {
        AtArray(arr, node, j - 1);
      }
      if dummy {
        AtAbsent(arr, node, Int(j + 1));
        return j;
      }
      n := UnboundSearch(j);
    }
  }

  /** The integer keys from `i` on. */
  function Remaining(m: map<Key, Value>, i: int): set<Key> {
    set key | key in m && key.Int? && key.k >= i
  }

  lemma RemainingLess(m: map<Key, Value>, i: int)
    requires At(m, Int(i)) != Empty
    ensures |Remaining(m, i + 1)| < |Remaining(m, i)|
  {
    assert Remaining(m, i) == Remaining(m, i + 1) + {Int(i)};
  }

  const MAX_INT: nat := 0x7fff_fffd

  /** A boundary: the index has a value, or is 0, and the next one has none. */
  predicate Boundary(m: map<Key, Value>, n: nat) {
    (n == 0 || At(m, Int(n)) != Empty) && At(m, Int(n + 1)) == Empty
  }

  /** The entries of a table in the order of a traversal: first the array part, then the nodes. */
  function EntryAt(arr: seq<Value>, node: seq<Node>, j: nat): (Key, Value)
    requires j < |arr| + |node|
  {
    if j < |arr| then (Int(j + 1), arr[j]) else (node[j - |arr|].key, node[j - |arr|].val)
  }

  /** `q` lists the keys of `m`, each once, with their values. */
  ghost predicate Lists(q: seq<(Key, Value)>, m: map<Key, Value>) {
    && (forall i :: 0 <= i < |q| ==> q[i].0 in m && m[q[i].0] == q[i].1)
    && (forall i, j :: 0 <= i < j < |q| ==> q[i].0 != q[j].0)
    && (forall key :: key in m ==> exists i :: 0 <= i < |q| && q[i].0 == key)
  }

  lemma EntriesNone(arr: seq<Value>, node: seq<Node>)
    ensures Entries(arr, node, 0) == []
  {
  }

  /** The position of a key in a traversal, -1 for nil. */
  ghost predicate PositionOf(arr: seq<Value>, node: seq<Node>, key: Key, i: int) {
    (i == -1 && key.Nil?) || (0 <= i < |arr| + |node| && EntryAt(arr, node, i).0 == key && !key.Nil?)
  }

  /** `at` is the first position behind `i` of an entry with a value, or the end. */
  ghost predicate FirstAfter(arr: seq<Value>, node: seq<Node>, i: int, at: int) {
    && -1 <= i < at <= |arr| + |node|
    && (at < |arr| + |node| ==> EntryAt(arr, node, at).1 != Empty)
    && forall j: nat :: i < j < at ==> EntryAt(arr, node, j).1 == Empty
  }

  /** The entries with a value among the first `n`. */
  function Entries(arr: seq<Value>, node: seq<Node>, n: nat): seq<(Key, Value)>
    requires n <= |arr| + |node|
  {
    if n == 0 then []
    else Entries(arr, node, n - 1) + if EntryAt(arr, node, n - 1).1 == Empty then [] else [EntryAt(arr, node, n - 1)]
  }

  lemma PositionOnce(arr: seq<Value>, node: seq<Node>, key: Key, i: int)
    requires PartsOk(arr, node) && PositionOf(arr, node, key, i)
    ensures forall j :: PositionOf(arr, node, key, j) ==> j == i
  {
    forall j | PositionOf(arr, node, key, j) ensures j == i {
      if i >= |arr| && j >= |arr| {
        assert node[i - |arr|].key == node[j - |arr|].key;
      }
    }
  }

  lemma {:induction false} EntriesSkip(arr: seq<Value>, node: seq<Node>, i: nat, at: nat)
    requires i <= at <= |arr| + |node| && forall j: nat :: i <= j < at ==> EntryAt(arr, node, j).1 == Empty
    ensures Entries(arr, node, at) == Entries(arr, node, i)
  {
    if i < at {
      EntriesSkip(arr, node, i, at - 1);
    }
  }

  lemma EntriesNext(arr: seq<Value>, node: seq<Node>, i: int, at: nat)
    requires FirstAfter(arr, node, i, at)
    ensures var n := |arr| + |node|;
            if at < n then Entries(arr, node, at + 1) == Entries(arr, node, i + 1) + [EntryAt(arr, node, at)]
            else Entries(arr, node, at) == Entries(arr, node, i + 1)
  {
    EntriesSkip(arr, node, i + 1, at);
  }

  lemma NextPosition(arr: seq<Value>, node: seq<Node>, i: int, at: nat)
    requires PartsOk(arr, node) && FirstAfter(arr, node, i, at)
    ensures i < at <= |arr| + |node|
    ensures at < |arr| + |node| ==> PositionOf(arr, node, EntryAt(arr, node, at).0, at)
  {
  }

  /** Some entry among the first `n` is `e`, and it has a value. */
  ghost predicate IsEntry(arr: seq<Value>, node: seq<Node>, n: nat, e: (Key, Value))
    requires n <= |arr| + |node|
  {
    exists j: nat :: j < n && EntryAt(arr, node, j) == e && e.1 != Empty
  }

  /** Every entry with a value is listed, and no key twice. */
  lemma {:induction false} EntriesFacts(arr: seq<Value>, node: seq<Node>, n: nat)
    requires PartsOk(arr, node) && n <= |arr| + |node|
    ensures var q := Entries(arr, node, n);
            && (forall i :: 0 <= i < |q| ==> IsEntry(arr, node, n, q[i]))
            && (forall j: nat :: j < n && EntryAt(arr, node, j).1 != Empty ==> EntryAt(arr, node, j) in q)
            && (forall i, j :: 0 <= i < j < |q| ==> q[i].0 != q[j].0)
  {
    if n > 0 {
      EntriesFacts(arr, node, n - 1);
      var q, e := Entries(arr, node, n - 1), EntryAt(arr, node, n - 1);
      if e.1 != Empty {
        forall i | 0 <= i < |q| ensures q[i].0 != e.0 {
          assert IsEntry(arr, node, n - 1, q[i]);
          var j: nat :| j < n - 1 && EntryAt(arr, node, j) == q[i] && q[i].1 != Empty;
          if q[i].0 == e.0 {
            PositionOnce(arr, node, e.0, n - 1);
            assert PositionOf(arr, node, e.0, j);
          }
        }
      }
    }
  }

  lemma EntriesContent(arr: seq<Value>, node: seq<Node>)
    requires PartsOk(arr, node)
    ensures Lists(Entries(arr, node, |arr| + |node|), Content(arr, node))
  {
    var n := |arr| + |node|;
    var q := Entries(arr, node, n);
    EntriesFacts(arr, node, n);
    hide PartsOk, Entries, Content, EntryAt, IsEntry;
    forall i | 0 <= i < |q| ensures q[i].0 in Content(arr, node) && Content(arr, node)[q[i].0] == q[i].1 {
      EntryIn(arr, node, q[i]);
    }
    forall key | key in Content(arr, node) ensures exists i :: 0 <= i < |q| && q[i].0 == key {
      var j := PositionIn(arr, node, key);
      assert EntryAt(arr, node, j) in q;
    }
  }

  lemma EntryIn(arr: seq<Value>, node: seq<Node>, e: (Key, Value))
    requires PartsOk(arr, node) && IsEntry(arr, node, |arr| + |node|, e)
    ensures e.0 in Content(arr, node) && Content(arr, node)[e.0] == e.1
  {
    var j: nat :| j < |arr| + |node| && EntryAt(arr, node, j) == e && e.1 != Empty;
    if j < |arr| {
      AtArray(arr, node, j);
    } else {
      AtNode(arr, node, j - |arr|);
    }
  }

  lemma PositionIn(arr: seq<Value>, node: seq<Node>, key: Key) returns (j: nat)
    requires key in Content(arr, node)
    ensures j < |arr| + |node| && EntryAt(arr, node, j).0 == key && EntryAt(arr, node, j).1 != Empty
  {
    j := if key in ArrayKeys(arr) then key.k - 1 else |arr| + NodeOf(node, key);
  }

  /** In `rehash`, the keys there are and one more are counted. */
  method CountKeys(arr: seq<Value>, node: seq<Node>, ek: Key, nums: array<nat>) returns (totaluse: nat, nasize: nat)
    requires PartsOk(arr, node) && |arr| <= MAXASIZE && !ArrayKey(ek, |arr|) && Absent(node, ek) && Counts(nums[..], {})
    modifies nums
    ensures Counts(nums[..], AllInts(arr, node, ek)) && nasize == |AllInts(arr, node, ek)|
    ensures totaluse == |ArrayInts(arr, |arr| + 1)| + |NodeKeys(node)| + 1
  {
    ghost var s0, s1, all := ArrayInts(arr, |arr| + 1), NodeInts(node, 0), AllInts(arr, node, ek);
    CountsApart(arr, node, ek);
    ApartSum(s0, s1, IndexSet(ek));
    assert all == s0 + s1 + IndexSet(ek);
    hide Counts, ArrayInts, NodeInts, NodeKeys, Absent, AllInts, IndexSet;
    nasize := NumUseArray(arr, nums);
    totaluse := nasize;
    var used, ause := NumUseHash(node, nums, s0);
    totaluse := totaluse + used;
    nasize := nasize + ause;
    var extra := CountInt(ek, nums, s0 + s1);
    nasize := nasize + extra;
    totaluse := totaluse + 1;
  }

  /** The first half of `rehash`: two sizes are chosen for the keys there are and one more. */
  method NewSizes(arr: seq<Value>, node: seq<Node>, ek: Key) returns (n: nat, nhsize: nat)
    requires PartsOk(arr, node) && |arr| <= MAXASIZE && !ArrayKey(ek, |arr|) && Absent(node, ek)
    ensures n <= MAXASIZE && BestSize(AllInts(arr, node, ek), n)
    ensures |Demand(Content(arr, node).Keys, n)| + (if ArrayKey(ek, n) then 0 else 1) == nhsize
  {
    var nums := new nat[MAXBITS + 1](_ => 0);
    NothingCounted(nums[..]);
    CountsApart(arr, node, ek);
    ghost var all := AllInts(arr, node, ek);
    assert Indices(all);
    hide Counts, AllInts, BestSize, UpTo, Demand, Content, Indices, ArrayInts, NodeKeys, Absent, PartsOk;
    var totaluse, nasize := CountKeys(arr, node, ek, nums);
    var na;
    n, na := ComputeSizes(nums, nasize, all);
    DemandSize(arr, node, ek, n, na, totaluse);
    nhsize := totaluse - na;
  }

  lemma DemandAtMost(keys: set<Key>, n: nat)
    ensures |Demand(keys, n)| <= |keys|
  {
    Subset(Demand(keys, n), keys);
  }

  lemma RoomMade(hash: HashFn, arr: seq<Value>, node: seq<Node>, rank: seq<nat>, lastfree: int, p: nat, n: nat, q: nat, key: Key)
    requires HashOk(hash, node, rank, lastfree + 1) && PartsOk(arr, node) && lastfree == n < |node| && node[n].key.Nil?
    requires p == MainPos(hash, |node|, key) && node[p].val != Empty && !InPlace(hash, node, p) && q < |node| && node[q].next == p
    requires !key.Nil? && !key.NaN? && !ArrayKey(key, |arr|) && Absent(node, key)
    ensures var node2 := MovedAway(node, q, p, n, key);
            && |rank| == |node| && HashOk(hash, node2, rank[n := rank[p]], lastfree) && PartsOk(arr, node2)
            && Content(arr, node2) == Content(arr, node) && Keys(node2) <= Keys(node) + {key}
            && node2[p].key == key && node2[p].val == Empty
    ensures q != p && q != n && p != n
  {
    hide Content, HashOk, PartsOk, Keys, InPlace, MainPos, MovedAway, Absent;
    RoomPlaces(hash, node, rank, lastfree, p, n, q, key);
    PlacedInstead(hash, node, rank, lastfree + 1, key, n, q);
    MovedSame(arr, node, q, p, n, key);
    MovedKeys(node, q, p, n, key);
    LowerFree(hash, MovedAway(node, q, p, n, key), rank[n := rank[p]], lastfree);
  }

  /** The main position, the free node and the predecessor of the main position are three. */
  lemma RoomPlaces(hash: HashFn, node: seq<Node>, rank: seq<nat>, lastfree: int, p: nat, n: nat, q: nat, key: Key)
    requires HashOk(hash, node, rank, lastfree + 1) && lastfree == n < |node| && node[n].key.Nil? && !key.Nil?
    requires p == MainPos(hash, |node|, key) && node[p].val != Empty && !InPlace(hash, node, p) && q < |node| && node[q].next == p
    ensures |rank| == |node| && q != p && q != n && p != n && node[n] == FREE && !node[p].key.Nil?
    ensures var node2 := MovedAway(node, q, p, n, key);
      |node2| == |node| && node2[p].key == key && node2[p].val == Empty && !node2[n].key.Nil?
  {
    hide KeyOk, KeysDistinct, FreeBelow, OnePredecessor;
    assert FreeOk(node, n) && FreeOk(node, p) && LinkOk(node, rank, q);
  }

  lemma FreeChained(hash: HashFn, arr: seq<Value>, node: seq<Node>, rank: seq<nat>, lastfree: int, p: nat, n: nat, key: Key)
    requires HashOk(hash, node, rank, lastfree + 1) && PartsOk(arr, node) && lastfree == n < |node| && node[n].key.Nil?
    requires p == MainPos(hash, |node|, key) && InPlace(hash, node, p)
    requires !key.Nil? && !key.NaN? && !ArrayKey(key, |arr|) && Absent(node, key)
    ensures var node2 := ChainedBehind(node, p, n, key);
            && |rank| == |node| && HashOk(hash, node2, Spread(rank, n, p), lastfree) && PartsOk(arr, node2)
            && Content(arr, node2) == Content(arr, node) && Keys(node2) <= Keys(node) + {key}
            && node2[n].key == key && node2[n].val == Empty
  {
    assert FreeOk(node, n);
    PlacedBehind(hash, node, rank, lastfree + 1, key, n);
    BehindSame(arr, node, p, n, key);
    BehindKeys(node, p, n, key);
    hide Content;
    LowerFree(hash, ChainedBehind(node, p, n, key), Spread(rank, n, p), lastfree);
  }

  /** The keys of `node2` are those of `node` and perhaps `key`. */
  lemma MoreKeys(node: seq<Node>, node2: seq<Node>, key: Key)
    requires forall j :: 0 <= j < |node2| && !node2[j].key.Nil? ==> node2[j].key == key || node2[j].key in Keys(node)
    ensures Keys(node2) <= Keys(node) + {key}
  {
  }

  lemma MovedKeys(node: seq<Node>, q: nat, p: nat, n: nat, key: Key)
    requires q < |node| && p < |node| && n < |node|
    ensures Keys(MovedAway(node, q, p, n, key)) <= Keys(node) + {key}
  {
    MoreKeys(node, MovedAway(node, q, p, n, key), key);
  }

  lemma BehindKeys(node: seq<Node>, p: nat, n: nat, key: Key)
    requires p < |node| && n < |node|
    ensures Keys(ChainedBehind(node, p, n, key)) <= Keys(node) + {key}
  {
    MoreKeys(node, ChainedBehind(node, p, n, key), key);
  }

  lemma OverwrittenKeys(node: seq<Node>, p: nat, key: Key)
    requires p < |node|
    ensures Keys(node[p := node[p].(key := key)]) <= Keys(node) + {key}
  {
    MoreKeys(node, node[p := node[p].(key := key)], key);
  }

  lemma SameKeys(node: seq<Node>, node2: seq<Node>)
    requires |node2| == |node| && forall i :: 0 <= i < |node| ==> node2[i].key == node[i].key
    ensures Keys(node2) == Keys(node)
  {
    assert forall i :: 0 <= i < |node| && !node[i].key.Nil? ==> node2[i].key in Keys(node2);
    assert forall i :: 0 <= i < |node| && !node2[i].key.Nil? ==> node[i].key in Keys(node);
  }

  lemma RoomToRefill(arr: seq<Value>, node: seq<Node>, total: map<Key, Value>, key: Key, nasize: nat, nhsize: nat, dummy: bool)
    requires PartsOk(arr, node) && |arr| == nasize && |node| >= nhsize && (dummy ==> nhsize == 0)
    requires |Demand(total.Keys, nasize)| <= nhsize && Content(arr, node).Keys <= total.Keys
    requires Keys(node) <= Content(arr, node).Keys && key in total
    ensures ArrayKey(key, |arr|) || !Absent(node, key) || (!dummy && HasFree(node))
  {
    if !ArrayKey(key, |arr|) && Absent(node, key) {
      var d := Demand(total.Keys, nasize);
      DemandCovers(arr, node);
      assert key !in Keys(node);
      assert Keys(node) <= d - {key};
      Subset(Keys(node), d - {key});
      RoomLeft(node);
    }
  }

  /** What the hash part holds, the array part does not. */
  lemma DemandCovers(arr: seq<Value>, node: seq<Node>)
    requires PartsOk(arr, node) && Keys(node) <= Content(arr, node).Keys
    ensures Keys(node) <= Demand(Content(arr, node).Keys, |arr|)
  {
    forall key | key in Keys(node) ensures !ArrayKey(key, |arr|) {
      var i :| 0 <= i < |node| && !node[i].key.Nil? && node[i].key == key;
    }
  }

  /** With an empty hash part, only what the old array part and the new one share is there. */
  lemma StartRefill(aold: seq<Value>, nold: seq<Node>, arr: seq<Value>, node: seq<Node>, nasize: nat)
    requires PartsOk(aold, nold) && |arr| == nasize && forall i :: 0 <= i < |node| ==> node[i] == FREE
    requires forall i :: 0 <= i < nasize ==> arr[i] == if i < |aold| then aold[i] else Empty
    ensures PartsOk(arr, node) && Keys(node) == {}
    ensures SubMap(Content(arr, node), Content(aold, nold))
    ensures ArrayBack(aold, Content(arr, node), nasize)
  {
    forall key | key in Content(arr, node)
      ensures key in Content(aold, nold) && Content(arr, node)[key] == Content(aold, nold)[key]
    {
      assert key in ArrayKeys(arr);
      assert ArrayKey(key, |aold|);
      AtArray(arr, node, key.k - 1);
      AtArray(aold, nold, key.k - 1);
    }
  }

  /** When every key is back the map is what it was. */
  lemma Refilled(aold: seq<Value>, nold: seq<Node>, m: map<Key, Value>)
    requires SubMap(m, Content(aold, nold))
    requires ArrayBack(aold, m, |aold|) && NodesBack(nold, m, 0)
    ensures m == Content(aold, nold)
  {
    forall key | key in Content(aold, nold) ensures key in m {
      if key in ArrayKeys(aold) {
        assert Int(key.k - 1 + 1) in m;
      } else {
        var i := NodeOf(nold, key);
      }
    }
  }

  lemma NothingCounted(nums: seq<nat>)
    requires |nums| == MAXBITS + 1 && forall i :: 0 <= i <= MAXBITS ==> nums[i] == 0
    ensures Counts(nums, {})
  {
    forall i | 0 <= i <= MAXBITS ensures nums[i] == |Slice({}, i)| {
      assert Slice({}, i) == {};
    }
  }

  lemma ApartSum(s0: set<int>, s1: set<int>, s2: set<int>)
    requires s1 !! s0 && s2 !! s0 + s1
    ensures |s0 + s1 + s2| == |s0| + |s1| + |s2|
  {
  }

  /** The integer keys of the two parts and of a new key are different ones. */
  lemma CountsApart(arr: seq<Value>, node: seq<Node>, ek: Key)
    requires PartsOk(arr, node) && !ArrayKey(ek, |arr|) && Absent(node, ek)
    ensures NodeInts(node, 0) !! ArrayInts(arr, |arr| + 1)
    ensures IndexSet(ek) !! ArrayInts(arr, |arr| + 1) + NodeInts(node, 0)
    ensures |arr| <= MAXASIZE ==> Indices(ArrayInts(arr, |arr| + 1) + NodeInts(node, 0) + IndexSet(ek))
  {
    forall k | k in NodeInts(node, 0) ensures k !in ArrayInts(arr, |arr| + 1) && k !in IndexSet(ek) && 1 <= k <= MAXASIZE {
      assert IndexIn(node, 0, k);
      var j :| 0 <= j < |node| && node[j].val != Empty && k in IndexSet(node[j].key);
      assert node[j].key == Int(k);
    }
  }

  /** The keys of the table and a new one, of which `n` slots of an array part would take those of `s`. */
  ghost function AnyOf<T>(s: set<T>): (x: T)
    requires s != {}
    ensures x in s
  {
    var x :| x in s;
    x
  }

  lemma {:induction false} IntsCount(s: set<int>, keys: set<Key>)
    requires keys == set k | k in s :: Int(k)
    ensures |keys| == |s|
  {
    if s != {} {
      var k := AnyOf(s);
      var rest := set x | x in s - {k} :: Int(x);
      IntsCount(s - {k}, rest);
      assert keys == rest + {Int(k)};
    } else {
      assert keys == {};
    }
  }

  lemma ContentCount(arr: seq<Value>, node: seq<Node>)
    requires PartsOk(arr, node)
    ensures |Content(arr, node).Keys| == |ArrayInts(arr, |arr| + 1)| + |NodeKeys(node)|
  {
    var s := ArrayInts(arr, |arr| + 1);
    var keys := set k | k in s :: Int(k);
    IntsCount(s, keys);
    assert keys == ArrayKeys(arr) by {
      forall key | key in ArrayKeys(arr) ensures key in keys {
        assert key.k in s;
      }
    }
    assert ArrayKeys(arr) !! NodeKeys(node);
  }

  /** The integer keys of both parts and of a new key that could be in an array part. */
  function AllInts(arr: seq<Value>, node: seq<Node>, ek: Key): set<int> {
    ArrayInts(arr, |arr| + 1) + NodeInts(node, 0) + IndexSet(ek)
  }

  lemma AllIntsAre(arr: seq<Value>, node: seq<Node>, ek: Key, k: int)
    requires PartsOk(arr, node) && 1 <= k <= MAXASIZE
    ensures k in AllInts(arr, node, ek) <==> Int(k) in Content(arr, node).Keys + {ek}
  {
    if k in NodeInts(node, 0) {
      assert IndexIn(node, 0, k);
      var j :| 0 <= j < |node| && node[j].val != Empty && k in IndexSet(node[j].key);
      assert node[j].key == Int(k) && node[j].key in NodeKeys(node);
    }
    if Int(k) in NodeKeys(node) {
      var i := NodeOf(node, Int(k));
      assert k in IndexSet(node[i].key);
    }
    assert k in ArrayInts(arr, |arr| + 1) <==> Int(k) in ArrayKeys(arr);
  }

  /** The keys that array slots 1 to `n` would take. */
  lemma TakenCount(arr: seq<Value>, node: seq<Node>, ek: Key, n: nat)
    requires PartsOk(arr, node) && n <= MAXASIZE
    ensures |UpTo(AllInts(arr, node, ek), n)| == |Taken(Content(arr, node).Keys + {ek}, n)|
  {
    var s, keys := UpTo(AllInts(arr, node, ek), n), Content(arr, node).Keys + {ek};
    var ints := set k | k in s :: Int(k);
    IntsCount(s, ints);
    forall k: int | 1 <= k <= n ensures k in AllInts(arr, node, ek) <==> Int(k) in keys {
      AllIntsAre(arr, node, ek, k);
    }
    hide AllInts, Content;
    forall key ensures key in Taken(keys, n) <==> key in ints {
      if key in Taken(keys, n) {
        assert key.k in s && key == Int(key.k);
      }
    }
    assert Taken(keys, n) == ints;
  }

  /** The keys that an array part of size `n` takes. */
  function Taken(keys: set<Key>, n: nat): set<Key> {
    set key | key in keys && ArrayKey(key, n)
  }

  lemma TakenOrDemanded(keys: set<Key>, ek: Key, n: nat)
    requires ek !in keys
    ensures |Taken(keys + {ek}, n)| + |Demand(keys, n)| + (if ArrayKey(ek, n) then 0 else 1) == |keys| + 1
  {
    var taken, d := Taken(keys + {ek}, n), Demand(keys, n);
    if ArrayKey(ek, n) {
      assert keys + {ek} == taken + d && taken !! d;
    } else {
      assert keys + {ek} == taken + (d + {ek}) && taken !! d + {ek};
    }
  }

  lemma DemandSize(arr: seq<Value>, node: seq<Node>, ek: Key, n: nat, na: nat, totaluse: nat)
    requires PartsOk(arr, node) && !ArrayKey(ek, |arr|) && Absent(node, ek) && n <= MAXASIZE
    requires na == |UpTo(AllInts(arr, node, ek), n)|
    requires totaluse == |ArrayInts(arr, |arr| + 1)| + |NodeKeys(node)| + 1
    ensures |Demand(Content(arr, node).Keys, n)| + na + (if ArrayKey(ek, n) then 0 else 1) == totaluse
  {
    ContentCount(arr, node);
    AtAbsent(arr, node, ek);
    TakenCount(arr, node, ek, n);
    hide Content, Demand, Taken, UpTo, ArrayInts, NodeInts, NodeKeys;
    TakenOrDemanded(Content(arr, node).Keys, ek, n);
  }

  /** After the growth there is room for the new key. */
  /** The sizes of the parts when the keys of both and a new one have been counted. */
  ghost predicate SizesFor(arr: seq<Value>, node: seq<Node>, ek: Key, n: nat, count: nat) {
    && BestSize(AllInts(arr, node, ek), n)
    && NodesFor(count, |Demand(Content(arr, node).Keys, n)| + (if ArrayKey(ek, n) then 0 else 1))
  }

  lemma SizesChosen(arr: seq<Value>, node: seq<Node>, ek: Key, n: nat, nhsize: nat, count: nat)
    requires BestSize(AllInts(arr, node, ek), n) && NodesFor(count, nhsize)
    requires |Demand(Content(arr, node).Keys, n)| + (if ArrayKey(ek, n) then 0 else 1) == nhsize
    ensures SizesFor(arr, node, ek, n, count)
  {
  }

  lemma RoomAfter(node: seq<Node>, keys: set<Key>, ek: Key, n: nat, nhsize: nat, dummy: bool)
    requires KeysDistinct(node) && Keys(node) <= Demand(keys, n) && |node| >= nhsize && (dummy ==> nhsize == 0)
    requires |Demand(keys, n)| + (if ArrayKey(ek, n) then 0 else 1) == nhsize
    ensures ArrayKey(ek, n) || (!dummy && HasFree(node))
  {
    if !ArrayKey(ek, n) {
      Subset(Keys(node), Demand(keys, n));
      RoomLeft(node);
    }
  }
}
