/**
The size of the array part: the keys are counted by slices between powers of
two, and the largest power of two more than half in use is chosen.
*/
module TableSizes {
  import opened HashPart
  import opened TableContent

  const MAXBITS: nat := 26
  const MAXASIZE: nat := 0x400_0000

  function Pow2(i: nat): (p: nat)
    ensures p >= 1
  {
    if i == 0 then 1 else 2 * Pow2(i - 1)
  }

  /** `ceillog2`: the least `i` with `k <= 2^i`. */
  function CeilLog2(k: nat): (i: nat)
    requires k >= 1
    ensures k <= Pow2(i) && (i > 0 ==> Pow2(i - 1) < k)
  {
    if k == 1 then 0 else 1 + CeilLog2((k + 1) / 2)
  }

  lemma {:induction false} Pow2Mono(i: nat, j: nat)
    requires i <= j
    ensures Pow2(i) <= Pow2(j)
  {
    if i < j {
      Pow2Mono(i, j - 1);
    }
  }

  lemma MaxBits()
    ensures Pow2(MAXBITS) == MAXASIZE
  {
    assert Pow2(4) == 16;
    assert Pow2(8) == 256;
    assert Pow2(12) == 0x1000;
    assert Pow2(16) == 0x1_0000;
    assert Pow2(20) == 0x10_0000;
    assert Pow2(24) == 0x100_0000;
  }

  // ------------------------------------------------------------------- slices

  /** The indices of `s` up to `n`. */
  function UpTo(s: set<int>, n: nat): set<int> {
    set k | k in s && 1 <= k <= n
  }

  /** The indices of `s` in slice `i`: above half of 2^i, and up to it. */
  function Slice(s: set<int>, i: nat): set<int> {
    set k | k in s && k >= 1 && CeilLog2(k) == i
  }

  /** Integer keys that could be in an array part. */
  predicate Indices(s: set<int>) {
    forall k :: k in s ==> 1 <= k <= MAXASIZE
  }

  /** `nums` counts the indices of `s` by slices. */
  ghost predicate Counts(nums: seq<nat>, s: set<int>) {
    |nums| == MAXBITS + 1 && forall i :: 0 <= i <= MAXBITS ==> nums[i] == |Slice(s, i)|
  }

  lemma {:induction false} AtMost(s: set<int>, n: nat)
    requires forall k :: k in s ==> 1 <= k <= n
    ensures |s| <= n
  {
    if n == 0 {
      assert forall k :: k !in s;
      assert s == {};
    } else {
      var t := s - {n as int};
      AtMost(t, n - 1);
      assert s <= t + {n as int};
      Subset(s, t + {n as int});
    }
  }

  lemma {:induction false} Subset<T>(s: set<T>, t: set<T>)
    requires s <= t
    ensures |s| <= |t|
  {
    if s != {} {
      var x :| x in s;
      Subset(s - {x}, t - {x});
    }
  }

  /** One slice more. */
  lemma UpToSlice(s: set<int>, i: nat)
    requires i > 0
    ensures UpTo(s, Pow2(i)) == UpTo(s, Pow2(i - 1)) + Slice(s, i)
    ensures |UpTo(s, Pow2(i))| == |UpTo(s, Pow2(i - 1))| + |Slice(s, i)|
  {
    forall k | k in s && k >= 1 ensures CeilLog2(k) == i <==> Pow2(i - 1) < k <= Pow2(i) {
      var c := CeilLog2(k);
      if c < i {
        Pow2Mono(c, i - 1);
      } else if c > i {
        Pow2Mono(i, c - 1);
      }
    }
    assert UpTo(s, Pow2(i - 1)) !! Slice(s, i);
  }

  lemma FirstSlice(s: set<int>)
    ensures UpTo(s, Pow2(0)) == Slice(s, 0)
  {
    forall k | k in s && k >= 1 ensures CeilLog2(k) == 0 <==> k <= 1 {
      if CeilLog2(k) > 0 {
        Pow2Mono(0, CeilLog2(k) - 1);
      }
    }
  }

  /** How many indices there are below slice `i`. */
  ghost function Below(s: set<int>, i: nat): nat {
    if i == 0 then 0 else |UpTo(s, Pow2(i - 1))|
  }

  lemma BelowNext(s: set<int>, i: nat)
    ensures Below(s, i + 1) == Below(s, i) + |Slice(s, i)|
    ensures i > 0 ==> Below(s, i) <= Pow2(i - 1)
  {
    if i == 0 {
      FirstSlice(s);
    } else {
      UpToSlice(s, i);
      AtMost(UpTo(s, Pow2(i - 1)), Pow2(i - 1));
    }
  }

  /** More than half of the indices up to 2^i are in use. */
  ghost predicate Dense(s: set<int>, i: nat) {
    2 * |UpTo(s, Pow2(i))| > Pow2(i)
  }

  /** `n` is the largest power of two with more than half of the indices up to it in use, or 0 if there is none. */
  ghost predicate BestSize(s: set<int>, n: nat) {
    && (n == 0 || exists i: nat :: n == Pow2(i) && Dense(s, i))
    && forall i: nat :: Pow2(i) > n ==> !Dense(s, i)
  }

  /** Beyond slice `i` nothing is dense, once all indices have been seen or 2^i is too large. */
  lemma NotDense(s: set<int>, i: nat, j: nat)
    requires i <= j && 2 * |s| <= Pow2(i)
    ensures !Dense(s, j)
  {
    Pow2Mono(i, j);
    Subset(UpTo(s, Pow2(j)), s);
  }

  /** `n` is the best size among the powers of two below 2^i, and `na` counts the indices it holds. */
  ghost predicate BestBelow(s: set<int>, i: nat, n: nat, na: nat) {
    && na == |UpTo(s, n)|
    && (n == 0 || exists j: nat :: j < i && n == Pow2(j) && Dense(s, j))
    && forall j: nat :: j < i && Pow2(j) > n ==> !Dense(s, j)
  }

  lemma BestNext(s: set<int>, i: nat, n: nat, na: nat)
    requires BestBelow(s, i, n, na)
    ensures var c := |Slice(s, i)|; var a := Below(s, i) + c;
            && a == Below(s, i + 1)
            && if c > 0 && a > Pow2(i) / 2 then BestBelow(s, i + 1, Pow2(i), a) else BestBelow(s, i + 1, n, na)
  {
    BelowNext(s, i);
    var c := |Slice(s, i)|;
    if c > 0 && Below(s, i) + c > Pow2(i) / 2 {
      assert Dense(s, i);
      forall j: nat | j < i + 1 ensures Pow2(j) <= Pow2(i) {
        Pow2Mono(j, i);
      }
    } else {
      assert !Dense(s, i);
    }
  }

  /** `computesizes`: the new size of the array part, and how many keys go there. */
  method ComputeSizes(nums: array<nat>, narray: nat, ghost s: set<int>) returns (n: nat, na: nat)
    requires Counts(nums[..], s) && Indices(s) && narray == |s|
    ensures BestSize(s, n) && na == |UpTo(s, n)| && n <= MAXASIZE
    ensures n / 2 <= na <= n
  {
    hide BestBelow, Below, UpTo, Slice, BestSize;
    AtMost(s, MAXASIZE);
    var i, twotoi, a: nat := 0, 1, 0;
    na, n := 0, 0;
    ghost var last := 0;
    BestNone(s);
    while twotoi / 2 < narray
      invariant last == i && twotoi == Pow2(i) && a == Below(s, i) && BestBelow(s, i, n, na)
      invariant i <= MAXBITS + 1
      decreases MAXBITS + 1 - i
    {
      SliceInRange(i, narray);
      BestNext(s, i, n, na);
      assert nums[..][i] == nums[i];
      last := i + 1;
      if nums[i] > 0 {
        a := a + nums[i];
        if a > twotoi / 2 {
          n := twotoi;
          na := a;
        }
      }
      if a == narray {
        AllSeen(s, i);
        break;
      }
      i := i + 1;
      twotoi := twotoi * 2;
    }
    Best(s, last, n, na);
  }

  lemma BestNone(s: set<int>)
    ensures BestBelow(s, 0, 0, 0) && Below(s, 0) == 0
  {
    assert UpTo(s, 0) == {};
  }

  lemma SliceInRange(i: nat, narray: nat)
    requires i <= MAXBITS + 1 && Pow2(i) / 2 < narray <= MAXASIZE
    ensures i <= MAXBITS
  {
    MaxBits();
  }

  lemma Best(s: set<int>, i: nat, n: nat, na: nat)
    requires BestBelow(s, i, n, na) && Indices(s) && 2 * |s| <= Pow2(i)
    ensures BestSize(s, n) && n <= MAXASIZE && na == |UpTo(s, n)| && n / 2 <= na <= n
  {
    NoneBeyond(s, i, n);
    BestBounded(s, n);
    AtMost(UpTo(s, n), n);
  }

  lemma AllSeen(s: set<int>, i: nat)
    requires Below(s, i + 1) == |s|
    ensures 2 * |s| <= Pow2(i + 1)
  {
    BelowNext(s, i + 1);
  }

  lemma NoneBeyond(s: set<int>, i: nat, n: nat)
    requires 2 * |s| <= Pow2(i)
    requires forall j: nat :: j < i && Pow2(j) > n ==> !Dense(s, j)
    ensures forall j: nat :: Pow2(j) > n ==> !Dense(s, j)
  {
    forall j: nat | Pow2(j) > n ensures !Dense(s, j) {
      if j >= i {
        NotDense(s, i, j);
      }
    }
  }

  lemma BestBounded(s: set<int>, n: nat)
    requires BestSize(s, n) && Indices(s)
    ensures n <= MAXASIZE
  {
    if n > 0 {
      var i: nat :| n == Pow2(i) && Dense(s, i);
      MaxBits();
      AtMost(s, MAXASIZE);
      if i > MAXBITS {
        NotDense(s, MAXBITS + 1, i);
      }
      Pow2Mono(i, MAXBITS);
    }
  }

  // ----------------------------------------------------------------- counting

  /** The index a key would have in an array part, if it could have one. */
  function IndexSet(key: Key): (s: set<int>)
    ensures Indices(s)
  {
    if key.Int? && 1 <= key.k <= MAXASIZE then {key.k} else {}
  }

  /** The indices in use in an array part, below `i`. */
  function ArrayInts(arr: seq<Value>, i: nat): (s: set<int>)
    ensures forall k :: k in s <==> 1 <= k < i && k <= |arr| && arr[k - 1] != Empty
  {
    set j | 0 <= j < |arr| && j + 1 < i && arr[j] != Empty :: j + 1
  }

  /** The integer keys of the nodes from `i` on that have a value and could be in an array part. */
  function NodeInts(node: seq<Node>, i: nat): (s: set<int>)
    requires i <= |node|
    ensures forall k :: k in s ==> IndexIn(node, i, k)
    ensures forall j :: i <= j < |node| && node[j].val != Empty ==> IndexSet(node[j].key) <= s
    decreases |node| - i
  {
    if i == |node| then {}
    else if node[i].val == Empty then NodeInts(node, i + 1)
    else NodeInts(node, i + 1) + IndexSet(node[i].key)
  }

  /** Some node from `i` on has a value and the integer key `k`. */
  predicate IndexIn(node: seq<Node>, i: nat, k: int) {
    exists j :: i <= j < |node| && node[j].val != Empty && k in IndexSet(node[j].key)
  }

  /** One index more. */
  lemma IndexAdded(s: set<int>, k: int, j: nat)
    requires k !in s && k >= 1
    ensures |Slice(s + {k}, j)| == |Slice(s, j)| + (if CeilLog2(k) == j then 1 else 0)
    ensures |s + {k}| == |s| + 1
  {
    if CeilLog2(k) == j {
      assert Slice(s + {k}, j) == Slice(s, j) + {k};
    } else {
      assert Slice(s + {k}, j) == Slice(s, j);
    }
  }

  lemma LogIs(k: nat, i: nat)
    requires k >= 1 && k <= Pow2(i) && (i > 0 ==> Pow2(i - 1) < k)
    ensures CeilLog2(k) == i
  {
    var c := CeilLog2(k);
    if c < i {
      Pow2Mono(c, i - 1);
    } else if c > i {
      Pow2Mono(i, c - 1);
    }
  }

  lemma LogBounded(k: nat)
    requires 1 <= k <= MAXASIZE
    ensures CeilLog2(k) <= MAXBITS
  {
    MaxBits();
    if CeilLog2(k) > MAXBITS {
      Pow2Mono(MAXBITS, CeilLog2(k) - 1);
    }
  }

  /** `countint`. */
  method CountInt(key: Key, nums: array<nat>, ghost s: set<int>) returns (n: nat)
    requires Counts(nums[..], s) && IndexSet(key) !! s
    modifies nums
    ensures Counts(nums[..], s + IndexSet(key)) && n == |IndexSet(key)|
  {
    if key.Int? && 0 < key.k <= MAXASIZE {
      var i := CeilLog2(key.k);
      LogBounded(key.k);
      ghost var was := nums[..];
      nums[i] := nums[i] + 1;
      forall j | 0 <= j <= MAXBITS ensures nums[j] == |Slice(s + {key.k}, j)| {
        IndexAdded(s, key.k, j);
        assert was[j] == |Slice(s, j)|;
      }
      return 1;
    }
    assert s + {} == s;
    return 0;
  }

  /** The counts while slice `lg` is being counted: `lc` of its indices are not in `nums` yet. */
  ghost predicate Counting(nums: seq<nat>, s: set<int>, lg: nat, lc: nat) {
    |nums| == MAXBITS + 1 && lg <= MAXBITS && Counts(nums[lg := nums[lg] + lc], s)
  }

  lemma CountedNext(nums: seq<nat>, arr: seq<Value>, lg: nat, lc: nat, i: nat)
    requires Counting(nums, ArrayInts(arr, i), lg, lc) && 1 <= i <= |arr| && CeilLog2(i) == lg
    ensures var c := if arr[i - 1] != Empty then 1 else 0;
            && Counting(nums, ArrayInts(arr, i + 1), lg, lc + c)
            && |ArrayInts(arr, i + 1)| == |ArrayInts(arr, i)| + c
  {
    var s, s2 := ArrayInts(arr, i), ArrayInts(arr, i + 1);
    if arr[i - 1] != Empty {
      assert s2 == s + {i as int};
      forall j | 0 <= j <= MAXBITS
        ensures nums[lg := nums[lg] + lc + 1][j] == |Slice(s2, j)| && |s2| == |s| + 1
      {
        IndexAdded(s, i, j);
        assert nums[lg := nums[lg] + lc][j] == |Slice(s, j)|;
      }
    } else {
      assert s2 == s;
    }
  }

  method AddAt(nums: array<nat>, i: nat, n: nat)
    requires i < nums.Length
    modifies nums
    ensures nums[..] == old(nums[..])[i := old(nums[i]) + n]
  {
    nums[i] := nums[i] + n;
  }

  /** `numusearray`. */
  method NumUseArray(arr: seq<Value>, nums: array<nat>) returns (ause: nat)
    requires Counts(nums[..], {}) && |arr| <= MAXASIZE
    modifies nums
    ensures Counts(nums[..], ArrayInts(arr, |arr| + 1)) && ause == |ArrayInts(arr, |arr| + 1)|
  {
    var lg, ttlg, i: nat := 0, 1, 1;
    ause := 0;
    assert ArrayInts(arr, 1) == {};
    hide Counting, Counts, ArrayInts;
    while lg <= MAXBITS
      invariant 0 <= lg <= MAXBITS + 1 && ttlg == Pow2(lg) && nums.Length == MAXBITS + 1
      invariant 1 <= i && (i <= |arr| ==> i == if lg == 0 then 1 else Pow2(lg - 1) + 1)
      invariant i <= |arr| + 1
      invariant Counts(nums[..], ArrayInts(arr, i)) && ause == |ArrayInts(arr, i)|
    {
      var lim := ttlg;
      if lim > |arr| {
        lim := |arr|;
        if i > lim {
          break;
        }
      }
      var lc: nat := 0;
      ghost var was := nums[..];
      CountingStart(was, ArrayInts(arr, i), lg);
      while i <= lim
        invariant 1 <= i <= lim + 1 || i > lim
        invariant i <= |arr| + 1 && nums[..] == was
        invariant i <= lim && lg > 0 ==> Pow2(lg - 1) < i
        invariant Counting(was, ArrayInts(arr, i), lg, lc) && ause + lc == |ArrayInts(arr, i)|
        invariant i > lim ==> i == lim + 1 || i > |arr|
        decreases lim + 1 - i
      {
        LogIs(i, lg);
        CountedNext(was, arr, lg, lc, i);
        if arr[i - 1] != Empty {
          lc := lc + 1;
        }
        i := i + 1;
      }
      AddAt(nums, lg, lc);
      CountingEnd(was, ArrayInts(arr, i), lg, lc);
      ause := ause + lc;
      lg := lg + 1;
      ttlg := ttlg * 2;
    }
    MaxBits();
    assert i > |arr|;
    assert ArrayInts(arr, i) == ArrayInts(arr, |arr| + 1);
  }

  lemma CountingStart(nums: seq<nat>, s: set<int>, lg: nat)
    requires Counts(nums, s) && lg <= MAXBITS
    ensures |nums| == MAXBITS + 1 && Counting(nums, s, lg, 0)
  {
    assert nums[lg := nums[lg] + 0] == nums;
  }

  lemma CountingEnd(nums: seq<nat>, s: set<int>, lg: nat, lc: nat)
    requires Counting(nums, s, lg, lc)
    ensures lg < |nums| && Counts(nums[lg := nums[lg] + lc], s)
  {
  }

  /** One node more. */
  lemma NodeCounted(node: seq<Node>, i: nat)
    requires i < |node| && KeysDistinct(node) && forall j :: 0 <= j < |node| && node[j].val != Empty ==> !node[j].key.Nil?
    ensures node[i].val != Empty ==> IndexSet(node[i].key) !! NodeInts(node, i + 1)
    ensures |NodeKeys(node[i..])| == |NodeKeys(node[i + 1..])| + (if node[i].val == Empty then 0 else 1)
  {
    var q, q2 := node[i..], node[i + 1..];
    assert q == [node[i]] + q2;
    if node[i].val == Empty {
      assert NodeKeys(q) == NodeKeys(q2);
    } else {
      forall k | k in NodeInts(node, i + 1) ensures k !in IndexSet(node[i].key) {
        assert IndexIn(node, i + 1, k);
      }
      assert NodeKeys(q) == NodeKeys(q2) + {node[i].key};
      KeyOnce(node, i);
    }
  }

  lemma KeyOnce(node: seq<Node>, i: nat)
    requires i < |node| && KeysDistinct(node) && !node[i].key.Nil?
    ensures node[i].key !in NodeKeys(node[i + 1..])
  {
    var q := node[i + 1..];
    forall j | 0 <= j < |q| ensures q[j].key != node[i].key {
      assert q[j] == node[i + 1 + j];
    }
  }

  /** `numusehash`: how many keys there are, and how many of them could be in an array part. */
  method NumUseHash(node: seq<Node>, nums: array<nat>, ghost s: set<int>) returns (totaluse: nat, ause: nat)
    requires Counts(nums[..], s) && NodeInts(node, 0) !! s
    requires KeysDistinct(node) && forall j :: 0 <= j < |node| && node[j].val != Empty ==> !node[j].key.Nil?
    modifies nums
    ensures Counts(nums[..], s + NodeInts(node, 0))
    ensures totaluse == |NodeKeys(node)| && ause == |NodeInts(node, 0)|
  {
    totaluse, ause := 0, 0;
    var i := |node|;
    assert NodeInts(node, i) == {} && NodeKeys(node[i..]) == {} && s + {} == s;
    while i > 0
      invariant 0 <= i <= |node|
      invariant Counts(nums[..], s + NodeInts(node, i)) && ause == |NodeInts(node, i)|
      invariant totaluse == |NodeKeys(node[i..])|
    {
      i := i - 1;
      NodeCounted(node, i);
      if node[i].val != Empty {
        assert IndexSet(node[i].key) <= NodeInts(node, 0);
        var n := CountInt(node[i].key, nums, s + NodeInts(node, i + 1));
        assert s + NodeInts(node, i + 1) + IndexSet(node[i].key) == s + NodeInts(node, i);
        ause := ause + n;
        totaluse := totaluse + 1;
      }
    }
    assert node[0..] == node;
  }
}
