/**
The free-list allocator of the kernel's C library: an address-ordered circular
list of free blocks, whose neighbours are joined when a block is freed.

Addresses and sizes are in units of one header, and a pointer to a block is the
address of its header.
*/
module HeapList {

  type Address = int

  const NULL: Address := 0

  /** The size and link of every header. */
  type Sizes = map<Address, int>
  type Links = map<Address, Address>

  /** The blocks that are free or allocated; the root block of size 0 is not among them. */
  ghost function Blocks(ring: seq<Address>, used: set<Address>): set<Address>
    requires |ring| > 0
  {
    (set i | 1 <= i < |ring| :: ring[i]) + used
  }

  ghost predicate Sorted(ring: seq<Address>) {
    forall i, j :: 0 <= i < j < |ring| ==> ring[i] < ring[j]
  }

  /** The links go from each free block to the next, and from the last back to the first. */
  ghost predicate Circular(ring: seq<Address>, next: Links) {
    forall i :: 0 <= i < |ring| ==> LinkAt(ring, next, i)
  }

  /** The entry behind entry `i`, going round. */
  function After(ring: seq<Address>, i: nat): Address
    requires i < |ring|
  {
    if i + 1 < |ring| then ring[i + 1] else ring[0]
  }

  ghost predicate LinkAt(ring: seq<Address>, next: Links, i: nat)
    requires i < |ring|
  {
    ring[i] in next && next[ring[i]] == After(ring, i)
  }

  /** No free block touches the next one. */
  ghost predicate Apart(ring: seq<Address>, size: Sizes) {
    && (forall i :: 0 <= i < |ring| ==> ring[i] in size)
    && forall i :: 0 <= i < |ring| - 1 ==> ring[i] + size[ring[i]] < ring[i + 1]
  }

  /** Every block lies in the arena. */
  ghost predicate Within(blocks: set<Address>, size: Sizes, lo: Address, hi: Address) {
    forall b :: b in blocks ==> b in size && lo <= b && size[b] > 0 && b + size[b] <= hi
  }

  /** No two blocks overlap. */
  ghost predicate NoOverlap(blocks: set<Address>, size: Sizes)
    requires forall b :: b in blocks ==> b in size
  {
    forall a, b :: a in blocks && b in blocks && a < b ==> a + size[a] <= b
  }

  ghost predicate InBlock(blocks: set<Address>, size: Sizes, x: Address)
    requires forall b :: b in blocks ==> b in size
  {
    exists b :: b in blocks && b <= x < b + size[b]
  }

  /** Every unit of the arena is in a block. */
  ghost predicate Covers(blocks: set<Address>, size: Sizes, lo: Address, hi: Address)
    requires forall b :: b in blocks ==> b in size
  {
    forall x :: lo <= x < hi ==> InBlock(blocks, size, x)
  }

  /** The blocks are a partition of the arena. */
  ghost predicate Partition(blocks: set<Address>, size: Sizes, lo: Address, hi: Address) {
    Within(blocks, size, lo, hi) && NoOverlap(blocks, size) && Covers(blocks, size, lo, hi)
  }

  ghost predicate ListOk(ring: seq<Address>, next: Links, size: Sizes, base: Address) {
    && |ring| > 0 && ring[0] == base && Sorted(ring) && Circular(ring, next) && Apart(ring, size)
    && size[base] == 0
  }

  // ---------------------------------------------------- changes to a partition

  /** One block is cut in two: its head keeps its address, the tail is a block of its own. */
  lemma Cut(blocks: set<Address>, size: Sizes, lo: Address, hi: Address, b: Address, rest: int)
    requires Partition(blocks, size, lo, hi) && b in blocks && 0 < rest < size[b]
    ensures b + rest !in blocks
    ensures Partition(blocks + {b + rest}, size[b := rest][b + rest := size[b] - rest], lo, hi)
  {
    var t := b + rest;
    var blocks2, size2 := blocks + {t}, size[b := rest][t := size[b] - rest];
    assert t !in blocks;
    forall x | lo <= x < hi ensures InBlock(blocks2, size2, x) {
      assert InBlock(blocks, size, x);
      var c :| c in blocks && c <= x < c + size[c];
      if c == b {
        assert x < t || t <= x < t + size2[t];
        assert b in blocks2 && t in blocks2;
      } else {
        assert c in blocks2 && size2[c] == size[c];
      }
    }
  }

  /** Two blocks that touch become one. */
  lemma Join(blocks: set<Address>, size: Sizes, lo: Address, hi: Address, a: Address, b: Address)
    requires Partition(blocks, size, lo, hi) && a in blocks && b in blocks && a + size[a] == b
    ensures Partition(blocks - {b}, size[a := size[a] + size[b]], lo, hi)
  {
    var blocks2, size2 := blocks - {b}, size[a := size[a] + size[b]];
    forall x | lo <= x < hi ensures InBlock(blocks2, size2, x) {
      assert InBlock(blocks, size, x);
      var c :| c in blocks && c <= x < c + size[c];
      if c == b {
        assert a in blocks2;
      } else {
        assert c in blocks2;
      }
    }
  }

  // ------------------------------------------------------ changes to the list

  /** The free list is in order and, with the allocated blocks, makes up the arena. */
  ghost predicate HeapOk(ring: seq<Address>, used: set<Address>, next: Links, size: Sizes, base: Address, lo: Address, hi: Address) {
    && base < lo && ListOk(ring, next, size, base)
    && (forall i :: 0 <= i < |ring| ==> ring[i] !in used)
    && Partition(Blocks(ring, used), size, lo, hi)
  }

  /** A free block that is used as a whole leaves the list. */
  lemma Unlinked(ring: seq<Address>, used: set<Address>, next: Links, size: Sizes, base: Address, lo: Address, hi: Address, j: nat)
    requires HeapOk(ring, used, next, size, base, lo, hi) && 1 <= j < |ring|
    ensures HeapOk(ring[..j] + ring[j + 1..], used + {ring[j]}, next[ring[j - 1] := After(ring, j)], size, base, lo, hi)
  {
    var ring2, next2 := ring[..j] + ring[j + 1..], next[ring[j - 1] := After(ring, j)];
    UnlinkedLinks(ring, next, j);
    UnlinkedApart(ring, size, j);
    forall i | 0 <= i < |ring2| ensures ring2[i] != ring[j] && ring2[i] !in used {
      assert ring2[i] == ring[if i < j then i else i + 1];
    }
    hide Circular, Apart, Sorted;
    BlocksMoved(ring, used, j);
    assert Blocks(ring, used) + {ring[j]} == Blocks(ring, used);
  }

  /** The blocks are the same when a free one counts as used. */
  lemma BlocksMoved(ring: seq<Address>, used: set<Address>, j: nat)
    requires 1 <= j < |ring|
    ensures Blocks(ring[..j] + ring[j + 1..], used + {ring[j]}) == Blocks(ring, used) + {ring[j]}
    ensures ring[j] in Blocks(ring, used)
  {
    var ring2 := ring[..j] + ring[j + 1..];
    var p, p2 := set i | 1 <= i < |ring| :: ring[i], set i | 1 <= i < |ring2| :: ring2[i];
    assert ring[j] in p;
    forall b | b in p && b != ring[j] ensures b in p2 {
      var i :| 1 <= i < |ring| && ring[i] == b;
      assert ring2[if i < j then i else i - 1] == b;
    }
    forall b | b in p2 ensures b in p {
      var i :| 1 <= i < |ring2| && ring2[i] == b;
      assert ring[if i < j then i else i + 1] == b;
    }
  }

  lemma UnlinkedLinks(ring: seq<Address>, next: Links, j: nat)
    requires Circular(ring, next) && Sorted(ring) && 1 <= j < |ring|
    ensures Circular(ring[..j] + ring[j + 1..], next[ring[j - 1] := After(ring, j)])
    ensures Sorted(ring[..j] + ring[j + 1..])
  {
    var ring2, next2 := ring[..j] + ring[j + 1..], next[ring[j - 1] := After(ring, j)];
    assert LinkAt(ring, next, j);
    forall i | 0 <= i < |ring2| ensures LinkAt(ring2, next2, i) {
      var o := if i < j then i else i + 1;
      assert ring2[i] == ring[o] && LinkAt(ring, next, o);
      assert i + 1 < |ring2| ==> ring2[i + 1] == ring[if i + 1 < j then i + 1 else i + 2];
    }
  }

  lemma InsertedLinks(ring: seq<Address>, next: Links, bp: Address, k: nat)
    requires Circular(ring, next) && Sorted(ring) && Belongs(ring, bp, k)
    ensures Circular(ring[..k + 1] + [bp] + ring[k + 1..], next[bp := After(ring, k)][ring[k] := bp])
    ensures Sorted(ring[..k + 1] + [bp] + ring[k + 1..])
  {
    var ring2, next2 := ring[..k + 1] + [bp] + ring[k + 1..], next[bp := After(ring, k)][ring[k] := bp];
    assert LinkAt(ring, next, k);
    forall i | 0 <= i < |ring2| ensures LinkAt(ring2, next2, i) {
      var o := if i <= k then i else i - 1;
      assert i != k + 1 ==> ring2[i] == ring[o] && LinkAt(ring, next, o);
      assert i + 1 < |ring2| && i != k ==> ring2[i + 1] == ring[if i < k then i + 1 else i];
    }
  }

  lemma InsertedApart(ring: seq<Address>, size: Sizes, bp: Address, k: nat)
    requires Apart(ring, size) && Belongs(ring, bp, k) && bp in size
    requires ring[k] + size[ring[k]] < bp && (k + 1 < |ring| ==> bp + size[bp] < ring[k + 1])
    ensures Apart(ring[..k + 1] + [bp] + ring[k + 1..], size)
  {
    var ring2 := ring[..k + 1] + [bp] + ring[k + 1..];
    forall i | 0 <= i < |ring2| ensures ring2[i] in size && (i + 1 < |ring2| ==> ring2[i] + size[ring2[i]] < ring2[i + 1]) {
      var o := if i <= k then i else i - 1;
      assert i != k + 1 ==> ring2[i] == ring[o];
      assert i + 1 < |ring2| && i != k ==> ring2[i + 1] == ring[if i < k then i + 1 else i];
    }
  }

  lemma UnlinkedApart(ring: seq<Address>, size: Sizes, j: nat)
    requires Apart(ring, size) && Sorted(ring) && 1 <= j < |ring|
    ensures Apart(ring[..j] + ring[j + 1..], size)
  {
    var ring2 := ring[..j] + ring[j + 1..];
    forall i | 0 <= i < |ring2| - 1 ensures ring2[i] + size[ring2[i]] < ring2[i + 1] {
      var o := if i < j then i else i + 1;
      assert ring2[i] == ring[o] && ring[o] + size[ring[o]] < ring[o + 1];
    }
    forall i | 0 <= i < |ring2| ensures ring2[i] in size {
      assert ring2[i] == ring[if i < j then i else i + 1];
    }
  }

  /** The tail of a free block is used and the rest of it stays free. */
  lemma TailUsed(ring: seq<Address>, used: set<Address>, next: Links, size: Sizes, base: Address, lo: Address, hi: Address,
                 j: nat, rest: int)
    requires HeapOk(ring, used, next, size, base, lo, hi) && 1 <= j < |ring| && 0 < rest < size[ring[j]]
    ensures var b := ring[j]; var t := b + rest;
            && t !in Blocks(ring, used) && t > b
            && HeapOk(ring, used + {t}, next, size[b := rest][t := size[b] - rest], base, lo, hi)
  {
    var b := ring[j];
    var t := b + rest;
    var size2 := size[b := rest][t := size[b] - rest];
    assert b in Blocks(ring, used);
    Cut(Blocks(ring, used), size, lo, hi, b, rest);
    assert Blocks(ring, used + {t}) == Blocks(ring, used) + {t};
    forall i | 0 <= i < |ring| ensures ring[i] != t && ring[i] in size2 && (i != j ==> size2[ring[i]] == size[ring[i]]) {
      if i > 0 {
        assert ring[i] in Blocks(ring, used);
      }
    }
    forall i | 0 <= i < |ring| - 1 ensures ring[i] + size2[ring[i]] < ring[i + 1] {}
  }

  /** The link of a block that is not in the list does not matter. */
  lemma LinkExtra(ring: seq<Address>, used: set<Address>, next: Links, size: Sizes, base: Address, lo: Address, hi: Address,
                  b: Address, x: Address)
    requires HeapOk(ring, used, next, size, base, lo, hi) && b !in ring
    ensures HeapOk(ring, used, next[b := x], size, base, lo, hi)
  {
    var next2 := next[b := x];
    forall i | 0 <= i < |ring| ensures LinkAt(ring, next2, i) {
      assert LinkAt(ring, next, i);
    }
  }

  // -------------------------------------------------------- freeing a block

  /** `bp` belongs behind entry `k` of the list. */
  ghost predicate Belongs(ring: seq<Address>, bp: Address, k: nat) {
    k < |ring| && ring[k] < bp && (k + 1 < |ring| ==> bp < ring[k + 1])
  }

  lemma SomePlace(ring: seq<Address>, bp: Address) returns (k: nat)
    requires |ring| > 0 && Sorted(ring) && ring[0] < bp && bp !in ring
    ensures Belongs(ring, bp, k)
  {
    k := 0;
    while k + 1 < |ring| && ring[k + 1] < bp
      invariant k < |ring| && ring[k] < bp
    {
      k := k + 1;
    }
  }

  /** A free block may touch the blocks next to it, and sits between the entries `k` and `k + 1` of the list. */
  lemma Inserted(ring: seq<Address>, used: set<Address>, next: Links, size: Sizes, base: Address, lo: Address, hi: Address,
                 bp: Address, k: nat)
    requires HeapOk(ring, used, next, size, base, lo, hi) && bp in used && Belongs(ring, bp, k)
    requires bp + size[bp] != After(ring, k) && ring[k] + size[ring[k]] != bp
    ensures var ring2 := ring[..k + 1] + [bp] + ring[k + 1..];
            HeapOk(ring2, used - {bp}, next[bp := After(ring, k)][ring[k] := bp], size, base, lo, hi)
  {
    var ring2, next2 := ring[..k + 1] + [bp] + ring[k + 1..], next[bp := After(ring, k)][ring[k] := bp];
    FreedNeighbours(ring, used, next, size, base, lo, hi, bp, k);
    InsertedLinks(ring, next, bp, k);
    InsertedApart(ring, size, bp, k);
    InsertedBlocks(ring, used, bp, k);
    hide Circular, Apart, Sorted, Within, Covers, Blocks;
    forall i | 0 <= i < |ring2| ensures ring2[i] !in used - {bp} {
      if i <= k {
        assert ring2[i] == ring[i];
      } else if i > k + 1 {
        assert ring2[i] == ring[i - 1];
      }
    }
  }

  lemma InsertedBlocks(ring: seq<Address>, used: set<Address>, bp: Address, k: nat)
    requires k < |ring| && bp in used
    ensures Blocks(ring[..k + 1] + [bp] + ring[k + 1..], used - {bp}) == Blocks(ring, used)
  {
    var ring2 := ring[..k + 1] + [bp] + ring[k + 1..];
    BlocksMoved(ring2, used - {bp}, k + 1);
    assert ring2[..k + 1] + ring2[k + 2..] == ring && ring2[k + 1] == bp;
    assert used - {bp} + {bp} == used;
    assert Blocks(ring2, used - {bp}) + {bp} == Blocks(ring2, used - {bp});
  }

  /** An allocated block does not reach over the free blocks on either side. */
  lemma FreedNeighbours(ring: seq<Address>, used: set<Address>, next: Links, size: Sizes, base: Address, lo: Address, hi: Address,
                        bp: Address, k: nat)
    requires HeapOk(ring, used, next, size, base, lo, hi) && bp in used && Belongs(ring, bp, k)
    ensures bp in size && size[bp] > 0 && bp >= lo
    ensures ring[k] + size[ring[k]] <= bp && (k + 1 < |ring| ==> bp + size[bp] <= ring[k + 1])
  {
    var blocks := Blocks(ring, used);
    assert bp in blocks;
    if k > 0 {
      assert ring[k] in blocks;
    }
    if k + 1 < |ring| {
      assert ring[k + 1] in blocks;
    }
  }

  /** The block behind the allocated one is free and joins it: it leaves the list. */
  lemma JoinedUpper(ring: seq<Address>, used: set<Address>, next: Links, size: Sizes, base: Address, lo: Address, hi: Address,
                    bp: Address, k: nat)
    requires HeapOk(ring, used, next, size, base, lo, hi) && bp in used && Belongs(ring, bp, k)
    requires k + 1 < |ring| && bp in size && bp + size[bp] == ring[k + 1]
    ensures ring[k + 1] in size
    ensures var ring2 := ring[..k + 1] + ring[k + 2..];
            && HeapOk(ring2, used, next[ring[k] := After(ring, k + 1)], size[bp := size[bp] + size[ring[k + 1]]], base, lo, hi)
            && Belongs(ring2, bp, k)
            && (k + 1 < |ring2| ==> bp + size[bp] + size[ring[k + 1]] < ring2[k + 1])
  {
    var b := ring[k + 1];
    var size2 := size[bp := size[bp] + size[b]];
    Unlinked(ring, used, next, size, base, lo, hi, k + 1);
    var ring2, next2 := ring[..k + 1] + ring[k + 2..], next[ring[k] := After(ring, k + 1)];
    assert ring2 == ring[..k + 1] + ring[(k + 1) + 1..];
    var blocks := Blocks(ring2, used + {b});
    assert bp in blocks && b in blocks;
    Join(blocks, size, lo, hi, bp, b);
    assert Blocks(ring2, used) == blocks - {b} by {
      assert b !in used;
      forall i | 0 <= i < |ring2| ensures ring2[i] != b {
        assert ring2[i] == ring[if i <= k then i else i + 1];
      }
    }
    forall i | 0 <= i < |ring2| ensures size2[ring2[i]] == size[ring2[i]] {
      assert ring2[i] !in used + {b};
    }
    assert Apart(ring2, size2);
    if k + 1 < |ring2| {
      assert ring2[k + 1] == ring[k + 2];
    }
  }

  /** The block before the allocated one is free and takes it in. */
  lemma JoinedLower(ring: seq<Address>, used: set<Address>, next: Links, size: Sizes, base: Address, lo: Address, hi: Address,
                    bp: Address, k: nat)
    requires HeapOk(ring, used, next, size, base, lo, hi) && bp in used && Belongs(ring, bp, k) && bp in size
    requires ring[k] + size[ring[k]] == bp && (k + 1 < |ring| ==> bp + size[bp] < ring[k + 1])
    ensures HeapOk(ring, used - {bp}, next, size[ring[k] := size[ring[k]] + size[bp]], base, lo, hi)
  {
    var p := ring[k];
    var size2 := size[p := size[p] + size[bp]];
    FreedNeighbours(ring, used, next, size, base, lo, hi, bp, k);
    assert k > 0;
    var blocks := Blocks(ring, used);
    assert p in blocks && bp in blocks;
    Join(blocks, size, lo, hi, p, bp);
    assert Blocks(ring, used - {bp}) == blocks - {bp};
    forall i | 0 <= i < |ring| - 1 ensures ring[i] + size2[ring[i]] < ring[i + 1] {}
  }
}
