/**
`malloc` and `free`.
*/
module HeapAlloc {
  import opened HeapList

  /** Bytes in a header. */
  const BLOCKSIZ: nat := 16

  /** `BLOCK_ALIGN`: the units for a header and so many bytes. */
  function Units(nbytes: nat): (n: nat)
    requires nbytes > 0
    ensures n >= 2 && nbytes <= (n - 1) * BLOCKSIZ < nbytes + BLOCKSIZ
  {
    (nbytes + BLOCKSIZ - 1) / BLOCKSIZ + 1
  }

  /** Entry `i` comes behind entry `s`, and not behind entry `k`, in a round that starts at `s`. */
  predicate Seen(s: nat, k: nat, i: int) {
    if k >= s then s < i <= k else i > s || i <= k
  }

  /** Going round from entry `s`, entry `j` is the first with `nunits` units. */
  ghost predicate FirstFitting(ring: seq<Address>, size: Sizes, nunits: nat, s: nat, j: nat) {
    && s < |ring| && 1 <= j < |ring| && (forall i :: 0 <= i < |ring| ==> ring[i] in size)
    && size[ring[j]] >= nunits
    && forall i :: 0 <= i < |ring| && Seen(s, j - 1, i) ==> size[ring[i]] < nunits
  }

  /** The list without entry `j` if it is used up. */
  function RingAfter(ring: seq<Address>, size: Sizes, nunits: nat, j: nat): seq<Address>
    requires j < |ring| && ring[j] in size
  {
    if size[ring[j]] == nunits then ring[..j] + ring[j + 1..] else ring
  }

  /** The sizes when the tail of entry `j` is used. */
  function SizeAfter(ring: seq<Address>, size: Sizes, nunits: nat, j: nat): Sizes
    requires j < |ring| && ring[j] in size && size[ring[j]] >= nunits
  {
    var p := ring[j];
    if size[p] == nunits then size else size[p := size[p] - nunits][p + size[p] - nunits := nunits]
  }

  lemma SameEntry(ring: seq<Address>, i: nat, j: nat)
    requires Sorted(ring) && i < |ring| && j < |ring|
    ensures ring[i] == ring[j] ==> i == j
  {
  }

  lemma MapAgree(m: Links, m2: Links, p: Address, x: Address, y: Address)
    requires m[p := x] == m2[p := x] && p in m2 && m2[p] == y
    ensures m[p := y] == m2
  {
    var m3 := m[p := y];
    assert m3.Keys == m[p := x].Keys == m2.Keys;
    forall key | key in m2 ensures m3[key] == m2[key] {
      if key != p {
        assert m[p := x][key] == m2[p := x][key];
      }
    }
  }

  class Heap {
    /** The root block lies below the arena of `units` units from `memloc` on. */
    const base: Address
    const memloc: Address
    const units: int
    var next: Links
    var size: Sizes
    var freep: Address
    ghost var ring: seq<Address>
    ghost var used: set<Address>

    ghost predicate Valid()
      reads this
    {
      && NULL < base < memloc && units > 0
      && if freep == NULL then ring == [] && used == {}
         else HeapOk(ring, used, next, size, base, memloc, memloc + units) && freep in ring
    }

    constructor (root: Address, start: Address, n: int)
      requires NULL < root < start && n > 0
      ensures Valid() && used == {} && base == root && memloc == start && units == n
    {
      base, memloc, units := root, start, n;
      next, size, freep := map[], map[], NULL;
      ring, used := [], {};
    }

    /** The first call makes the arena one free block. */
    method Initialize()
      requires Valid() && freep == NULL
      modifies this
      ensures Valid() && freep == base && used == {} && ring == [base, memloc]
      ensures size == old(size)[memloc := units][base := 0]
    {
      next := next[memloc := base];
      size := size[memloc := units];
      freep := base;
      next := next[base := memloc];
      size := size[base := 0];
      ring := [base, memloc];
      used := {};
      ghost var blocks := Blocks(ring, used);
      assert blocks == {memloc} by {
        assert ring[1] == memloc;
      }
      forall x | memloc <= x < memloc + units ensures InBlock(blocks, size, x) {
        assert memloc in blocks;
      }
      assert LinkAt(ring, next, 0) && LinkAt(ring, next, 1);
    }

    /** What `malloc` did: `p` is a new allocated block cut from a free one, and the other allocated blocks are as they were. */
    twostate predicate Allocated(p: Address, nunits: nat)
      requires old(Valid())
      reads this
    {
      && Valid() && freep != NULL && p !in old(used) && used == old(used) + {p}
      && p in size && size[p] == nunits
      && (forall u :: u in old(used) ==> u in size && u in old(size) && size[u] == old(size[u]))
      && memloc <= p && p + nunits <= memloc + units
    }

    /** `p` is the tail of the first fitting block of `was`, behind `start`; the next search starts before that block. */
    ghost predicate CutFrom(was: seq<Address>, sizes: Sizes, start: Address, p: Address, nunits: nat)
      reads this
    {
      exists s: nat, j: nat ::
        && FirstFitting(was, sizes, nunits, s, j) && was[s] == start
        && p == was[j] + sizes[was[j]] - nunits && freep == was[j - 1]
        && ring == RingAfter(was, sizes, nunits, j) && size == SizeAfter(was, sizes, nunits, j)
    }

    /** No free block has `nunits` units. */
    ghost predicate NoneFits(nunits: nat)
      reads this
    {
      forall i :: 0 <= i < |ring| ==> ring[i] in size && size[ring[i]] < nunits
    }

    /** `malloc`: the first free block, going round from `freep`, that is large enough. */
    method Malloc(nbytes: nat) returns (p: Address)
      requires Valid()
      modifies this
      ensures nbytes == 0 ==> p == NULL && Valid() && used == old(used) && ring == old(ring)
      ensures nbytes > 0 && p == NULL ==> Valid() && used == old(used) && NoneFits(Units(nbytes))
      ensures nbytes > 0 && p != NULL ==> Allocated(p, Units(nbytes))
      ensures nbytes > 0 && p != NULL ==>
        if old(freep) == NULL
        then CutFrom([base, memloc], old(size)[memloc := units][base := 0], base, p, Units(nbytes))
        else CutFrom(old(ring), old(size), old(freep), p, Units(nbytes))
    {
      hide HeapOk;
      if nbytes == 0 {
        return NULL;
      }
      var nunits := Units(nbytes);
      if freep == NULL {
        Initialize();
      }
      var prevp;
      ghost var j;
      ghost var s;
      prevp, p, j, s := FirstFit(nunits);
      if p != NULL {
        p := Take(prevp, p, nunits, j);
      }
    }

    /** The loop of `malloc`: a free block of `nunits` units and the one before it, or NULL after a full round. */
    method FirstFit(nunits: nat) returns (prevp: Address, p: Address, ghost j: nat, ghost s: nat)
      requires Valid() && freep != NULL && nunits > 0
      ensures p == NULL ==> NoneFits(nunits)
      ensures p != NULL ==>
        FirstFitting(ring, size, nunits, s, j) && ring[s] == freep && p == ring[j] && prevp == ring[j - 1]
    {
      hide HeapOk, Sorted, Apart;
      prevp := freep;
      s :| 0 <= s < |ring| && ring[s] == freep;
      ghost var k := s;
      UsedKnown(ring, used, next, size, base, memloc, memloc + units, k);
      p := next[prevp];
      while size[p] < nunits
        invariant 0 <= k < |ring| && prevp == ring[k] && p == After(ring, k)
        invariant forall i :: 0 <= i < |ring| ==> ring[i] in size
        invariant forall i :: 0 <= i < |ring| && Seen(s, k, i) ==> size[ring[i]] < nunits
        decreases if k >= s then |ring| - k + s else s - k
      {
        ghost var k2 := if k + 1 < |ring| then k + 1 else 0;
        SameEntry(ring, s, k2);
        if p == freep {
          return prevp, NULL, 0, s;
        }
        assert LinkAt(ring, next, k2);
        prevp := p;
        p := next[p];
        k := k2;
      }
      j := k + 1;
      BlocksKnown(ring, used, size, base, next, memloc, memloc + units, j);
    }

    /** The end of `malloc`: the block `p` behind `prevp` is used, or its tail is. */
    method Take(prevp: Address, p0: Address, nunits: nat, ghost j: nat) returns (p: Address)
      requires Valid() && freep != NULL && nunits > 0
      requires 1 <= j < |ring| && p0 == ring[j] && prevp == ring[j - 1] && p0 in size && size[p0] >= nunits
      modifies this
      ensures p != NULL && Allocated(p, nunits)
      ensures p == p0 + old(size[p0]) - nunits && freep == prevp
      ensures ring == RingAfter(old(ring), old(size), nunits, j) && size == SizeAfter(old(ring), old(size), nunits, j)
    {
      hide HeapOk, Blocks;
      p := p0;
      BlocksKnown(ring, used, size, base, next, memloc, memloc + units, j);
      if size[p] == nunits {
        Unlinked(ring, used, next, size, base, memloc, memloc + units, j);
        next := next[prevp := next[p]];
        used := used + {p};
        ghost var was := ring;
        ring := ring[..j] + ring[j + 1..];
        assert ring[j - 1] == was[j - 1];
      } else {
        TailUsed(ring, used, next, size, base, memloc, memloc + units, j, size[p] - nunits);
        size := size[p := size[p] - nunits];
        p := p + size[p];
        size := size[p := nunits];
        used := used + {p};
      }
      freep := prevp;
    }

    /** What `free` did: `bp` is no longer allocated, and the other allocated blocks are as they were. */
    twostate predicate Freed(bp: Address)
      requires old(Valid())
      reads this
    {
      && Valid() && used == old(used) - {bp}
      && (forall u :: u in used ==> u in size && u in old(size) && size[u] == old(size[u]))
      && exists i :: 1 <= i < |ring| && ring[i] <= bp && bp in old(size) && bp + old(size[bp]) <= ring[i] + size[ring[i]]
    }

    /** `free`: the block goes back to its place in the list and joins the free blocks it touches. */
    method Free(ap: Address)
      requires Valid() && (ap == NULL || ap in used)
      modifies this
      ensures ap == NULL ==> Valid() && used == old(used) && ring == old(ring)
      ensures ap != NULL ==> Freed(ap) && exists k: nat :: Belongs(old(ring), ap, k) && freep == old(ring)[k]
    {
      if ap == NULL {
        return;
      }
      var bp := ap;
      var p, k := FindPlace(bp);
      FreedNeighbours(ring, used, next, size, base, memloc, memloc + units, bp, k);
      ghost var links := JoinUpper(bp, p, k);
      JoinLower(bp, p, k, links);
      freep := p;
    }

    /** The walk of `free`: the free block after which `bp` belongs, the last one if none is behind it. */
    method FindPlace(bp: Address) returns (p: Address, ghost k: nat)
      requires Valid() && bp in used
      ensures Belongs(ring, bp, k) && p == ring[k]
      ensures exists i: nat :: Belongs(ring, bp, i) && p == ring[i]
    {
      ghost var n := |ring|;
      assert bp in Blocks(ring, used);
      hide Partition;
      ghost var place := SomePlace(ring, bp);
      k :| 0 <= k < n && ring[k] == freep;
      p := freep;
      assert LinkAt(ring, next, k);
      while !(bp > p && bp < next[p])
        invariant k < n && p == ring[k] && LinkAt(ring, next, k)
        decreases if place >= k then place - k else place + n - k
      {
        if p >= next[p] && (bp > p || bp < next[p]) {
          break;
        }
        p := next[p];
        k := if k + 1 < n then k + 1 else 0;
        assert LinkAt(ring, next, k);
      }
    }

    /** What `free` has still to do: the links are `links`, but for those of `p` and `bp`. */
    ghost predicate Halfway(bp: Address, p: Address, k: nat, links: Links)
      reads this
    {
      && NULL < base < memloc && units > 0 && freep != NULL
      && HeapOk(ring, used, links, size, base, memloc, memloc + units)
      && bp in used && Belongs(ring, bp, k) && p == ring[k] && bp in size
      && bp in next && links[p := After(ring, k)] == links && next[bp] == After(ring, k)
      && next[p := bp] == links[bp := After(ring, k)][p := bp]
      && (k + 1 < |ring| ==> bp + size[bp] < ring[k + 1])
    }

    /** In `free`, the block behind the freed one joins it if it is free. */
    method JoinUpper(bp: Address, p: Address, ghost k: nat) returns (ghost links: Links)
      requires Valid() && bp in used && Belongs(ring, bp, k) && p == ring[k] && bp in size && p in size
      requires size[bp] > 0 && bp >= memloc && (k + 1 < |ring| ==> bp + size[bp] <= ring[k + 1])
      modifies this`next, this`size, this`ring
      ensures Halfway(bp, p, k, links)
      ensures bp in size && size[bp] >= old(size[bp]) && p in size && size[p] == old(size[p])
      ensures forall u :: u in used && u != bp ==> u in size && u in old(size) && size[u] == old(size[u])
    {
      hide HeapOk;
      UsedKnown(ring, used, next, size, base, memloc, memloc + units, k);
      links := next;
      var upper := next[p];
      if bp + size[bp] == upper {
        UpperKnown(ring, used, next, size, base, memloc, memloc + units, bp, k);
        JoinedUpper(ring, used, next, size, base, memloc, memloc + units, bp, k);
        links := next[p := After(ring, k + 1)];
        ghost var was := ring;
        size := size[bp := size[bp] + size[upper]];
        next := next[bp := next[upper]];
        ring := ring[..k + 1] + ring[k + 2..];
        assert After(ring, k) == After(was, k + 1) && ring[k] == was[k];
      } else {
        next := next[bp := upper];
      }
    }

    /** In `free`, the block before the freed one takes it in if it is free. */
    method JoinLower(bp: Address, p: Address, ghost k: nat, ghost links: Links)
      requires Halfway(bp, p, k, links)
      modifies this`next, this`size, this`ring, this`used
      ensures NULL < base < memloc && units > 0 && freep != NULL && HeapOk(ring, used, next, size, base, memloc, memloc + units)
      ensures used == old(used) - {bp} && p in ring && (forall b :: b in old(ring) ==> b in ring)
      ensures forall u :: u in used ==> u in size && u in old(size) && size[u] == old(size[u])
      ensures exists i :: 1 <= i < |ring| && ring[i] <= bp && bp + old(size[bp]) <= ring[i] + size[ring[i]]
    {
      hide HeapOk;
      UsedKnown(ring, used, links, size, base, memloc, memloc + units, k);
      if p + size[p] == bp {
        JoinedLower(ring, used, links, size, base, memloc, memloc + units, bp, k);
        LinkExtra(ring, used - {bp}, links, size[p := size[p] + size[bp]], base, memloc, memloc + units, bp, After(ring, k));
        MapAgree(next, links[bp := After(ring, k)], p, bp, After(ring, k));
        size := size[p := size[p] + size[bp]];
        next := next[p := next[bp]];
      } else {

        Inserted(ring, used, links, size, base, memloc, memloc + units, bp, k);
        next := next[p := bp];
        ring := ring[..k + 1] + [bp] + ring[k + 1..];
        assert ring[k + 1] == bp && ring[k] == p;
      }
      used := used - {bp};
    }
  }

  /** Where the blocks are, for a free one and the allocated ones. */
  lemma BlocksKnown(ring: seq<Address>, used: set<Address>, size: Sizes, base: Address, next: Links, lo: Address, hi: Address, j: nat)
    requires HeapOk(ring, used, next, size, base, lo, hi) && 1 <= j < |ring|
    ensures ring[j] in size && lo <= ring[j] && size[ring[j]] > 0 && ring[j] + size[ring[j]] <= hi && ring[j] !in used
    ensures used <= Blocks(ring, used) && (forall u :: u in used ==> u in size) && ring[j] in Blocks(ring, used)
    ensures LinkAt(ring, next, j) && ring[j - 1] >= base && forall u :: u in used ==> u != ring[j]
  {
    if j > 1 {
      assert ring[j - 1] in Blocks(ring, used);
    }
    assert ring[j] in Blocks(ring, used);
    assert forall u :: u in used ==> u in Blocks(ring, used);
  }

  lemma UsedKnown(ring: seq<Address>, used: set<Address>, next: Links, size: Sizes, base: Address, lo: Address, hi: Address, k: nat)
    requires HeapOk(ring, used, next, size, base, lo, hi) && k < |ring|
    ensures LinkAt(ring, next, k) && (k == 0 ==> size[ring[k]] == 0) && ring[k] in size
    ensures ListOk(ring, next, size, base) && ring[0] == base <= ring[k]
    ensures forall u :: u in used ==> u in size && size[u] > 0 && u !in ring
    ensures forall i :: 0 <= i < |ring| ==> ring[i] in size
  {
    assert LinkAt(ring, next, k);
    assert forall u :: u in used ==> u in Blocks(ring, used);
  }

  /** The block behind the freed one ends before the next free block, and is not the root. */
  lemma UpperKnown(ring: seq<Address>, used: set<Address>, next: Links, size: Sizes, base: Address, lo: Address, hi: Address,
                   bp: Address, k: nat)
    requires HeapOk(ring, used, next, size, base, lo, hi) && bp in used && Belongs(ring, bp, k) && bp in size && size[bp] > 0
    requires bp + size[bp] == After(ring, k)
    ensures k + 1 < |ring| && LinkAt(ring, next, k + 1) && ring[k + 1] in size && size[ring[k + 1]] > 0
  {
    assert bp in Blocks(ring, used);
    assert ring[0] < bp + size[bp];
    assert LinkAt(ring, next, k + 1) && ring[k + 1] in Blocks(ring, used);
  }
}
