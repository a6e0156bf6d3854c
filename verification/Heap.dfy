/**
 The allocator's state as a value: which blocks the pages are cut into, which of
 them are free, and for every page the block it belongs to.
 */
module Heap {
  import opened Pages

  /** `order` maps the first page of every block to the block's order, `free` holds the
      first pages of the free blocks, and `owner[i]` is the first page of page `i`'s block. */
  datatype Heap = Heap(order: map<nat, nat>, free: set<nat>, owner: seq<nat>) {
    /** The blocks handed out, with their orders. */
    ghost function Live(): map<nat, nat> {
      map p | p in order && p !in free :: order[p]
    }
  }

  ghost predicate Covers(h: Heap, p: nat, i: nat)
    requires p in h.order
  {
    p <= i < p + Pow2(h.order[p])
  }

  /** Every block is aligned and in range, and every page lies in exactly one block. */
  ghost predicate Tiled(h: Heap) {
    && |h.owner| == PAGE_NUM
    && h.free <= h.order.Keys
    && (forall p <- h.order :: BlockAt(p, h.order[p]))
    && (forall i :: 0 <= i < PAGE_NUM ==> h.owner[i] in h.order && Covers(h, h.owner[i], i))
    && (forall p, i {:trigger Covers(h, p, i)} ::
         p in h.order && 0 <= i < PAGE_NUM && Covers(h, p, i) ==> h.owner[i] == p)
  }

  /** No two free buddies of the same order below the largest are left unmerged. */
  ghost predicate Coalesced(h: Heap) {
    forall p, q :: p in h.free && q in h.free ==> !Buddies(h, p, q)
  }

  ghost predicate Buddies(h: Heap, p: nat, q: nat) {
    && p in h.order && q in h.order
    && h.order[p] == h.order[q] < PAGE_MAX_ORDER
    && q == BuddyIndex(p, h.order[p])
  }

  ghost predicate FreeAt(h: Heap, p: int, o: nat) {
    p in h.free && p in h.order && h.order[p] == o
  }

  /** Distinct blocks do not share a page, and every page is in some block. */
  lemma TilesExactly(h: Heap, i: nat)
    requires Tiled(h) && i < PAGE_NUM
    ensures exists p <- h.order :: Covers(h, p, i)
    ensures forall p, q :: p in h.order && q in h.order && Covers(h, p, i) && Covers(h, q, i) ==> p == q
  {
    assert Covers(h, h.owner[i], i);
  }

  // ----- splitting and merging

  ghost function Split(h: Heap, p: nat): (r: Heap)
    requires p in h.order && h.order[p] > 0
  {
    var o := h.order[p] - 1;
    Heap(h.order[p := o][p + Pow2(o) := o], h.free,
         seq(|h.owner|, i requires 0 <= i < |h.owner| =>
           if p + Pow2(o) <= i < p + 2 * Pow2(o) then p + Pow2(o) else h.owner[i]))
  }

  lemma SplitFacts(h: Heap, p: nat)
    requires Tiled(h) && p in h.order && p !in h.free && h.order[p] > 0
    ensures var o := h.order[p] - 1;
            && Pow2(h.order[p]) == 2 * Pow2(o)
            && BlockAt(p, o) && BlockAt(p + Pow2(o), o) && p + Pow2(o) !in h.order
            && BuddyIndex(p, o) == p + Pow2(o) && BuddyIndex(p + Pow2(o), o) == p
  {
    var o := h.order[p] - 1;
    Halves(p, o);
    var q := p + Pow2(o);
    assert Covers(h, p, q);
    if q in h.order { assert Covers(h, q, q); }
  }

  lemma SplitCovers(h: Heap, p: nat, i: nat)
    requires Tiled(h) && p in h.order && p !in h.free && h.order[p] > 0 && i < PAGE_NUM
    ensures var r := Split(h, p); r.owner[i] in r.order && Covers(r, r.owner[i], i)
  {
    SplitFacts(h, p);
    assert Covers(h, h.owner[i], i);
  }

  lemma SplitOwner(h: Heap, p: nat, s: nat, i: nat)
    requires Tiled(h) && p in h.order && p !in h.free && h.order[p] > 0
    requires s in Split(h, p).order && i < PAGE_NUM && Covers(Split(h, p), s, i)
    ensures Split(h, p).owner[i] == s
  {
    SplitFacts(h, p);
    if s == p || s == p + Pow2(h.order[p] - 1) {
      assert Covers(h, p, i);
    } else {
      assert Covers(h, s, i);
      assert !Covers(h, p, i);
    }
  }

  lemma SplitKeepsTiling(h: Heap, p: nat)
    requires Tiled(h) && p in h.order && p !in h.free && h.order[p] > 0
    ensures Tiled(Split(h, p))
  {
    var r := Split(h, p);
    forall i | 0 <= i < PAGE_NUM ensures r.owner[i] in r.order && Covers(r, r.owner[i], i) {
      SplitCovers(h, p, i);
    }
    forall s, i | s in r.order && 0 <= i < PAGE_NUM && Covers(r, s, i) ensures r.owner[i] == s {
      SplitOwner(h, p, s, i);
    }
    SplitFacts(h, p);
  }

  ghost function Merge(h: Heap, p: nat, o: nat): (r: Heap)
    requires p in h.order
  {
    Heap((h.order - {p + Pow2(o)})[p := o + 1], h.free - {p, p + Pow2(o)},
         seq(|h.owner|, i requires 0 <= i < |h.owner| =>
           if p + Pow2(o) <= i < p + 2 * Pow2(o) then p else h.owner[i]))
  }

  ghost predicate Mergeable(h: Heap, p: nat, o: nat) {
    && BlockAt(p, o + 1)
    && p in h.order && h.order[p] == o
    && p + Pow2(o) in h.order && h.order[p + Pow2(o)] == o
  }

  lemma MergeCovers(h: Heap, p: nat, o: nat, i: nat)
    requires Tiled(h) && Mergeable(h, p, o) && i < PAGE_NUM
    ensures var r := Merge(h, p, o); r.owner[i] in r.order && Covers(r, r.owner[i], i)
  {
    assert Covers(h, h.owner[i], i);
  }

  lemma MergeOwner(h: Heap, p: nat, o: nat, s: nat, i: nat)
    requires Tiled(h) && Mergeable(h, p, o)
    requires s in Merge(h, p, o).order && i < PAGE_NUM && Covers(Merge(h, p, o), s, i)
    ensures Merge(h, p, o).owner[i] == s
  {
    var q := p + Pow2(o);
    if s == p {
      if i < q { assert Covers(h, p, i); }
    } else {
      assert Covers(h, s, i);
      if q <= i < q + Pow2(o) { assert Covers(h, q, i); }
    }
  }

  lemma MergeKeepsTiling(h: Heap, p: nat, o: nat)
    requires Tiled(h) && Mergeable(h, p, o)
    ensures Tiled(Merge(h, p, o))
  {
    var r := Merge(h, p, o);
    forall i | 0 <= i < PAGE_NUM ensures r.owner[i] in r.order && Covers(r, r.owner[i], i) {
      MergeCovers(h, p, o, i);
    }
    forall s, i | s in r.order && 0 <= i < PAGE_NUM && Covers(r, s, i) ensures r.owner[i] == s {
      MergeOwner(h, p, o, s, i);
    }
  }

  // ----- the free set is determined by the live blocks

  ghost predicate RegionFree(h: Heap, b: nat, o: nat) {
    forall i :: b <= i < b + Pow2(o) && i < |h.owner| ==> h.owner[i] in h.free
  }

  /** In a coalesced heap an aligned region with no live page lies inside one free block. */
  lemma {:induction false} FreeRegionIsOneBlock(h: Heap, b: nat, o: nat)
    requires Tiled(h) && Coalesced(h) && BlockAt(b, o) && RegionFree(h, b, o)
    ensures var p := h.owner[b]; p in h.free && o <= h.order[p] && Covers(h, p, b)
    decreases o
  {
    assert Covers(h, h.owner[b], b);
    if o > 0 {
      UpperHalf(b, o - 1);
      FreeRegionIsOneBlock(h, b, o - 1);
      FreeRegionIsOneBlock(h, b + Pow2(o - 1), o - 1);
      HalvesTogether(h, b, o - 1);
    }
  }

  /** Two free blocks that each hold one half of an aligned region are one block. */
  lemma HalvesTogether(h: Heap, b: nat, o: nat)
    requires Tiled(h) && Coalesced(h) && BlockAt(b, o + 1)
    requires b + Pow2(o) < PAGE_NUM
    requires h.owner[b] in h.free && o <= h.order[h.owner[b]]
    requires h.owner[b + Pow2(o)] in h.free && o <= h.order[h.owner[b + Pow2(o)]]
    ensures o + 1 <= h.order[h.owner[b]]
  {
    hide Aligned, Pow2, Covers;
    HalvesNotBoth(h, b, o);
    if h.order[h.owner[b + Pow2(o)]] != o {
      UpperHalf(b, o);
      OwnerCovers(h, b, o + 1, b + Pow2(o));
    }
  }

  lemma HalvesNotBoth(h: Heap, b: nat, o: nat)
    requires Tiled(h) && Coalesced(h) && BlockAt(b, o + 1)
    requires b + Pow2(o) < PAGE_NUM
    ensures !(FreeAt(h, h.owner[b], o) && FreeAt(h, h.owner[b + Pow2(o)], o))
  {
    hide Aligned, Pow2, Covers;
    UpperHalf(b, o);
    if FreeAt(h, h.owner[b], o) && FreeAt(h, h.owner[b + Pow2(o)], o) {
      OwnerAt(h, b, o);
      OwnerAt(h, b + Pow2(o), o);
    }
  }

  lemma UpperHalf(b: nat, o: nat)
    requires BlockAt(b, o + 1)
    ensures BlockAt(b, o) && BlockAt(b + Pow2(o), o) && BuddyIndex(b, o) == b + Pow2(o)
    ensures Pow2(o + 1) == 2 * Pow2(o)
  {
    Halves(b, o);
  }

  lemma OwnerAt(h: Heap, b: nat, o: nat)
    requires Tiled(h) && BlockAt(b, o) && h.order[h.owner[b]] == o
    ensures h.owner[b] == b
  {
    assert Covers(h, h.owner[b], b);
    Nested(b, o, h.owner[b], o);
  }

  /** A block that holds a page of an aligned region no larger than itself holds all of it. */
  lemma OwnerCovers(h: Heap, b: nat, o: nat, x: nat)
    requires Tiled(h) && BlockAt(b, o) && b <= x < b + Pow2(o) && o <= h.order[h.owner[x]]
    ensures h.owner[b] == h.owner[x]
  {
    var q := h.owner[x];
    assert Covers(h, q, x);
    Nested(b, o, q, h.order[q]);
    assert Covers(h, q, b);
  }

  lemma SamePages(h: Heap, g: Heap, p: nat)
    requires Tiled(h) && Tiled(g) && h.Live() == g.Live() && p in h.free
    ensures RegionFree(g, p, h.order[p])
  {
    forall i | p <= i < p + Pow2(h.order[p]) && i < |g.owner|
      ensures g.owner[i] in g.free
    {
      var q := g.owner[i];
      assert Covers(g, q, i) && Covers(h, p, i);
      if q !in g.free {
        assert q in g.Live();
        assert q in h.Live() && h.order[q] == g.order[q];
        assert Covers(h, q, i);
      }
    }
  }

  lemma FreeBlockShared(h: Heap, g: Heap, p: nat)
    requires Tiled(h) && Coalesced(h) && Tiled(g) && Coalesced(g) && h.Live() == g.Live()
    requires p in h.free
    ensures FreeAt(g, p, h.order[p])
  {
    var o := h.order[p];
    SamePages(h, g, p);
    FreeRegionIsOneBlock(g, p, o);
    var q := g.owner[p];
    var k := g.order[q];
    SamePages(g, h, q);
    FreeRegionIsOneBlock(h, q, k);
    var r := h.owner[q];
    Nested(p, o, q, k);
    Nested(q, k, r, h.order[r]);
    assert Covers(h, r, p) && Covers(h, p, p);
    assert r == p;
  }

  /** Whatever sequence of allocations and frees led here, the live blocks alone fix the
      free blocks: two coalesced heaps with the same live blocks are the same heap. */
  lemma CanonicalFreeSet(h: Heap, g: Heap)
    requires Tiled(h) && Coalesced(h) && Tiled(g) && Coalesced(g)
    requires h.Live() == g.Live()
    ensures h == g
  {
    forall p | p in h.free ensures FreeAt(g, p, h.order[p]) { FreeBlockShared(h, g, p); }
    forall p | p in g.free ensures FreeAt(h, p, g.order[p]) { FreeBlockShared(g, h, p); }
    assert h.free == g.free;
    SameBlocks(h, g);
    SameBlocks(g, h);
    assert h.order == g.order;
    forall i | 0 <= i < PAGE_NUM ensures h.owner[i] == g.owner[i] {
      assert Covers(h, h.owner[i], i);
      assert Covers(g, h.owner[i], i);
    }
  }

  lemma SameBlocks(h: Heap, g: Heap)
    requires Tiled(h) && Tiled(g) && h.Live() == g.Live() && h.free <= g.free
    requires forall p <- h.free :: FreeAt(g, p, h.order[p])
    ensures forall p <- h.order :: p in g.order && g.order[p] == h.order[p]
  {
    forall p | p in h.order ensures p in g.order && g.order[p] == h.order[p] {
      if p in h.free {
        assert FreeAt(g, p, h.order[p]);
      } else {
        assert p in h.Live();
        assert p in g.Live();
      }
    }
  }

  // ----- the heap buddy_init builds

  ghost function Initial(): Heap {
    Heap(map p | 0 <= p < PAGE_NUM && p % 1024 == 0 :: PAGE_MAX_ORDER,
         set p | 0 <= p < PAGE_NUM && p % 1024 == 0,
         seq(PAGE_NUM, i => (i / 1024) * 1024))
  }

  lemma {:induction false} MultipleAligned(k: nat, o: nat)
    ensures Aligned(k * Pow2(o), o)
    decreases o
  {
    if o > 0 {
      assert k * Pow2(o) == 2 * (k * Pow2(o - 1));
      MultipleAligned(k, o - 1);
    }
  }

  lemma InitialBlock(p: nat)
    requires p < PAGE_NUM && p % 1024 == 0
    ensures BlockAt(p, PAGE_MAX_ORDER)
  {
    PowMax();
    MultipleAligned(p / 1024, PAGE_MAX_ORDER);
  }

  lemma InitialOwner(p: nat, i: nat)
    requires p % 1024 == 0 && i < PAGE_NUM
    ensures var q := (i / 1024) * 1024; q % 1024 == 0 && q <= i < q + 1024
    ensures p <= i < p + 1024 ==> p == (i / 1024) * 1024
  {
  }

  lemma InitialTiled()
    ensures Tiled(Initial()) && Coalesced(Initial()) && Initial().Live() == map[]
  {
    var h := Initial();
    forall p | p in h.order ensures BlockAt(p, h.order[p]) { InitialBlock(p); }
    forall i | 0 <= i < PAGE_NUM ensures h.owner[i] in h.order && Covers(h, h.owner[i], i) {
      PowMax();
      InitialOwner(0, i);
    }
    forall p, i | p in h.order && 0 <= i < PAGE_NUM && Covers(h, p, i) ensures h.owner[i] == p {
      PowMax();
      InitialOwner(p, i);
    }
  }

  /** The first pages of the largest blocks, in the order `buddy_init` links them. */
  ghost function InitialList(): (r: seq<nat>) {
    seq(PAGE_NUM / 1024, k => k * 1024)
  }

  lemma InitialListHoldsFree(p: nat)
    ensures p in InitialList() <==> p in Initial().free
    ensures p in Initial().free ==> p in Initial().order && Initial().order[p] == PAGE_MAX_ORDER
  {
    if p in Initial().free {
      assert InitialList()[p / 1024] == p;
    }
  }

  /** Once every block has been freed the heap is the one `buddy_init` built. */
  lemma AllFreedIsInitial(h: Heap)
    requires Tiled(h) && Coalesced(h) && h.Live() == map[]
    ensures h == Initial()
  {
    InitialTiled();
    CanonicalFreeSet(h, Initial());
  }
}
