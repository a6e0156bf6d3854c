/** The buddy allocator over the page descriptors, updated in place. */
module Buddy {
  import opened Collections
  import opened Pages
  import opened Heap

  const NULL := -1

  /** A page descriptor: the two flag bits, the order and the index of the next list entry. */
  datatype Page = Page(isFree: bool, isFirst: bool, order: nat, next: int)

  // ----- what the descriptors and list heads mean

  ghost function After(list: seq<nat>, k: nat): int {
    if k + 1 < |list| then list[k + 1] else NULL
  }

  /** `list` is the chain of descriptors that starts at `head`. */
  ghost predicate Chain(pages: seq<Page>, head: int, list: seq<nat>) {
    && head == (if |list| == 0 then NULL else list[0])
    && (forall k :: 0 <= k < |list| ==> list[k] < |pages|)
    && (forall k :: 0 <= k < |list| ==> pages[list[k]].next == After(list, k))
    && NoDup(list)
  }

  /** `list` holds exactly the free blocks of order `o`. */
  ghost predicate Lists(h: Heap, list: seq<nat>, o: nat) {
    forall p :: p in list <==> FreeAt(h, p, o)
  }

  ghost predicate AllLists(pages: seq<Page>, heads: seq<int>, h: Heap, lists: seq<seq<nat>>) {
    && |heads| == |lists| == PAGE_MAX_DEPTH
    && (forall o :: 0 <= o < PAGE_MAX_DEPTH ==> Chain(pages, heads[o], lists[o]))
    && (forall o :: 0 <= o < PAGE_MAX_DEPTH ==> Lists(h, lists[o], o))
  }

  /** Flags and orders say what the heap says. The blocks `moving`, which are on no list and
      not handed out, may have their flag PF_FIRST_PAGE and their order out of date. */
  ghost predicate Described(pages: seq<Page>, h: Heap, moving: set<nat>) {
    && |pages| == PAGE_NUM
    && (forall p :: 0 <= p < PAGE_NUM ==> (pages[p].isFree <==> p in h.free))
    && (forall p :: 0 <= p < PAGE_NUM && p !in moving && p in h.order ==> pages[p].order == h.order[p])
    && (forall p :: 0 <= p < PAGE_NUM && p !in moving ==> (pages[p].isFirst <==> p in h.order && p !in h.free))
    && (forall p :: 0 <= p < PAGE_NUM && p !in h.order ==> pages[p].next == NULL)
  }

  ghost predicate Good(pages: seq<Page>, heads: seq<int>, h: Heap, lists: seq<seq<nat>>, moving: set<nat>) {
    && |pages| == PAGE_NUM && |heads| == |lists| == PAGE_MAX_DEPTH
    && Tiled(h) && Coalesced(h)
    && Described(pages, h, moving)
    && AllLists(pages, heads, h, lists)
    && (forall q <- moving :: q in h.order && q !in h.free)
  }

  // ----- taking a block off a list

  ghost function Unfree(h: Heap, p: nat): Heap {
    h.(free := h.free - {p})
  }

  lemma UnfreeKeeps(h: Heap, p: nat)
    requires Tiled(h) && Coalesced(h)
    ensures Tiled(Unfree(h, p)) && Coalesced(Unfree(h, p))
  {
    var g := Unfree(h, p);
    forall i | 0 <= i < PAGE_NUM ensures g.owner[i] in g.order && Covers(g, g.owner[i], i) {
      assert Covers(h, h.owner[i], i);
    }
    forall s, i | s in g.order && 0 <= i < PAGE_NUM && Covers(g, s, i) ensures g.owner[i] == s {
      assert Covers(h, s, i);
    }
    forall s, t | s in g.free && t in g.free ensures !Buddies(g, s, t) {
      assert !Buddies(h, s, t);
    }
  }

  /** The list without its entry at position `k`, and the descriptors after unlinking it. */
  ghost function Without(list: seq<nat>, k: nat): (r: seq<nat>)
    requires k < |list|
  {
    list[..k] + list[k + 1..]
  }

  ghost function Unlinked(pages: seq<Page>, list: seq<nat>, k: nat): (r: seq<Page>)
    requires k < |list| && forall j :: 0 <= j < |list| ==> list[j] < |pages|
    ensures |r| == |pages|
  {
    var p := list[k];
    var linked := if k == 0 then pages else pages[list[k - 1] := pages[list[k - 1]].(next := pages[p].next)];
    linked[p := linked[p].(next := NULL, isFree := false)]
  }

  lemma WithoutAfter(list: seq<nat>, k: nat, j: nat)
    requires k < |list| && j + 1 < |list| && NoDup(list)
    ensures var r := Without(list, k); var i := if j < k then j else j + 1;
            && r[j] == list[i] != list[k]
            && After(r, j) == After(list, if j + 1 == k then k else i)
            && (k > 0 && j + 1 != k ==> list[i] != list[k - 1])
  {
  }

  lemma UnlinkNext(pages: seq<Page>, head: int, list: seq<nat>, k: nat, j: nat)
    requires Chain(pages, head, list) && k < |list| && j + 1 < |list|
    ensures var r := Without(list, k); Unlinked(pages, list, k)[r[j]].next == After(r, j)
  {
    WithoutAfter(list, k, j);
    hide Without, After, NoDup;
    assert pages[list[k]].next == After(list, k);
  }

  lemma WithoutFacts(list: seq<nat>, k: nat, bound: nat)
    requires k < |list| && NoDup(list) && forall j :: 0 <= j < |list| ==> list[j] < bound
    ensures var r := Without(list, k);
            && |r| == |list| - 1 && NoDup(r)
            && (if k == 0 then if |r| == 0 then After(list, 0) == NULL else r[0] == After(list, 0)
                else r[0] == list[0])
            && forall j :: 0 <= j < |r| ==> r[j] < bound
  {
  }

  lemma UnlinkChain(pages: seq<Page>, head: int, list: seq<nat>, k: nat)
    requires Chain(pages, head, list) && k < |list|
    ensures Chain(Unlinked(pages, list, k), if k == 0 then pages[list[0]].next else head, Without(list, k))
  {
    hide Without, After, NoDup, Unlinked;
    var r, out := Without(list, k), Unlinked(pages, list, k);
    WithoutFacts(list, k, |pages|);
    forall j | 0 <= j < |r| ensures out[r[j]].next == After(r, j) {
      UnlinkNext(pages, head, list, k, j);
    }
  }

  lemma UnlinkOther(pages: seq<Page>, list: seq<nat>, k: nat, head: int, other: seq<nat>)
    requires k < |list| && forall j :: 0 <= j < |list| ==> list[j] < |pages|
    requires Chain(pages, head, other) && forall p :: p in list ==> p !in other
    ensures Chain(Unlinked(pages, list, k), head, other)
  {
    forall j | 0 <= j < |other| ensures other[j] !in list {
      assert other[j] in other;
    }
  }

  lemma WithoutLists(h: Heap, list: seq<nat>, o: nat, k: nat)
    requires Lists(h, list, o) && k < |list|
    requires NoDup(list)
    ensures Lists(Unfree(h, list[k]), Without(list, k), o)
  {
    var r := Without(list, k);
    forall p: nat ensures p in r <==> FreeAt(Unfree(h, list[k]), p, o) {
      if p in list && p != list[k] {
        var j :| 0 <= j < |list| && list[j] == p;
        assert p == if j < k then r[j] else r[j - 1];
      }
    }
  }

  lemma UnlinkDescribed(pages: seq<Page>, h: Heap, moving: set<nat>, list: seq<nat>, k: nat)
    requires Described(pages, h, moving) && k < |list|
    requires forall j :: 0 <= j < |list| ==> list[j] < |pages| && list[j] in h.free && list[j] in h.order
    ensures Described(Unlinked(pages, list, k), Unfree(h, list[k]), moving + {list[k]})
  {
  }

  lemma Entries(pages: seq<Page>, heads: seq<int>, h: Heap, lists: seq<seq<nat>>, o: nat)
    requires AllLists(pages, heads, h, lists) && o < PAGE_MAX_DEPTH
    ensures forall j :: 0 <= j < |lists[o]| ==> lists[o][j] < |pages| && FreeAt(h, lists[o][j], o)
    ensures NoDup(lists[o])
  {
    assert Chain(pages, heads[o], lists[o]);
    forall j | 0 <= j < |lists[o]| ensures FreeAt(h, lists[o][j], o) { assert lists[o][j] in lists[o]; }
  }

  lemma UnlinkOthers(pages: seq<Page>, heads: seq<int>, h: Heap, lists: seq<seq<nat>>, o: nat, k: nat, x: nat)
    requires AllLists(pages, heads, h, lists) && o < PAGE_MAX_DEPTH && k < |lists[o]|
    requires x < PAGE_MAX_DEPTH && x != o
    requires forall j :: 0 <= j < |lists[o]| ==> lists[o][j] < |pages|
    ensures Chain(Unlinked(pages, lists[o], k), heads[x], lists[x])
    ensures Lists(Unfree(h, lists[o][k]), lists[x], x)
  {
    hide Chain;
    assert lists[o][k] in lists[o];
    forall q | q in lists[o] ensures q !in lists[x] { assert FreeAt(h, q, o); }
    UnlinkOther(pages, lists[o], k, heads[x], lists[x]);
  }

  /** Unlinking one entry keeps every list and every descriptor right; the entry is then moving. */
  lemma UnlinkKeeps(pages: seq<Page>, heads: seq<int>, h: Heap, lists: seq<seq<nat>>, moving: set<nat>,
                    o: nat, k: nat)
    requires Good(pages, heads, h, lists, moving) && o < PAGE_MAX_DEPTH && k < |lists[o]|
    ensures forall j :: 0 <= j < |lists[o]| ==> lists[o][j] < PAGE_NUM && FreeAt(h, lists[o][j], o)
    ensures var p := lists[o][k];
            Good(Unlinked(pages, lists[o], k), heads[o := if k == 0 then pages[p].next else heads[o]],
                 Unfree(h, p), lists[o := Without(lists[o], k)], moving + {p})
  {
    hide Tiled, Coalesced, Chain, Lists, Unlinked, Without, NoDup, Described;
    var p := lists[o][k];
    Entries(pages, heads, h, lists, o);
    UnfreeKeeps(h, p);
    assert |pages| == PAGE_NUM by { UnlinkDescribed(pages, h, moving, lists[o], k); }
    UnlinkDescribed(pages, h, moving, lists[o], k);
    UnlinkLists(pages, heads, h, lists, o, k);
  }

  lemma UnlinkLists(pages: seq<Page>, heads: seq<int>, h: Heap, lists: seq<seq<nat>>, o: nat, k: nat)
    requires AllLists(pages, heads, h, lists) && o < PAGE_MAX_DEPTH && k < |lists[o]|
    requires forall j :: 0 <= j < |lists[o]| ==> lists[o][j] < |pages|
    ensures var p := lists[o][k];
            AllLists(Unlinked(pages, lists[o], k), heads[o := if k == 0 then pages[p].next else heads[o]],
                     Unfree(h, p), lists[o := Without(lists[o], k)])
  {
    hide Chain, Lists, Unlinked, Without, NoDup;
    Entries(pages, heads, h, lists, o);
    UnlinkChain(pages, heads[o], lists[o], k);
    WithoutLists(h, lists[o], o, k);
    forall x | 0 <= x < PAGE_MAX_DEPTH && x != o
      ensures Chain(Unlinked(pages, lists[o], k), heads[x], lists[x])
      ensures Lists(Unfree(h, lists[o][k]), lists[x], x)
    {
      UnlinkOthers(pages, heads, h, lists, o, k, x);
    }
  }

  // ----- putting a block on a list

  ghost function Refree(h: Heap, p: nat): Heap {
    h.(free := h.free + {p})
  }

  lemma RefreeTiled(h: Heap, p: nat)
    requires Tiled(h) && p in h.order
    ensures Tiled(Refree(h, p))
  {
    var g := Refree(h, p);
    forall i | 0 <= i < PAGE_NUM ensures g.owner[i] in g.order && Covers(g, g.owner[i], i) {
      assert Covers(h, h.owner[i], i);
    }
    forall s, i | s in g.order && 0 <= i < PAGE_NUM && Covers(g, s, i) ensures g.owner[i] == s {
      assert Covers(h, s, i);
    }
  }

  /** Freeing a block whose buddy is not free leaves no buddies to merge. */
  lemma RefreeCoalesced(h: Heap, p: nat)
    requires Tiled(h) && Coalesced(h) && p in h.order
    requires h.order[p] < PAGE_MAX_ORDER ==> !FreeAt(h, BuddyIndex(p, h.order[p]), h.order[p])
    ensures Coalesced(Refree(h, p))
  {
    hide Covers;
    var g := Refree(h, p);
    forall s, t | s in g.free && t in g.free ensures !Buddies(g, s, t) {
      if h.order[s] < PAGE_MAX_ORDER { BuddyProperties(s, h.order[s]); }
      if s != p && t != p { assert !Buddies(h, s, t); }
    }
  }

  lemma LinkChain(pages: seq<Page>, head: int, list: seq<nat>, p: nat, page: Page)
    requires Chain(pages, head, list) && p < |pages| && p !in list && page.next == head
    ensures Chain(pages[p := page], p, [p] + list)
  {
    var r := [p] + list;
    forall j | 0 <= j < |r| ensures pages[p := page][r[j]].next == After(r, j) {
      if j > 0 { assert r[j] == list[j - 1] && list[j - 1] in list && After(r, j) == After(list, j - 1); }
    }
  }

  lemma LinkOther(pages: seq<Page>, head: int, list: seq<nat>, p: nat, page: Page)
    requires Chain(pages, head, list) && p < |pages| && p !in list
    ensures Chain(pages[p := page], head, list)
  {
    forall j | 0 <= j < |list| ensures pages[p := page][list[j]] == pages[list[j]] {
      assert list[j] in list;
    }
  }

  lemma LinkLists(pages: seq<Page>, heads: seq<int>, h: Heap, lists: seq<seq<nat>>, p: nat, o: nat, page: Page)
    requires AllLists(pages, heads, h, lists) && o < PAGE_MAX_DEPTH && p < |pages|
    requires p in h.order && h.order[p] == o && p !in h.free && page.next == heads[o]
    ensures AllLists(pages[p := page], heads[o := p], Refree(h, p), lists[o := [p] + lists[o]])
  {
    hide Chain;
    forall x | 0 <= x < PAGE_MAX_DEPTH ensures p !in lists[x] { assert !FreeAt(h, p, x); }
    LinkChain(pages, heads[o], lists[o], p, page);
    forall x | 0 <= x < PAGE_MAX_DEPTH && x != o ensures Chain(pages[p := page], heads[x], lists[x]) {
      LinkOther(pages, heads[x], lists[x], p, page);
    }
  }

  lemma LinkDescribed(pages: seq<Page>, h: Heap, moving: set<nat>, p: nat, page: Page)
    requires Described(pages, h, moving) && p in h.order && p < PAGE_NUM
    requires page.isFree && !page.isFirst && page.order == h.order[p]
    ensures Described(pages[p := page], Refree(h, p), moving - {p})
  {
  }

  /** Pushing a moving block on the list of its order keeps every list and descriptor right. */
  lemma LinkKeeps(pages: seq<Page>, heads: seq<int>, h: Heap, lists: seq<seq<nat>>, moving: set<nat>,
                  p: nat, page: Page)
    requires Good(pages, heads, h, lists, moving) && p in moving && h.order[p] <= PAGE_MAX_ORDER
    requires page == Page(true, false, h.order[p], heads[h.order[p]])
    requires h.order[p] < PAGE_MAX_ORDER ==> !FreeAt(h, BuddyIndex(p, h.order[p]), h.order[p])
    ensures p < PAGE_NUM
    ensures Good(pages[p := page], heads[h.order[p] := p], Refree(h, p),
                 lists[h.order[p] := [p] + lists[h.order[p]]], moving - {p})
  {
    assert BlockAt(p, h.order[p]);
    hide Tiled, Coalesced, AllLists, BuddyIndex;
    RefreeTiled(h, p);
    RefreeCoalesced(h, p);
    LinkLists(pages, heads, h, lists, p, h.order[p], page);
    LinkDescribed(pages, h, moving, p, page);
    hide Described;
  }

  // ----- splitting and merging a moving block

  lemma SameListsSplit(pages: seq<Page>, heads: seq<int>, h: Heap, g: Heap, lists: seq<seq<nat>>)
    requires AllLists(pages, heads, h, lists)
    requires forall p, o :: FreeAt(h, p, o) <==> FreeAt(g, p, o)
    ensures AllLists(pages, heads, g, lists)
  {
    hide Chain;
  }

  lemma SameFreeCoalesced(h: Heap, g: Heap)
    requires Coalesced(h) && h.free == g.free
    requires forall p <- h.free :: p in h.order && p in g.order && g.order[p] == h.order[p]
    ensures Coalesced(g)
  {
    forall s, t | s in g.free && t in g.free ensures !Buddies(g, s, t) {
      assert !Buddies(h, s, t);
    }
  }

  /** Cutting a moving block in two leaves two moving blocks; no descriptor changes yet. */
  lemma SplitKeeps(pages: seq<Page>, heads: seq<int>, h: Heap, lists: seq<seq<nat>>, moving: set<nat>, q: nat)
    requires Good(pages, heads, h, lists, moving) && q in moving && h.order[q] > 0
    ensures var up := q + Pow2(h.order[q] - 1);
            && Good(pages, heads, Split(h, q), lists, moving + {up})
            && up < PAGE_NUM && up !in h.order && pages[up].next == NULL && !pages[up].isFirst
            && BuddyIndex(q, h.order[q] - 1) == up && BlockAt(up, h.order[q] - 1)
  {
    var g, up := Split(h, q), q + Pow2(h.order[q] - 1);
    SplitFacts(h, q);
    SplitKeepsTiling(h, q);
    SameFreeCoalesced(h, g);
    SameListsSplit(pages, heads, h, g, lists);
    hide Tiled, Coalesced, AllLists, Aligned, BuddyIndex;
  }

  lemma MergeDescribed(pages: seq<Page>, h: Heap, moving: set<nat>, p: nat, o: nat)
    requires Described(pages, h, moving) && p in h.order && p in moving && p + Pow2(o) in moving
    requires p !in h.free && p + Pow2(o) !in h.free && p + Pow2(o) < PAGE_NUM
    requires !pages[p + Pow2(o)].isFirst && pages[p + Pow2(o)].next == NULL
    ensures Described(pages, Merge(h, p, o), moving - {p + Pow2(o)})
  {
  }

  /** Two moving buddies become one moving block of the next order. */
  lemma MergeKeeps(pages: seq<Page>, heads: seq<int>, h: Heap, lists: seq<seq<nat>>, moving: set<nat>,
                   p: nat, o: nat)
    requires Good(pages, heads, h, lists, moving) && Mergeable(h, p, o)
    requires p in moving && p + Pow2(o) in moving && p + Pow2(o) < PAGE_NUM
    requires !pages[p + Pow2(o)].isFirst && pages[p + Pow2(o)].next == NULL
    ensures Good(pages, heads, Merge(h, p, o), lists, moving - {p + Pow2(o)})
  {
    var g := Merge(h, p, o);
    assert h.free <= h.order.Keys;
    hide Tiled, Coalesced, AllLists, Mergeable, Described;
    MergeKeepsTiling(h, p, o);
    MergeDescribed(pages, h, moving, p, o);
    assert g.free == h.free;
    SameFreeCoalesced(h, g);
    SameListsSplit(pages, heads, h, g, lists);
  }

  // ----- the effect on the blocks handed out

  lemma UnfreeLive(h: Heap, p: nat)
    requires p in h.order && p in h.free
    ensures Unfree(h, p).Live() == h.Live()[p := h.order[p]] && p !in h.Live()
    ensures forall o :: NoneFree(h, o) ==> NoneFree(Unfree(h, p), o)
  {
    forall o, q | NoneFree(h, o) ensures !FreeAt(Unfree(h, p), q, o) {
      assert !FreeAt(h, q, o);
    }
  }

  lemma RefreeLive(h: Heap, p: nat)
    ensures Refree(h, p).Live() == h.Live() - {p}
  {
  }

  lemma SplitLive(h: Heap, q: nat)
    requires q in h.order && h.order[q] > 0 && q !in h.free && h.free <= h.order.Keys
    requires q + Pow2(h.order[q] - 1) !in h.order
    ensures var o := h.order[q] - 1;
            Refree(Split(h, q), q).Live() == (h.Live() - {q})[q + Pow2(o) := o]
  {
  }

  lemma MergeLive(h: Heap, p: nat, o: nat)
    requires p in h.order && p !in h.free && p + Pow2(o) !in h.free
    ensures Merge(h, p, o).Live() == (h.Live() - {p, p + Pow2(o)})[p := o + 1]
  {
  }

  /** The pages of a block that was not handed out before were all free. */
  lemma AllocatedWasFree(h: Heap, g: Heap, p: nat, o: nat)
    requires Tiled(h) && Tiled(g) && p !in h.Live() && g.Live() == h.Live()[p := o]
    ensures RegionFree(h, p, o)
  {
    assert p in g.Live() && g.order[p] == o;
    forall i | p <= i < p + Pow2(o) && i < |h.owner| ensures h.owner[i] in h.free {
      var q := h.owner[i];
      assert Covers(h, q, i) && Covers(g, p, i);
      if q !in h.free {
        assert q in h.Live() && q in g.Live();
        assert Covers(g, q, i);
      }
    }
  }

  ghost predicate NoneFree(h: Heap, o: nat) {
    forall p :: !FreeAt(h, p, o)
  }

  lemma NoneFreeHead(pages: seq<Page>, heads: seq<int>, h: Heap, lists: seq<seq<nat>>, o: nat)
    requires AllLists(pages, heads, h, lists) && o < PAGE_MAX_DEPTH
    ensures heads[o] == NULL <==> NoneFree(h, o)
  {
    assert Chain(pages, heads[o], lists[o]) && Lists(h, lists[o], o);
    if heads[o] != NULL { assert lists[o][0] in lists[o]; }
  }

  lemma CutEffect(h: Heap, q: nat, i: nat)
    requires Tiled(h) && q in h.order && q !in h.free && h.order[q] == i + 1
    ensures var up, g := q + Pow2(i), Refree(Split(h, q), q);
            && up != q && up in g.order && g.order[up] == i && up !in h.Live()
            && g.Live() == (h.Live() - {q})[up := i]
            && forall o :: o != i && NoneFree(h, o) ==> NoneFree(g, o)
  {
    SplitFacts(h, q);
    SplitLive(h, q);
    hide Tiled, NoneFree, Pow2, BuddyIndex, BlockAt;
    forall o | o != i && NoneFree(h, o) ensures NoneFree(Refree(Split(h, q), q), o) { CutElsewhere(h, q, i, o); }
  }

  lemma CutElsewhere(h: Heap, q: nat, i: nat, o: nat)
    requires q in h.order && h.order[q] == i + 1 && o != i && NoneFree(h, o)
    ensures NoneFree(Refree(Split(h, q), q), o)
  {
    var g := Refree(Split(h, q), q);
    forall p ensures !FreeAt(g, p, o) {
      assert !FreeAt(h, p, o);
    }
  }

  /** One round of the split loop: the lower half goes on the empty list of its order,
      the upper half is what is left to cut. */
  lemma CutKeeps(pages: seq<Page>, heads: seq<int>, h: Heap, lists: seq<seq<nat>>, q: nat, i: nat)
    requires Good(pages, heads, h, lists, {q}) && h.order[q] == i + 1 && NoneFree(h, i)
    requires i + 1 <= PAGE_MAX_ORDER && q < PAGE_NUM
    ensures var up, g := q + Pow2(i), Refree(Split(h, q), q);
            && Good(pages[q := Page(true, false, i, NULL)], heads[i := q], g, lists[i := [q] + lists[i]], {up})
            && heads[i] == NULL && up < PAGE_NUM && pages[up].next == NULL && !pages[up].isFirst
  {
    hide Tiled, Coalesced, AllLists, BuddyIndex, Aligned, Described;
    var up, k := q + Pow2(i), Split(h, q);
    assert q in {q};
    NoneFreeHead(pages, heads, h, lists, i);
    SplitKeeps(pages, heads, h, lists, {q}, q);
    assert {q} + {up} == {q, up};
    assert !FreeAt(k, up, i);
    LinkKeeps(pages, heads, k, lists, {q, up}, q, Page(true, false, i, heads[i]));
    assert {q, up} - {q} == {up} by { CutEffect(h, q, i); }
  }

  class Allocator {
    const pages: array<Page>
    const heads: array<int>
    ghost var heap: Heap
    ghost var lists: seq<seq<nat>>

    ghost predicate ValidBut(moving: set<nat>)
      reads this, pages, heads
    {
      Good(pages[..], heads[..], heap, lists, moving)
    }

    ghost predicate Valid()
      reads this, pages, heads
    {
      ValidBut({})
    }

    /** `buddy_init` */
    constructor ()
      ensures Valid() && fresh(pages) && fresh(heads)
      ensures heap == Initial()
    {
      pages := new Page[PAGE_NUM](i => Page(false, false, 0, NULL));
      heads := new int[PAGE_MAX_DEPTH](i => NULL);
      new;
      hide Good, Initial, InitialLists, InitialPage;
      var len := PAGE_NUM / 1024;
      forall p: nat ensures InitialPage(p, 0) == Page(false, false, 0, NULL) { NoInitialPage(p); }
      var i := 0;
      while i < len
        invariant 0 <= i <= len
        invariant fresh(pages) && fresh(heads) && forall o :: 0 <= o < PAGE_MAX_DEPTH ==> heads[o] == NULL
        invariant forall p :: 0 <= p < PAGE_NUM ==> pages[p] == InitialPage(p, i)
      {
        NextInitialPage(i);
        if i < len - 1 {
          pages[i * 1024] := pages[i * 1024].(next := (i + 1) * 1024);
        }
        pages[i * 1024] := pages[i * 1024].(order := PAGE_MAX_ORDER, isFree := true);
        i := i + 1;
      }
      heads[PAGE_MAX_ORDER] := 0;
      heap := Initial();
      lists := InitialLists();
      InitialGood(pages[..], heads[..]);
    }

    /** `buddy_list_pop` */
    method Pop(o: nat) returns (page: int)
      requires Valid() && o < PAGE_MAX_DEPTH
      modifies this, pages, heads
      ensures page == NULL ==> Valid() && heap == old(heap) && NoneFree(heap, o)
      ensures page != NULL ==>
                && 0 <= page < PAGE_NUM && ValidBut({page}) && FreeAt(old(heap), page, o)
                && heap == Unfree(old(heap), page)
                && pages[page].next == NULL && !pages[page].isFirst && pages[page].order == o
    {
      hide Tiled, Coalesced, Chain, Lists, Described;
      NoneFreeHead(pages[..], heads[..], heap, lists, o);
      page := heads[o];
      if page != NULL {
        HeadEntry(pages[..], heads[..], heap, lists, {}, o);
        UnlinkKeeps(pages[..], heads[..], heap, lists, {}, o, 0);
        heads[o] := pages[page].next;
        pages[page] := pages[page].(next := NULL);
        pages[page] := pages[page].(isFree := false);
        assert pages[..] == Unlinked(old(pages[..]), lists[o], 0);
        heap := Unfree(heap, page);
        lists := lists[o := Without(lists[o], 0)];
        assert heads[..] == old(heads[..])[o := old(pages[heads[o]].next)];
        assert {} + {page} == {page};
      }
    }

    /** `buddy_list_push`, for a block that is on no list and whose buddy is not free */
    method Push(o: nat, page: nat, ghost moving: set<nat>)
      requires ValidBut(moving) && page in moving && heap.order[page] == o <= PAGE_MAX_ORDER && page < PAGE_NUM
      requires pages[page].order == o && !pages[page].isFirst
      requires o < PAGE_MAX_ORDER ==> !FreeAt(heap, BuddyIndex(page, o), o)
      modifies this, pages, heads
      ensures ValidBut(moving - {page}) && heap == Refree(old(heap), page)
    {
      hide Tiled, Coalesced, AllLists, Described, BuddyIndex;
      LinkKeeps(pages[..], heads[..], heap, lists, moving, page, Page(true, false, o, heads[o]));
      if heads[o] != NULL {
        pages[page] := pages[page].(next := heads[o]);
      } else {
        pages[page] := pages[page].(next := NULL);
      }
      heads[o] := page;
      pages[page] := pages[page].(isFree := true);
      heap := Refree(heap, page);
      lists := lists[o := [page] + lists[o]];
      assert heads[..] == old(heads[..])[o := page];
      assert pages[..] == old(pages[..])[page := Page(true, false, o, old(heads[o]))];
    }

    /** `buddy_pull_block`; NULL where the kernel halts */
    method PullBlock(from: nat) returns (page: int)
      requires Valid() && from <= PAGE_MAX_ORDER && NoneFree(heap, from)
      modifies this, pages, heads
      ensures page == NULL ==>
                && Valid() && heap == old(heap)
                && forall o :: from <= o <= PAGE_MAX_ORDER ==> NoneFree(heap, o)
      ensures page != NULL ==>
                && 0 <= page < PAGE_NUM && ValidBut({page})
                && page !in old(heap.Live()) && heap.Live() == old(heap.Live())[page := from]
                && pages[page].order == from && !pages[page].isFirst && pages[page].next == NULL
                && exists o :: from < o <= PAGE_MAX_ORDER && !NoneFree(old(heap), o)
    {
      hide Tiled, Coalesced, AllLists, Described;
      var i, to := from + 1, 0;
      page := NULL;
      while i < PAGE_MAX_DEPTH
        invariant from < i <= PAGE_MAX_DEPTH
        invariant Valid() && heap == old(heap)
        invariant forall o :: from <= o < i ==> NoneFree(heap, o)
      {
        page := Pop(i);
        if page != NULL {
          to := i - 1;
          UnfreeLive(old(heap), page);
          assert !NoneFree(old(heap), i);
          break;
        }
        i := i + 1;
      }
      if i == PAGE_MAX_DEPTH {
        return NULL;
      }
      i := to;
      while i >= from
        invariant from - 1 <= i < PAGE_MAX_ORDER
        invariant 0 <= page < PAGE_NUM && ValidBut({page}) && page in heap.order && heap.order[page] == i + 1
        invariant !pages[page].isFirst && pages[page].next == NULL
        invariant forall o :: from <= o <= i ==> NoneFree(heap, o)
        invariant page !in old(heap.Live()) && heap.Live() == old(heap.Live())[page := i + 1]
      {
        page := Cut(page, i);
        i := i - 1;
      }
      ghost var before := pages[..];
      pages[page] := pages[page].(order := from);
      assert page in {page} && !before[page].isFree by { MovingNotFree(before, heads[..], heap, lists, {page}, page); }
      MovingChange(before, heads[..], heap, lists, {page}, page, pages[page]);
    }

    /** The body of the split loop of `buddy_pull_block` */
    method Cut(page: nat, i: nat) returns (up: nat)
      requires page < PAGE_NUM && ValidBut({page}) && page in heap.order && heap.order[page] == i + 1
      requires i < PAGE_MAX_ORDER && NoneFree(heap, i)
      requires !pages[page].isFirst && pages[page].next == NULL
      modifies this, pages, heads
      ensures up < PAGE_NUM && ValidBut({up}) && up in heap.order && heap.order[up] == i
      ensures !pages[up].isFirst && pages[up].next == NULL
      ensures forall o :: o != i && old(NoneFree(heap, o)) ==> NoneFree(heap, o)
      ensures up !in old(heap.Live()) && heap.Live() == (old(heap.Live()) - {page})[up := i]
    {
      hide Coalesced, AllLists, Described, NoneFree, Tiled;
      assert page in {page};
      CutKeeps(pages[..], heads[..], heap, lists, page, i);
      CutEffect(heap, page, i);
      pages[page] := pages[page].(order := i);
      heads[i] := page;
      pages[page] := pages[page].(isFree := true);
      up := page + Pow2(i);
      heap := Refree(Split(heap, page), page);
      lists := lists[i := [page] + lists[i]];
      assert heads[..] == old(heads[..])[i := page];
      assert pages[..] == old(pages[..])[page := Page(true, false, i, NULL)];
    }

    /** The unlinking in `buddy_list_remove`, once the walk stands at position `k` */
    method Unlink(o: nat, prev: int, page: nat, ghost moving: set<nat>, ghost k: nat)
      requires ValidBut(moving) && o < PAGE_MAX_DEPTH && k < |lists[o]|
      requires page == lists[o][k] && prev == if k == 0 then NULL else lists[o][k - 1]
      modifies this, pages, heads
      ensures page < PAGE_NUM && ValidBut(moving + {page}) && FreeAt(old(heap), page, o)
      ensures heap == Unfree(old(heap), page)
      ensures pages[page] == old(pages[page]).(next := NULL, isFree := false)
      ensures forall p :: 0 <= p < PAGE_NUM && !FreeAt(old(heap), p, o) ==> pages[p] == old(pages[p])
    {
      hide Tiled, Coalesced, Described, Lists, Chain, AllLists, Without, Unfree;
      ghost var list, was := lists[o], pages[..];
      UnlinkKeeps(was, heads[..], heap, lists, moving, o, k);
      ListWalk(was, heads[..], heap, lists, moving, o);
      var next := pages[page].next;
      if prev == NULL {
        heads[o] := next;
      } else {
        pages[prev] := pages[prev].(next := next);
      }
      pages[page] := pages[page].(next := NULL, isFree := false);
      heap := Unfree(heap, page);
      lists := lists[o := Without(list, k)];
      UnlinkedAt(was, list, k, prev);
      assert pages[..] == Unlinked(was, list, k);
      hide Unlinked;
      assert heads[..] == old(heads[..])[o := if k == 0 then next else old(heads[o])];
    }

    /** `buddy_list_remove` */
    method Remove(o: nat, index: nat, ghost moving: set<nat>) returns (page: int)
      requires ValidBut(moving) && o < PAGE_MAX_DEPTH
      modifies this, pages, heads
      ensures page == NULL ==> ValidBut(moving) && heap == old(heap) && !FreeAt(heap, index, o)
      ensures page != NULL ==>
                && page == index < PAGE_NUM && ValidBut(moving + {index}) && FreeAt(old(heap), index, o)
                && heap == Unfree(old(heap), index)
                && pages[index] == old(pages[index]).(next := NULL, isFree := false)
                && (forall p :: 0 <= p < PAGE_NUM && !FreeAt(old(heap), p, o) ==> pages[p] == old(pages[p]))
    {
      hide Tiled, Coalesced, Described, Lists, Chain;
      var prev := NULL;
      page := heads[o];
      ghost var k := 0;
      ghost var list := lists[o];
      ListWalk(pages[..], heads[..], heap, lists, moving, o);
      while page != NULL
        invariant 0 <= k <= |list|
        invariant page == (if k < |list| then list[k] else NULL)
        invariant prev == (if k == 0 then NULL else list[k - 1])
        invariant forall j :: 0 <= j < k ==> list[j] != index
        invariant unchanged(this) && unchanged(pages) && unchanged(heads)
        decreases |list| - k
      {
        if page == index {
          Unlink(o, prev, page, moving, k);
          return;
        }
        prev := page;
        page := pages[page].next;
        k := k + 1;
      }
    }

    /** `buddy_free` on a block that is not, or no longer, handed out */
    method FreeBlock(page: nat)
      requires page < PAGE_NUM && ValidBut({page}) && page in heap.order && pages[page].order == heap.order[page]
      modifies this, pages, heads
      ensures Valid() && heap.Live() == old(heap.Live()) - {page}
      decreases PAGE_MAX_ORDER - heap.order[page]
    {
      hide Coalesced, AllLists, Described, Tiled;
      var o := pages[page].order;
      assert page in {page};
      BlockInRange(heap, page);
      var bi := BuddyIndex(page, o);
      ghost var s0 := pages[..];
      MovingNotFree(s0, heads[..], heap, lists, {page}, page);
      pages[page] := pages[page].(isFirst := false);
      MovingChange(s0, heads[..], heap, lists, {page}, page, pages[page]);
      if o < PAGE_MAX_ORDER {
        BuddyProperties(page, o);
        FlagsTell(pages[..], heads[..], heap, lists, {page}, bi, o);
      }
      if o == PAGE_MAX_ORDER || !(pages[bi].isFree && pages[bi].order == o) {
        Push(o, page, {page});
        RefreeLive(old(heap), page);
        assert {page} - {page} == {};
      } else {
        var low := Join(page, bi, o);
        FreeBlock(low);
      }
    }

    /** The merging branch of `buddy_free`, up to the recursive call */
    method Join(page: nat, bi: nat, o: nat) returns (low: nat)
      requires page < PAGE_NUM && ValidBut({page}) && page in heap.order && heap.order[page] == o < PAGE_MAX_ORDER
      requires bi == BuddyIndex(page, o) && FreeAt(heap, bi, o) && BlockAt(page, o)
      requires pages[page].order == o && !pages[page].isFirst
      modifies this, pages, heads
      ensures low < PAGE_NUM && ValidBut({low}) && low in heap.order
      ensures heap.order[low] == pages[low].order == o + 1
      ensures heap.Live() - {low} == old(heap.Live()) - {page}
    {
      hide Coalesced, AllLists, Described, Tiled, BlockAt;
      assert page in {page};
      BuddyProperties(page, o);
      ghost var s0 := pages[..];
      pages[page] := pages[page].(isFree := false, next := NULL);
      MovingChange(s0, heads[..], heap, lists, {page}, page, pages[page]);
      UnfreeLive(heap, bi);
      var p := Remove(o, bi, {page});
      if p == NULL {
        assert false; // the kernel's "broken page" halt is never reached
      }
      assert {page} + {bi} == {page, bi};
      ghost var s1 := pages[..];
      FreeNotFirst(s0, old(heads[..]), old(heap), old(lists), {page}, bi);
      if ShiftRight(bi, o) % 2 == 1 {
        pages[p] := pages[p].(order := 0);
        low := page;
        MovingChange(s1, heads[..], heap, lists, {page, bi}, bi, pages[bi]);
      } else {
        pages[page] := pages[page].(order := 0);
        low := p;
        MovingChange(s1, heads[..], heap, lists, {page, bi}, page, pages[page]);
      }
      ghost var s2 := pages[..];
      pages[low] := pages[low].(order := pages[low].order + 1);
      MovingChange(s2, heads[..], heap, lists, {page, bi}, low, pages[low]);
      MergeKeeps(pages[..], heads[..], heap, lists, {page, bi}, low, o);
      MergeLive(heap, low, o);
      heap := Merge(heap, low, o);
      assert {page, bi} - {low + Pow2(o)} == {low};
    }

    /** `buddy_free` on a block that is handed out */
    method Free(page: nat)
      requires Valid() && page in heap.Live()
      modifies this, pages, heads
      ensures Valid() && heap.Live() == old(heap.Live()) - {page}
    {
      LiveMoves(pages[..], heads[..], heap, lists, page);
      FreeBlock(page);
    }

    /** `page_find_head`: the nearest flagged page at or below `index`, NULL if there is none */
    method FindHead(index: nat) returns (head: int)
      requires Valid() && index < PAGE_NUM
      ensures heap.owner[index] in heap.Live() ==> head == heap.owner[index]
      ensures head == NULL <==> forall i :: 0 <= i <= index ==> i !in heap.Live()
      ensures head != NULL ==>
                && 0 <= head <= index && head in heap.Live()
                && forall i :: head < i <= index ==> i !in heap.Live()
    {
      hide Coalesced, AllLists;
      head := index;
      while 0 <= head
        invariant -1 <= head <= index
        invariant forall i :: head < i <= index ==> i !in heap.Live()
      {
        if pages[head].isFirst {
          OwnerIsNearest(heap, index, head);
          return;
        }
        head := head - 1;
      }
      assert Covers(heap, heap.owner[index], index);
    }

    /** `buddy_alloc`; NULL where the kernel halts */
    method Alloc(size: nat) returns (page: int)
      requires Valid()
      modifies this, pages, heads
      ensures Valid()
      ensures page == NULL <==> OutOfMemory(old(heap), size)
      ensures page == NULL ==> heap == old(heap)
      ensures page != NULL ==>
                && 0 <= page < PAGE_NUM && pages[page].next == NULL
                && page in heap.Live() && page !in old(heap.Live())
                && heap.Live() == old(heap.Live())[page := heap.Live()[page]]
                && Fit(size, heap.Live()[page])
    {
      hide Tiled, Coalesced, AllLists, Described;
      var i := 0;
      page := NULL;
      while i < PAGE_MAX_DEPTH
        invariant 0 <= i <= PAGE_MAX_DEPTH
        invariant Valid() && heap == old(heap)
        invariant forall o :: 0 <= o < i ==> Pow2(o) * PAGE_SIZE < size
      {
        if Pow2(i) * PAGE_SIZE >= size {
          page := Pop(i);
          if page == NULL {
            page := PullBlock(i);
            FitsAbove(size, i);
          } else {
            UnfreeLive(old(heap), page);
            assert !NoneFree(old(heap), i) by { assert FreeAt(old(heap), page, i); }
          }
          break;
        }
        i := i + 1;
      }
      if i == PAGE_MAX_DEPTH || page == NULL {
        return NULL;
      }
      assert page in heap.Live() && heap.Live()[page] == i;
      ghost var before := pages[..];
      pages[page] := pages[page].(isFirst := true);
      MovingFirst(before, heads[..], heap, lists, page, pages[page]);
    }
  }

  /** No free block is large enough. */
  ghost predicate OutOfMemory(h: Heap, size: nat) {
    forall o :: 0 <= o <= PAGE_MAX_ORDER && Pow2(o) * PAGE_SIZE >= size ==> NoneFree(h, o)
  }

  /** `o` is the least order whose blocks hold `size` bytes. */
  ghost predicate Fit(size: nat, o: nat) {
    && o <= PAGE_MAX_ORDER && Pow2(o) * PAGE_SIZE >= size
    && forall x :: 0 <= x < o ==> Pow2(x) * PAGE_SIZE < size
  }

  /** A moving block is on no list, so its link, order and first-page flag may be rewritten. */
  lemma MovingChange(pages: seq<Page>, heads: seq<int>, h: Heap, lists: seq<seq<nat>>, moving: set<nat>,
                     q: nat, page: Page)
    requires Good(pages, heads, h, lists, moving) && q in moving && q < PAGE_NUM && !page.isFree
    ensures Good(pages[q := page], heads, h, lists, moving)
  {
    hide Tiled, Coalesced;
    forall o | 0 <= o < PAGE_MAX_DEPTH ensures Chain(pages[q := page], heads[o], lists[o]) {
      assert Chain(pages, heads[o], lists[o]) && Lists(h, lists[o], o);
      assert !FreeAt(h, q, o);
      LinkOther(pages, heads[o], lists[o], q, page);
    }
  }

  /** Setting PF_FIRST_PAGE on a moving block hands it out. */
  lemma MovingFirst(pages: seq<Page>, heads: seq<int>, h: Heap, lists: seq<seq<nat>>, q: nat, page: Page)
    requires Good(pages, heads, h, lists, {q}) && q < PAGE_NUM && page == pages[q].(isFirst := true)
    requires page.order == h.order[q]
    ensures Good(pages[q := page], heads, h, lists, {})
  {
    hide Tiled, Coalesced;
    assert q in {q};
    forall o | 0 <= o < PAGE_MAX_DEPTH ensures Chain(pages[q := page], heads[o], lists[o]) {
      assert Chain(pages, heads[o], lists[o]);
    }
  }

  /** What a walk along one list meets. */
  lemma ListWalk(pages: seq<Page>, heads: seq<int>, h: Heap, lists: seq<seq<nat>>, moving: set<nat>, o: nat)
    requires Good(pages, heads, h, lists, moving) && o < PAGE_MAX_DEPTH
    ensures heads[o] == (if |lists[o]| == 0 then NULL else lists[o][0])
    ensures forall k :: 0 <= k < |lists[o]| ==>
              && lists[o][k] < PAGE_NUM && pages[lists[o][k]].next == After(lists[o], k)
              && FreeAt(h, lists[o][k], o)
    ensures forall p :: FreeAt(h, p, o) ==> p in lists[o]
    ensures NoDup(lists[o])
  {
    hide Tiled, Coalesced, Described;
    assert Chain(pages, heads[o], lists[o]) && Lists(h, lists[o], o);
    Entries(pages, heads, h, lists, o);
  }

  lemma UnlinkedAt(pages: seq<Page>, list: seq<nat>, k: nat, prev: int)
    requires k < |list| && forall j :: 0 <= j < |list| ==> list[j] < |pages|
    requires NoDup(list) && prev == if k == 0 then NULL else list[k - 1]
    ensures var out := Unlinked(pages, list, k);
            && out[list[k]] == pages[list[k]].(next := NULL, isFree := false)
            && (prev != NULL ==> out[prev] == pages[prev].(next := pages[list[k]].next))
            && forall p :: 0 <= p < |pages| && p != prev && p != list[k] ==> out[p] == pages[p]
  {
  }

  lemma MovingNotFree(pages: seq<Page>, heads: seq<int>, h: Heap, lists: seq<seq<nat>>, moving: set<nat>, q: nat)
    requires Good(pages, heads, h, lists, moving) && q in moving && q < PAGE_NUM
    ensures !pages[q].isFree
  {
  }

  lemma BlockInRange(h: Heap, p: nat)
    requires Tiled(h) && p in h.order
    ensures BlockAt(p, h.order[p]) && p < PAGE_NUM
  {
  }

  /** What `buddy_is_free_buddy` reads from the flags and order is what the heap says. */
  lemma FlagsTell(pages: seq<Page>, heads: seq<int>, h: Heap, lists: seq<seq<nat>>, moving: set<nat>, p: nat, o: nat)
    requires Good(pages, heads, h, lists, moving) && p < PAGE_NUM
    ensures pages[p].isFree && pages[p].order == o <==> FreeAt(h, p, o)
  {
    assert p in h.free ==> p in h.order && p !in moving;
  }

  lemma FreeNotFirst(pages: seq<Page>, heads: seq<int>, h: Heap, lists: seq<seq<nat>>, moving: set<nat>, p: nat)
    requires Good(pages, heads, h, lists, moving) && p < PAGE_NUM && p in h.free
    ensures !pages[p].isFirst && pages[p].order == h.order[p]
  {
    assert p in h.order && p !in moving;
  }

  lemma OwnerIsNearest(h: Heap, index: nat, head: nat)
    requires Tiled(h) && index < PAGE_NUM && head <= index && head in h.Live()
    requires forall i :: head < i <= index ==> i !in h.Live()
    ensures h.owner[index] in h.Live() ==> h.owner[index] == head
  {
    var p := h.owner[index];
    assert Covers(h, p, index);
    if p in h.Live() && p < head {
      assert Covers(h, p, head) && Covers(h, head, head);
    }
  }

  /** A block that is handed out may start to move. */
  lemma LiveMoves(pages: seq<Page>, heads: seq<int>, h: Heap, lists: seq<seq<nat>>, p: nat)
    requires Good(pages, heads, h, lists, {}) && p in h.Live()
    ensures p < PAGE_NUM && Good(pages, heads, h, lists, {p}) && pages[p].order == h.order[p]
  {
    BlockInRange(h, p);
    hide Tiled, Coalesced, AllLists;
  }

  ghost function InitialPage(p: nat, linked: nat): (r: Page) {
    if p % 1024 == 0 && p / 1024 < linked
    then Page(true, false, PAGE_MAX_ORDER, if p / 1024 < 15 then p + 1024 else NULL)
    else Page(false, false, 0, NULL)
  }

  lemma NextInitialPage(i: nat)
    requires i < 16
    ensures InitialPage(i * 1024, i) == Page(false, false, 0, NULL)
    ensures InitialPage(i * 1024, i + 1) == Page(true, false, PAGE_MAX_ORDER, if i < 15 then (i + 1) * 1024 else NULL)
    ensures forall p: nat :: p != i * 1024 ==> InitialPage(p, i + 1) == InitialPage(p, i)
  {
  }

  lemma NoInitialPage(p: nat)
    ensures InitialPage(p, 0) == Page(false, false, 0, NULL)
  {
  }

  ghost function InitialLists(): (r: seq<seq<nat>>) {
    seq(PAGE_MAX_DEPTH, o => if o == PAGE_MAX_ORDER then InitialList() else [])
  }

  lemma InitialChain(pages: seq<Page>)
    requires |pages| == PAGE_NUM && forall p :: 0 <= p < PAGE_NUM ==> pages[p] == InitialPage(p, 16)
    ensures Chain(pages, 0, InitialList())
  {
  }

  lemma InitialDescribed(pages: seq<Page>)
    requires |pages| == PAGE_NUM && forall p :: 0 <= p < PAGE_NUM ==> pages[p] == InitialPage(p, 16)
    ensures Described(pages, Initial(), {})
  {
  }

  lemma InitialGood(pages: seq<Page>, heads: seq<int>)
    requires |pages| == PAGE_NUM && |heads| == PAGE_MAX_DEPTH
    requires forall p :: 0 <= p < PAGE_NUM ==> pages[p] == InitialPage(p, 16)
    requires forall o :: 0 <= o < PAGE_MAX_DEPTH ==> heads[o] == if o == PAGE_MAX_ORDER then 0 else NULL
    ensures Good(pages, heads, Initial(), InitialLists(), {})
  {
    InitialTiled();
    InitialChain(pages);
    InitialDescribed(pages);
    hide Tiled, Coalesced, Described, InitialPage;
    forall o | 0 <= o < PAGE_MAX_DEPTH ensures Lists(Initial(), InitialLists()[o], o) {
      forall p: nat ensures p in InitialLists()[o] <==> FreeAt(Initial(), p, o) { InitialListHoldsFree(p); }
    }
  }

  lemma FitsAbove(size: nat, i: nat)
    requires Pow2(i) * PAGE_SIZE >= size
    ensures forall o :: i <= o ==> Pow2(o) * PAGE_SIZE >= size
  {
    forall o | i <= o ensures Pow2(o) * PAGE_SIZE >= size { PowMono(i, o); }
  }

  lemma HeadEntry(pages: seq<Page>, heads: seq<int>, h: Heap, lists: seq<seq<nat>>, moving: set<nat>, o: nat)
    requires Good(pages, heads, h, lists, moving) && o < PAGE_MAX_DEPTH && heads[o] != NULL
    ensures |lists[o]| > 0 && lists[o][0] == heads[o]
    ensures !pages[heads[o]].isFirst && pages[heads[o]].order == o
  {
    assert Chain(pages, heads[o], lists[o]) && Lists(h, lists[o], o);
    assert lists[o][0] in lists[o];
    assert FreeAt(h, heads[o], o);
  }
}
