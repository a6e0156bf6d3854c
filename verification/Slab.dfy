/** Object caches over the buddy allocator. */
module Slab {
  import opened Collections
  import opened Pages
  import opened Heap
  import opened Buddy

  const HEADER_SIZE := 12
  const WORD_SIZE := 4
  const SLAB_HEADER_SIZE := HEADER_SIZE + WORD_SIZE
  const MAX_SLAB_NAME := 32
  const SLAB_FREE_END := 0xffffffff

  /** A slab header: the index `header->free` points to and the array of next indices. */
  datatype Slab = Slab(free: nat, next: seq<nat>)

  // ----- sizes

  /** `slab_max_object_num`: the most objects that fit behind the header, each with its word of the free array */
  function MaxObjects(slabSize: nat, objectSize: nat): (n: nat)
    requires slabSize >= SLAB_HEADER_SIZE
    ensures SLAB_HEADER_SIZE + n * (objectSize + WORD_SIZE) <= slabSize
    ensures SLAB_HEADER_SIZE + (n + 1) * (objectSize + WORD_SIZE) > slabSize
    ensures n <= slabSize
  {
    (slabSize - SLAB_HEADER_SIZE) / (objectSize + WORD_SIZE)
  }

  function SlabSize(order: nat): (r: nat)
    ensures r >= PAGE_SIZE
  {
    PAGE_SIZE * Pow2(order)
  }

  /** The largest object a slab of order `i` is used for, set up by `slab_cache_init`. */
  function Limit(i: nat): (r: int) {
    (PAGE_SIZE * Pow2(i)) / 8 - (SLAB_HEADER_SIZE / 8 + 1) - WORD_SIZE
  }

  /** An object within the limit of a slab order fits at least eight times, and an object of whole words
      that fits eight times is within the limit. */
  lemma AtLeastEight(i: nat, objectSize: nat)
    ensures objectSize <= Limit(i) ==> MaxObjects(SlabSize(i), objectSize) >= 8
    ensures objectSize % 4 == 0 ==> (objectSize <= Limit(i) <==> MaxObjects(SlabSize(i), objectSize) >= 8)
  {
    hide MaxObjects;
    var n, each := MaxObjects(SlabSize(i), objectSize), objectSize + WORD_SIZE;
    if n >= 8 {
      MulMono(8, n, each);
    } else {
      MulMono(n + 1, 8, each);
    }
  }

  /** The sizes `slab_cache_create` picks: the object size in whole words, and the least slab order that holds
      eight such objects. There is none, and no cache, if eight do not fit in the largest block. */
  method ChooseOrder(name: string, size: nat) returns (objectSize: nat, order: int)
    requires size < 0x1_0000_0000
    ensures order == -1 <==>
            || size == 0 || |name| >= 32
            || forall i :: 0 <= i <= PAGE_MAX_ORDER ==> MaxObjects(SlabSize(i), objectSize) < 8
    ensures order != -1 ==> 0 <= order <= PAGE_MAX_ORDER && MaxObjects(SlabSize(order), objectSize) >= 8
    ensures order != -1 ==> forall i :: 0 <= i < order ==> MaxObjects(SlabSize(i), objectSize) < 8
    ensures objectSize % 4 == 0
    ensures if size + 3 < 0x1_0000_0000 then size <= objectSize < size + 4 else objectSize == 0
  {
    hide MaxObjects;
    objectSize := (size + 3) % 0x1_0000_0000 / 4 * 4;
    if size == 0 || |name| >= MAX_SLAB_NAME {
      return objectSize, -1;
    }
    var i := 0;
    while i < PAGE_MAX_DEPTH
      invariant 0 <= i <= PAGE_MAX_DEPTH
      invariant forall j :: 0 <= j < i ==> MaxObjects(SlabSize(j), objectSize) < 8
    {
      AtLeastEight(i, objectSize);
      if objectSize <= Limit(i) {
        return objectSize, i;
      }
      i := i + 1;
    }
    return objectSize, -1;
  }

  // ----- the free chain of one slab

  /** `path` is the chain of free slots that starts at `header->free`; it ends at the
      sentinel slot `n`, and every slot off the chain is handed out and marked. */
  ghost predicate ChainOk(s: Slab, path: seq<nat>, n: nat) {
    && n < SLAB_FREE_END && |s.next| == n + 1
    && |path| >= 1 && path[0] == s.free && path[|path| - 1] == n
    && (forall k :: 0 <= k < |path| ==> path[k] <= n)
    && NoDup(path)
    && (forall k :: 0 <= k < |path| ==> s.next[path[k]] == Following(path, k))
    && (forall i :: 0 <= i <= n && i !in path ==> s.next[i] == SLAB_FREE_END)
  }

  ghost function Following(path: seq<nat>, k: nat): nat {
    if k + 1 < |path| then path[k + 1] else SLAB_FREE_END
  }

  /** The slots handed out. */
  ghost function Taken(path: seq<nat>, n: nat): set<nat> {
    set i | 0 <= i < n && i !in path
  }

  function TakeSlot(s: Slab): Slab
    requires s.free < |s.next|
  {
    Slab(s.next[s.free], s.next[s.free := SLAB_FREE_END])
  }

  function PutSlot(s: Slab, i: nat): Slab
    requires i < |s.next|
  {
    Slab(i, s.next[i := s.free])
  }

  /** A slab is full exactly when the word at `header->free` is the end mark. */
  lemma FullTest(s: Slab, path: seq<nat>, n: nat)
    requires ChainOk(s, path, n)
    ensures s.free <= n && (s.next[s.free] == SLAB_FREE_END <==> path == [n])
  {
    assert s.next[path[0]] == Following(path, 0);
  }

  lemma TakeRest(s: Slab, path: seq<nat>, n: nat)
    requires ChainOk(s, path, n) && |path| > 1
    ensures s.free < n && s.free !in path[1..] && s.next[s.free] == path[1]
    ensures path == [s.free] + path[1..] && NoDup(path[1..])
    ensures forall k :: 0 < k < |path| ==> path[k] != s.free
  {
    assert s.next[path[0]] == Following(path, 0);
    assert path[0] != path[|path| - 1];
  }

  lemma TakeNext(s: Slab, path: seq<nat>, n: nat, k: nat)
    requires ChainOk(s, path, n) && k + 1 < |path|
    ensures TakeSlot(s).next[path[1..][k]] == Following(path[1..], k)
  {
    TakeRest(s, path, n);
    assert s.next[path[k + 1]] == Following(path, k + 1) == Following(path[1..], k);
  }

  lemma TakeMarks(s: Slab, path: seq<nat>, n: nat, i: nat)
    requires ChainOk(s, path, n) && |path| > 1 && i <= n && i !in path[1..]
    ensures TakeSlot(s).next[i] == SLAB_FREE_END
  {
    assert i == s.free || i !in path by { assert path == [path[0]] + path[1..]; }
  }

  lemma TakeKeepsChain(s: Slab, path: seq<nat>, n: nat)
    requires ChainOk(s, path, n) && |path| > 1
    ensures ChainOk(TakeSlot(s), path[1..], n)
    ensures s.free < n && Taken(path[1..], n) == Taken(path, n) + {s.free} && s.free !in Taken(path, n)
  {
    hide NoDup;
    var rest := path[1..];
    TakeRest(s, path, n);
    forall k | 0 <= k < |rest| ensures TakeSlot(s).next[rest[k]] == Following(rest, k) {
      TakeNext(s, path, n, k);
    }
    forall i | 0 <= i <= n && i !in rest ensures TakeSlot(s).next[i] == SLAB_FREE_END {
      TakeMarks(s, path, n, i);
    }
    hide Following, TakeSlot;
    forall i: nat ensures i in path <==> i == s.free || i in rest {
      assert i in [s.free] + rest <==> i == s.free || i in rest;
    }
  }

  lemma PutNext(s: Slab, path: seq<nat>, n: nat, i: nat, j: nat)
    requires ChainOk(s, path, n) && i < n && i !in path && j <= n
    ensures j == i ==> PutSlot(s, i).next[j] == path[0]
    ensures j != i ==> PutSlot(s, i).next[j] == s.next[j]
  {
  }

  lemma PutKeepsChain(s: Slab, path: seq<nat>, n: nat, i: nat)
    requires ChainOk(s, path, n) && i in Taken(path, n)
    ensures ChainOk(PutSlot(s, i), [i] + path, n) && |path| >= 1
    ensures Taken([i] + path, n) == Taken(path, n) - {i}
  {
    hide NoDup;
    var t, more := PutSlot(s, i), [i] + path;
    Prepended(i, path);
    forall k | 0 <= k < |more| ensures t.next[more[k]] == Following(more, k) {
      PutNext(s, path, n, i, more[k]);
      if k > 0 {
        assert more[k] == path[k - 1] && path[k - 1] in path;
        assert Following(more, k) == Following(path, k - 1);
      }
    }
    forall j | 0 <= j <= n && j !in more ensures t.next[j] == SLAB_FREE_END {
      assert more[0] == i && j != i;
      assert forall k :: 0 <= k < |path| ==> path[k] == more[k + 1];
      assert j !in path;
      PutNext(s, path, n, i, j);
    }
  }

  // ----- addresses

  function ObjectAddress(p: nat, i: nat, n: nat, objectSize: nat): nat {
    PageAddress(p) + HEADER_SIZE + WORD_SIZE * (n + 1) + objectSize * i
  }

  lemma DivAtLeast(a: nat, d: nat, k: nat)
    requires d > 0 && k * d <= a
    ensures a / d >= k
  {
    MulLess(k, a / d + 1, d);
  }

  lemma MulLess(a: int, b: int, d: nat)
    requires a * d < b * d
    ensures a < b
  {
  }

  lemma MulMono(a: nat, b: nat, d: nat)
    requires a <= b
    ensures d * a <= d * b
  {
  }

  lemma ProductRearranged(n: nat, objectSize: nat)
    ensures n * (objectSize + WORD_SIZE) == objectSize * n + WORD_SIZE * n
  {
  }

  /** Every slot lies behind the header and the free array and before the end of the slab. */
  lemma ObjectInside(p: nat, i: nat, order: nat, objectSize: nat)
    requires i < MaxObjects(SlabSize(order), objectSize)
    ensures var n := MaxObjects(SlabSize(order), objectSize);
            var a := ObjectAddress(p, i, n, objectSize);
            && PageAddress(p) + SLAB_HEADER_SIZE + WORD_SIZE * n <= a
            && (i == 0 ==> a == PageAddress(p) + SLAB_HEADER_SIZE + WORD_SIZE * n)
            && a + objectSize <= PageAddress(p) + SlabSize(order)
  {
    var n := MaxObjects(SlabSize(order), objectSize);
    MulMono(i + 1, n, objectSize);
    ProductRearranged(n, objectSize);
  }

  lemma IndexFromAddress(i: nat, d: nat)
    requires d > 0
    ensures (d * i) / d == i
  {
    DivAtLeast(d * i, d, i);
    MulLess((d * i) / d, i + 1, d);
  }

  /** The page an object's address falls in belongs to the object's slab. */
  lemma ObjectPage(h: Heap, p: nat, i: nat, order: nat, objectSize: nat)
    requires Tiled(h) && p in h.order && h.order[p] == order && objectSize > 0
    requires i < MaxObjects(SlabSize(order), objectSize)
    ensures var a := ObjectAddress(p, i, MaxObjects(SlabSize(order), objectSize), objectSize);
            a >= PAGE_START && PageOf(a) < PAGE_NUM && h.owner[PageOf(a)] == p
  {
    ObjectInside(p, i, order, objectSize);
    BlockInRange(h, p);
    var a := ObjectAddress(p, i, MaxObjects(SlabSize(order), objectSize), objectSize);
    assert p <= PageOf(a) < p + Pow2(order);
    assert Covers(h, p, PageOf(a));
  }

  lemma BlocksApart(h: Heap, p: nat, q: nat)
    requires Tiled(h) && p in h.order && q in h.order && p < q
    ensures p + Pow2(h.order[p]) <= q
  {
    BlockInRange(h, q);
    assert Covers(h, q, q);
    assert !Covers(h, p, q);
  }

  /** Distinct live objects do not share a byte. */
  lemma ObjectsDisjoint(h: Heap, p: nat, i: nat, q: nat, j: nat, order: nat, objectSize: nat)
    requires Tiled(h) && p in h.order && q in h.order && h.order[p] == h.order[q] == order && objectSize > 0
    requires i < MaxObjects(SlabSize(order), objectSize) && j < MaxObjects(SlabSize(order), objectSize)
    requires p < q || (p == q && i < j)
    ensures var n := MaxObjects(SlabSize(order), objectSize);
            && ObjectAddress(p, i, n, objectSize) + objectSize <= ObjectAddress(q, j, n, objectSize)
            && (p == q && j == i + 1 ==>
                 ObjectAddress(p, i, n, objectSize) + objectSize == ObjectAddress(q, j, n, objectSize))
  {
    hide Tiled, MaxObjects, Pow2;
    if p == q {
      MulMono(i + 1, j, objectSize);
    } else {
      ObjectInside(p, i, order, objectSize);
      ObjectInside(q, j, order, objectSize);
      BlocksApart(h, p, q);
    }
  }

  lemma FitExact(order: nat, o: nat)
    requires order <= PAGE_MAX_ORDER && Fit(SlabSize(order), o)
    ensures o == order
  {
    if o < order { PowMono(o, order); }
  }

  // ----- the slabs of a cache

  /** The live objects, as pairs of slab and slot. */
  ghost function ObjectsOf(paths: map<nat, seq<nat>>, n: nat): set<(nat, nat)> {
    set p, i | p in paths && i in Taken(paths[p], n) :: (p, i)
  }

  /** Every slab is a block of its own, and its free chain is sound. */
  ghost predicate SlabsOk(slabs: map<nat, Slab>, paths: map<nat, seq<nat>>, live: map<nat, nat>, order: nat, n: nat) {
    && slabs.Keys == paths.Keys
    && (forall p <- slabs :: p in live && live[p] == order)
    && (forall p <- slabs :: ChainOk(slabs[p], paths[p], n))
  }

  /** Every slab is on one list, once: on `slabs_full` exactly when it has no free slot. */
  ghost predicate ListsOk(full: seq<nat>, partial: seq<nat>, paths: map<nat, seq<nat>>, n: nat) {
    && NoDup(full) && NoDup(partial)
    && (forall p :: p in full ==> p in paths && paths[p] == [n])
    && (forall p :: p in partial ==> p in paths && |paths[p]| > 1)
    && (forall p :: p in paths ==> p in full || p in partial)
  }

  ghost function Iota(n: nat): seq<nat> {
    seq(n + 1, i => i)
  }

  lemma NewChain(next: seq<nat>, n: nat)
    requires n < SLAB_FREE_END && |next| == n + 1 && next[n] == SLAB_FREE_END
    requires forall j :: 0 <= j < n ==> next[j] == j + 1
    ensures ChainOk(Slab(0, next), Iota(n), n) && Taken(Iota(n), n) == {}
  {
    forall i | 0 <= i <= n ensures i in Iota(n) { assert Iota(n)[i] == i; }
  }

  lemma NewSlabKeeps(slabs: map<nat, Slab>, paths: map<nat, seq<nat>>, live: map<nat, nat>, order: nat, n: nat,
                     full: seq<nat>, p: nat, s: Slab)
    requires SlabsOk(slabs, paths, live, order, n) && ListsOk(full, [], paths, n)
    requires p !in live && n > 0 && ChainOk(s, Iota(n), n) && Taken(Iota(n), n) == {}
    ensures SlabsOk(slabs[p := s], paths[p := Iota(n)], live[p := order], order, n)
    ensures ListsOk(full, [p], paths[p := Iota(n)], n)
    ensures ObjectsOf(paths[p := Iota(n)], n) == ObjectsOf(paths, n)
  {
    hide ChainOk;
  }

  lemma TakeObjects(paths: map<nat, seq<nat>>, n: nat, p: nat, path: seq<nat>, i: nat)
    requires p in paths && Taken(path, n) == Taken(paths[p], n) + {i} && i !in Taken(paths[p], n)
    ensures ObjectsOf(paths[p := path], n) == ObjectsOf(paths, n) + {(p, i)} && (p, i) !in ObjectsOf(paths, n)
  {
  }

  lemma PutObjects(paths: map<nat, seq<nat>>, n: nat, p: nat, path: seq<nat>, i: nat)
    requires p in paths && Taken(path, n) == Taken(paths[p], n) - {i}
    ensures ObjectsOf(paths[p := path], n) == ObjectsOf(paths, n) - {(p, i)}
  {
  }

  lemma SlabUpdate(slabs: map<nat, Slab>, paths: map<nat, seq<nat>>, live: map<nat, nat>, order: nat, n: nat,
                   p: nat, s: Slab, path: seq<nat>)
    requires SlabsOk(slabs, paths, live, order, n) && p in slabs && ChainOk(s, path, n)
    ensures SlabsOk(slabs[p := s], paths[p := path], live, order, n)
  {
    hide ChainOk;
  }

  /** A slab that keeps a free slot stays at the head of `slabs_partial`. */
  lemma ListsStay(full: seq<nat>, partial: seq<nat>, paths: map<nat, seq<nat>>, n: nat, p: nat, path: seq<nat>)
    requires ListsOk(full, partial, paths, n) && p in partial && |path| > 1
    ensures ListsOk(full, partial, paths[p := path], n)
  {
  }

  /** A slab whose last free slot is taken moves from `slabs_partial` to `slabs_full`. */
  lemma ListsFill(full: seq<nat>, partial: seq<nat>, paths: map<nat, seq<nat>>, n: nat)
    requires ListsOk(full, partial, paths, n) && |partial| > 0
    ensures ListsOk([partial[0]] + full, partial[1..], paths[partial[0] := [n]], n)
  {
    assert partial == [partial[0]] + partial[1..];
    assert partial[0] in partial;
  }

  /** A full slab that gets a slot back moves to the head of `slabs_partial`. */
  lemma ListsUnfill(full: seq<nat>, partial: seq<nat>, paths: map<nat, seq<nat>>, n: nat, k: nat, path: seq<nat>)
    requires ListsOk(full, partial, paths, n) && k < |full| && |path| > 1
    ensures ListsOk(Without(full, k), [full[k]] + partial, paths[full[k] := path], n)
  {
    hide NoDup;
    assert full[k] in full;
    WithoutRest(full, k);
    Prepended(full[k], partial);
  }

  lemma WithoutRest(full: seq<nat>, k: nat)
    requires NoDup(full) && k < |full|
    ensures NoDup(Without(full, k))
    ensures forall p :: p in Without(full, k) <==> p in full && p != full[k]
  {
    var rest := Without(full, k);
    WithoutFacts(full, k, MaxOf(full));
    forall p: nat ensures p in rest <==> p in full && p != full[k] {
      if p in full && p != full[k] {
        var j :| 0 <= j < |full| && full[j] == p;
        assert p == if j < k then rest[j] else rest[j - 1];
      }
    }
  }

  ghost function MaxOf(s: seq<nat>): (m: nat)
    ensures forall j :: 0 <= j < |s| ==> s[j] < m
  {
    if |s| == 0 then 0 else
      var m := MaxOf(s[1..]);
      if s[0] < m then m else s[0] + 1
  }

  lemma CountBound(order: nat, objectSize: nat)
    requires order <= PAGE_MAX_ORDER
    ensures MaxObjects(SlabSize(order), objectSize) < SLAB_FREE_END
  {
    PowMono(order, PAGE_MAX_ORDER);
    PowMax();
  }

  /** No block another owner holds is touched. */
  ghost predicate Kept(before: map<nat, nat>, after: map<nat, nat>) {
    forall p <- before :: p in after && after[p] == before[p]
  }

  class Cache {
    const buddy: Allocator
    const order: nat
    const objectSize: nat
    var full: seq<nat>
    var partial: seq<nat>
    var slabs: map<nat, Slab>
    ghost var paths: map<nat, seq<nat>>

    /** The number of objects per slab. */
    function Count(): nat {
      MaxObjects(SlabSize(order), objectSize)
    }

    ghost predicate Valid()
      reads this, buddy, buddy.pages, buddy.heads
    {
      && 0 < objectSize && Count() >= 8 && order <= PAGE_MAX_ORDER
      && buddy.Valid()
      && SlabsOk(slabs, paths, buddy.heap.Live(), order, Count())
      && ListsOk(full, partial, paths, Count())
    }

    ghost function Objects(): set<(nat, nat)>
      reads this
    {
      ObjectsOf(paths, Count())
    }

    /** `slab_cache_create`, after the choice of slab size */
    constructor (buddy: Allocator, order: nat, objectSize: nat)
      requires buddy.Valid() && order <= PAGE_MAX_ORDER
      requires objectSize > 0 && MaxObjects(SlabSize(order), objectSize) >= 8
      ensures Valid() && Objects() == {} && this.buddy == buddy
    {
      this.buddy, this.order, this.objectSize := buddy, order, objectSize;
      full, partial, slabs, paths := [], [], map[], map[];
    }

    /** `slab_new` and its link on `slabs_partial`; NULL where the kernel halts */
    method NewSlab() returns (p: int)
      requires Valid() && partial == []
      modifies this, buddy, buddy.pages, buddy.heads
      ensures Valid() && Objects() == old(Objects())
      ensures Kept(old(buddy.heap.Live()), buddy.heap.Live())
      ensures p == NULL <==> OutOfMemory(old(buddy.heap), SlabSize(order))
      ensures p == NULL ==> partial == [] && buddy.heap == old(buddy.heap)
      ensures p != NULL ==>
                && 0 <= p && partial == [p] && p !in old(buddy.heap.Live())
                && buddy.heap.Live() == old(buddy.heap.Live())[p := order]
    {
      hide Good, NoDup, ChainOk, SlabsOk, ListsOk, MaxObjects;
      p := buddy.Alloc(SlabSize(order));
      if p == NULL {
        return;
      }
      var n := Count();
      CountBound(order, objectSize);
      FitExact(order, buddy.heap.Live()[p]);
      var next := seq(n + 1, i => 0);
      var i := 0;
      while i < n
        invariant 0 <= i <= n && |next| == n + 1
        invariant forall j :: 0 <= j < i ==> next[j] == j + 1
      {
        next := next[i := i + 1];
        i := i + 1;
      }
      next := next[n := SLAB_FREE_END];
      NewChain(next, n);
      NewSlabKeeps(slabs, paths, old(buddy.heap.Live()), order, n, full, p, Slab(0, next));
      slabs, paths := slabs[p := Slab(0, next)], paths[p := Iota(n)];
      partial := [p];
    }

    /** `slab_cache_alloc`; the address is NULL where the kernel halts */
    method Alloc() returns (address: int, ghost slot: (nat, nat))
      requires Valid()
      modifies this, buddy, buddy.pages, buddy.heads
      ensures Valid() && Kept(old(buddy.heap.Live()), buddy.heap.Live())
      ensures address == NULL <==> old(partial) == [] && OutOfMemory(old(buddy.heap), SlabSize(order))
      ensures address == NULL ==> Objects() == old(Objects()) && buddy.heap == old(buddy.heap)
      ensures address != NULL ==>
                && Objects() == old(Objects()) + {slot} && slot !in old(Objects())
                && address == ObjectAddress(slot.0, slot.1, Count(), objectSize)
                && buddy.heap.Live() == (if old(partial) == [] then old(buddy.heap.Live())[slot.0 := order]
                                         else old(buddy.heap.Live()))
    {
      hide Good, SlabsOk, ListsOk, MaxObjects;
      slot := (0, 0);
      if partial == [] {
        var made := NewSlab();
        if made == NULL {
          return NULL, slot;
        }
      }
      address, slot := Take();
    }

    /** `slab_cache_alloc` once `slabs_partial` has a slab */
    method Take() returns (address: nat, ghost slot: (nat, nat))
      requires Valid() && |partial| > 0
      modifies this
      ensures Valid()
      ensures Objects() == old(Objects()) + {slot} && slot !in old(Objects()) && slot.0 == old(partial[0])
      ensures address == ObjectAddress(slot.0, slot.1, Count(), objectSize)
    {
      hide Good, NoDup, ChainOk, SlabsOk, ListsOk, MaxObjects, Taken, ObjectsOf;
      var p, n := partial[0], Count();
      HeadOfPartial(slabs, paths, buddy.heap.Live(), order, n, full, partial);
      var index := slabs[p].free;
      ghost var path := paths[p];
      slot := (p, index);
      TakeKeepsChain(slabs[p], path, n);
      SlabUpdate(slabs, paths, buddy.heap.Live(), order, n, p, TakeSlot(slabs[p]), path[1..]);
      TakeObjects(paths, n, p, path[1..], index);
      FullTest(TakeSlot(slabs[p]), path[1..], n);
      slabs := slabs[p := TakeSlot(slabs[p])];
      if slabs[p].next[slabs[p].free] == SLAB_FREE_END {
        ListsFill(full, partial, paths, n);
        partial, full := partial[1..], [p] + full;
      } else {
        ListsStay(full, partial, paths, n, p, path[1..]);
      }
      paths := paths[p := path[1..]];
      address := ObjectAddress(p, index, n, objectSize);
    }

    /** `slab_cache_free` of the object in `slot` */
    method Free(address: nat, ghost slot: (nat, nat))
      requires Valid() && slot in Objects()
      requires address == ObjectAddress(slot.0, slot.1, Count(), objectSize)
      modifies this
      ensures Valid() && Objects() == old(Objects()) - {slot}
    {
      hide NoDup, ChainOk, ListsOk, MaxObjects, Taken, AllLists, Described, Coalesced, Tiled;
      ghost var live := buddy.heap.Live();
      SlotOf(slabs, paths, live, order, Count(), slot.0, slot.1);
      ObjectPage(buddy.heap, slot.0, slot.1, order, objectSize);
      var p := buddy.FindHead(PageOf(address));
      assert p == slot.0;
      var n := Count();
      var index := (address - (PageAddress(p) + HEADER_SIZE + WORD_SIZE * (n + 1))) / objectSize;
      IndexFromAddress(slot.1, objectSize);
      Put(p, index);
    }

    /** `slab_cache_free` once the header and the index are known */
    method Put(p: nat, index: nat)
      requires Valid() && (p, index) in Objects()
      modifies this
      ensures Valid() && Objects() == old(Objects()) - {(p, index)}
    {
      hide Good, NoDup, ChainOk, SlabsOk, ListsOk, MaxObjects, Taken, ObjectsOf;
      var n := Count();
      ghost var live := buddy.heap.Live();
      SlotOf(slabs, paths, live, order, n, p, index);
      var nextIndex := slabs[p].free;
      ghost var path := paths[p];
      FullTest(slabs[p], path, n);
      PutKeepsChain(slabs[p], path, n, index);
      SlabUpdate(slabs, paths, live, order, n, p, PutSlot(slabs[p], index), [index] + path);
      PutObjects(paths, n, p, [index] + path, index);
      slabs := slabs[p := PutSlot(slabs[p], index)];
      PutLeaves(old(slabs)[p], path, n, index);
      if slabs[p].next[nextIndex] == SLAB_FREE_END {
        PartialHas(full, partial, paths, n, p);
        var k := Find(p);
        ListsUnfill(full, partial, paths, n, k, [index] + path);
        full, partial := full[..k] + full[k + 1..], [p] + partial;
      } else {
        PartialHas(full, partial, paths, n, p);
        ListsStay(full, partial, paths, n, p, [index] + path);
      }
      paths := paths[p := [index] + path];
    }

    /** The walk along `slabs_full`; the kernel's "broken slab" halt is never reached */
    method Find(p: nat) returns (k: nat)
      requires p in full
      ensures k < |full| && full[k] == p
    {
      k := 0;
      while full[k] != p
        invariant k < |full| && p !in full[..k]
        decreases |full| - k
      {
        k := k + 1;
      }
    }
  }

  lemma SlotOf(slabs: map<nat, Slab>, paths: map<nat, seq<nat>>, live: map<nat, nat>, order: nat, n: nat,
               p: nat, i: nat)
    requires SlabsOk(slabs, paths, live, order, n) && (p, i) in ObjectsOf(paths, n)
    ensures p in slabs && p in paths && p in live && live[p] == order
    ensures i in Taken(paths[p], n) && i < n && ChainOk(slabs[p], paths[p], n)
    ensures |slabs[p].next| == n + 1 && slabs[p].free <= n
  {
    hide Taken;
    FullTest(slabs[p], paths[p], n);
    assert i < n by { InTaken(paths[p], n, i); }
  }

  lemma InTaken(path: seq<nat>, n: nat, i: nat)
    requires i in Taken(path, n)
    ensures i < n && i !in path
  {
  }

  lemma PutLeaves(s: Slab, path: seq<nat>, n: nat, i: nat)
    requires ChainOk(s, path, n) && i in Taken(path, n)
    ensures PutSlot(s, i).next[s.free] == s.next[s.free]
  {
    assert path[0] in path;
  }

  lemma PartialHas(full: seq<nat>, partial: seq<nat>, paths: map<nat, seq<nat>>, n: nat, p: nat)
    requires ListsOk(full, partial, paths, n) && p in paths
    ensures paths[p] != [n] ==> p in partial
    ensures paths[p] == [n] ==> p in full
  {
  }

  lemma HeadOfPartial(slabs: map<nat, Slab>, paths: map<nat, seq<nat>>, live: map<nat, nat>, order: nat, n: nat,
                      full: seq<nat>, partial: seq<nat>)
    requires SlabsOk(slabs, paths, live, order, n) && ListsOk(full, partial, paths, n) && |partial| > 0
    ensures var p := partial[0];
            p in partial && p in slabs && p in paths && |paths[p]| > 1 && ChainOk(slabs[p], paths[p], n)
            && slabs[p].free < |slabs[p].next|
  {
    assert partial[0] in partial;
  }
}
