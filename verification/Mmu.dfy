/** Address spaces: translation tables and frames taken from the page allocator. */
module Mmu {
  import opened Collections
  import opened Pages
  import opened Heap
  import opened Buddy
  import opened Blocks
  import opened PageTable

  type LiveMap = map<nat, nat>

  const L1_SIZE := 0x4000
  const L2_SIZE := 0x400

  /** The tables of 0x92 sections and of the vectors, and the page of the vectors. */
  const KERNEL_PAGES := 148
  const SPACE_PAGES := KERNEL_PAGES + 4

  /** A space: the pages it took, newest first, and the first of its first-level table. */
  datatype Mapping = Mapping(pid: int, pages: seq<nat>, table: nat)

  // ----- owning pages

  /** A space owns live blocks: four pages for the first level, single pages for all else. */
  ghost predicate Owned(live: LiveMap, m: Mapping, v: View) {
    && NoDup(m.pages) && m.table in m.pages
    && (forall p :: p in m.pages ==> p in live && live[p] == if p == m.table then 2 else 0)
    && (forall i <- v.tables :: v.tables[i] in m.pages && v.tables[i] != m.table)
    && (forall f <- v.frames :: f in m.pages && f != m.table)
  }

  ghost predicate SpaceHeld(mem: Memory, live: LiveMap, m: Mapping, v: View) {
    SpaceOk(mem, m.table, v) && Owned(live, m, v)
  }

  /** Two spaces share no block. */
  ghost predicate Separate(m: Mapping, n: Mapping) {
    forall p :: p in m.pages ==> p !in n.pages
  }

  /** A page of a space, the inner pages of its first level included. */
  ghost predicate InSpan(m: Mapping, p: nat) {
    p in m.pages || m.table <= p < m.table + 4
  }

  lemma PowTwo()
    ensures Pow2(2) == 4 && Pow2(0) == 1
  {
  }

  /** Distinct live blocks share no page. */
  lemma LiveBlocksApart(h: Heap, p: nat, q: nat, i: nat)
    requires Tiled(h) && p in h.Live() && q in h.Live() && p != q && i < PAGE_NUM
    ensures !(p <= i < p + Pow2(h.Live()[p]) && q <= i < q + Pow2(h.Live()[q]))
  {
    if p <= i < p + Pow2(h.Live()[p]) && q <= i < q + Pow2(h.Live()[q]) {
      assert Covers(h, p, i) && Covers(h, q, i);
    }
  }

  /** A live block other than a space's own lies outside the whole of the space. */
  lemma OutsideSpan(h: Heap, m: Mapping, v: View, p: nat)
    requires Tiled(h) && Owned(h.Live(), m, v) && p in h.Live() && p !in m.pages
    ensures p < PAGE_NUM && !InSpan(m, p) && m.table + 4 <= PAGE_NUM
    ensures h.Live()[p] == 2 ==> p + 4 <= PAGE_NUM && forall i :: p <= i < p + 4 ==> !InSpan(m, i)
  {
    PowTwo();
    BlockInRange(h, p);
    BlockInRange(h, m.table);
    LiveBlocksApart(h, p, m.table, p);
    if h.Live()[p] == 2 {
      forall i | p <= i < p + 4 ensures !InSpan(m, i) {
        LiveBlocksApart(h, p, m.table, i);
        if i in m.pages { LiveBlocksApart(h, p, i, i); }
      }
    }
  }

  /** The single pages of a space lie outside its first level. */
  lemma InsideSpan(h: Heap, m: Mapping, v: View, p: nat)
    requires Tiled(h) && Owned(h.Live(), m, v) && p in m.pages && p != m.table
    ensures p < PAGE_NUM && !(m.table <= p < m.table + 4)
  {
    PowTwo();
    BlockInRange(h, p);
    LiveBlocksApart(h, p, m.table, p);
  }

  lemma SpansApart(h: Heap, m: Mapping, v: View, n: Mapping, w: View, p: nat)
    requires Tiled(h) && Owned(h.Live(), m, v) && Owned(h.Live(), n, w) && Separate(m, n) && InSpan(m, p)
    ensures !InSpan(n, p)
  {
    if p in m.pages {
      OutsideSpan(h, n, w, p);
    } else {
      OutsideSpan(h, n, w, m.table);
    }
  }

  // ----- what the steps on one space keep

  /** A space only took blocks that were not live, and nobody else took or gave any. */
  ghost predicate Took(live: LiveMap, now: LiveMap, m: Mapping, n: Mapping) {
    && n.pid == m.pid && n.table == m.table
    && (forall p :: p in m.pages ==> p in n.pages)
    && (forall p :: p in n.pages ==> p in m.pages || p !in live)
    && (forall p :: p in now <==> p in live || p in n.pages)
    && (forall p :: p in live ==> now[p] == live[p])
  }

  /** Memory changed inside a space only. */
  ghost predicate Inside(mem: Memory, now: Memory, n: Mapping) {
    |now| == |mem| && forall p :: 0 <= p < |mem| && !InSpan(n, p) ==> now[p] == mem[p]
  }

  ghost predicate Progress(mem: Memory, live: LiveMap, m: Mapping, mem': Memory, live': LiveMap, m': Mapping) {
    Took(live, live', m, m') && Inside(mem, mem', m')
  }

  lemma ProgressTwice(mem: Memory, live: LiveMap, m: Mapping,
                      mem': Memory, live': LiveMap, m': Mapping,
                      mem'': Memory, live'': LiveMap, m'': Mapping)
    requires Progress(mem, live, m, mem', live', m') && Progress(mem', live', m', mem'', live'', m'')
    ensures Progress(mem, live, m, mem'', live'', m'')
  {
    assert forall p :: InSpan(m', p) ==> InSpan(m'', p);
  }

  /** Steps on one space leave every other space as it was. */
  lemma OthersKept(mem: Memory, live: LiveMap, m: Mapping, mem': Memory, h: Heap, m': Mapping, v': View, n: Mapping,
                   w: View)
    requires Progress(mem, live, m, mem', h.Live(), m') && Tiled(h) && Owned(h.Live(), m', v')
    requires SpaceHeld(mem, live, n, w) && Separate(m, n)
    ensures SpaceHeld(mem', h.Live(), n, w) && Separate(m', n)
    ensures forall va: Word :: Translate(mem', n.table, va) == Translate(mem, n.table, va)
  {
    hide SpaceOk, Translate, Tiled;
    assert Owned(h.Live(), n, w) && Separate(m', n);
    forall p | InSpan(n, p) ensures !InSpan(m', p) {
      if InSpan(m', p) { SpansApart(h, m', v', n, w, p); }
    }
    assert SameTables(mem, mem', n.table, w);
    SpaceFrame(mem, mem', n.table, w);
  }

  // ----- all spaces

  ghost predicate AllHeld(mem: Memory, live: LiveMap, mappings: seq<Mapping>, views: seq<View>) {
    && |mem| == PAGE_NUM && |views| == |mappings|
    && (forall k :: 0 <= k < |mappings| ==> SpaceHeld(mem, live, mappings[k], views[k]))
    && (forall j, k :: 0 <= j < k < |mappings| ==> Other(mappings[j], mappings[k]))
  }

  ghost predicate Other(m: Mapping, n: Mapping) {
    m.pid != n.pid && Separate(m, n) && Separate(n, m)
  }

  /** Translations of every space but `pid`'s are as they were. */
  ghost predicate OthersSame(mem: Memory, now: Memory, mappings: seq<Mapping>, pid: int) {
    forall m: Mapping, va: Word ::
      m in mappings && m.pid != pid ==> Translate(now, m.table, va) == Translate(mem, m.table, va)
  }

  /**
   * What user code of one process can reach is a frame of its own: no other
   * process reaches it, and it holds no table of any process.
   */
  lemma Isolated(mem: Memory, h: Heap, mappings: seq<Mapping>, views: seq<View>, j: nat, k: nat, va: Word, vb: Word)
    requires AllHeld(mem, h.Live(), mappings, views) && Tiled(h) && j < |mappings| && k < |mappings| && j != k
    ensures var s, t := Translate(mem, mappings[j].table, va), Translate(mem, mappings[k].table, vb);
            && (s.Mapped? && s.full && t.Mapped? && t.full ==> s.frame != t.frame)
            && (s.Mapped? && s.full ==>
                  && s.frame >= FIRST_FRAME && s.frame - FIRST_FRAME in views[j].frames
                  && !InSpan(mappings[k], s.frame - FIRST_FRAME)
                  && !(mappings[j].table <= s.frame - FIRST_FRAME < mappings[j].table + 4)
                  && s.frame - FIRST_FRAME !in views[j].tables.Values)
  {
    hide Translate, SpaceOk, Tiled;
    FullIsOwn(mem, mappings[j].table, views[j], va);
    FullIsOwn(mem, mappings[k].table, views[k], vb);
    var s := Translate(mem, mappings[j].table, va);
    assert Other(if j < k then mappings[j] else mappings[k], if j < k then mappings[k] else mappings[j]);
    if s.Mapped? && s.full {
      SpansApart(h, mappings[j], views[j], mappings[k], views[k], s.frame - FIRST_FRAME);
    }
  }

  /** First-level tables lie on 16 KB boundaries, as the hardware wants them. */
  lemma TableAligned(mem: Memory, h: Heap, mappings: seq<Mapping>, views: seq<View>, k: nat)
    requires AllHeld(mem, h.Live(), mappings, views) && Tiled(h) && k < |mappings|
    ensures PageAddress(mappings[k].table) % L1_SIZE == 0
  {
    var p := mappings[k].table;
    assert h.Live()[p] == 2;
    BlockInRange(h, p);
    assert Aligned(p, 2) && Aligned(p / 2, 1) && Aligned(p / 2 / 2, 0);
    assert p == 4 * (p / 2 / 2);
    assert PageAddress(p) == L1_SIZE * (0x19400 + p / 2 / 2);
  }

  /** One space may change as long as it keeps to itself. */
  lemma AllKept(mem: Memory, live: LiveMap, mem': Memory, h: Heap, mappings: seq<Mapping>, views: seq<View>, k: nat,
                m': Mapping, v': View)
    requires AllHeld(mem, live, mappings, views) && k < |mappings| && Tiled(h)
    requires Progress(mem, live, mappings[k], mem', h.Live(), m') && SpaceHeld(mem', h.Live(), m', v')
    ensures AllHeld(mem', h.Live(), mappings[k := m'], views[k := v'])
    ensures OthersSame(mem, mem', mappings, mappings[k].pid)
  {
    hide Progress, SpaceHeld, Tiled, Translate;
    var m := mappings[k];
    forall j | 0 <= j < |mappings| && j != k
      ensures SpaceHeld(mem', h.Live(), mappings[j], views[j])
      ensures Separate(m', mappings[j]) && Separate(mappings[j], m') && mappings[j].pid != m'.pid
      ensures forall va: Word :: Translate(mem', mappings[j].table, va) == Translate(mem, mappings[j].table, va)
    {
      assert Other(if j < k then mappings[j] else m, if j < k then m else mappings[j]);
      KeptOne(mem, live, m, mem', h, m', v', mappings[j], views[j]);
    }
    assert |mem'| == |mem| by {
      assert Progress(mem, live, m, mem', h.Live(), m');
      SizeKept(mem, live, m, mem', h.Live(), m');
    }
  }

  lemma SizeKept(mem: Memory, live: LiveMap, m: Mapping, mem': Memory, live': LiveMap, m': Mapping)
    requires Progress(mem, live, m, mem', live', m')
    ensures |mem'| == |mem| && m'.pid == m.pid && m'.table == m.table
  {
  }

  lemma KeptOne(mem: Memory, live: LiveMap, m: Mapping, mem': Memory, h: Heap, m': Mapping, v': View, n: Mapping,
                w: View)
    requires Progress(mem, live, m, mem', h.Live(), m') && Tiled(h) && SpaceHeld(mem', h.Live(), m', v')
    requires SpaceHeld(mem, live, n, w) && Separate(m, n) && m.pid != n.pid
    ensures SpaceHeld(mem', h.Live(), n, w) && Separate(m', n) && Separate(n, m') && n.pid != m'.pid
            && n.table + 4 <= |mem| == |mem'|
    ensures forall va: Word :: Translate(mem', n.table, va) == Translate(mem, n.table, va)
  {
    OthersKept(mem, live, m, mem', h, m', v', n, w);
  }

  // ----- how many pages are left

  ghost predicate Covered(live: LiveMap, i: nat) {
    exists p :: p in live && p <= i < p + Pow2(live[p])
  }

  /** The pages no live block covers. */
  ghost function FreePages(live: LiveMap): set<nat> {
    set i | 0 <= i < PAGE_NUM && !Covered(live, i)
  }

  ghost function Room(live: LiveMap): nat {
    |FreePages(live)|
  }

  lemma FreePage(h: Heap, i: nat)
    requires Tiled(h) && i < PAGE_NUM
    ensures i in FreePages(h.Live()) <==> h.owner[i] in h.free
  {
    var p := h.owner[i];
    assert Covers(h, p, i);
    if p !in h.free {
      assert p in h.Live() && p <= i < p + Pow2(h.Live()[p]);
    }
    forall q | q in h.Live() && q <= i < q + Pow2(h.Live()[q]) ensures q == p {
      assert Covers(h, q, i);
    }
  }

  /** A request for a page fails exactly when no page is left. */
  lemma OutOfPages(h: Heap, size: nat)
    requires Tiled(h) && size <= PAGE_SIZE
    ensures OutOfMemory(h, size) <==> Room(h.Live()) == 0
  {
    if OutOfMemory(h, size) {
      forall i | 0 <= i < PAGE_NUM ensures i !in FreePages(h.Live()) {
        FreePage(h, i);
        var p := h.owner[i];
        if p in h.free {
          BlockInRange(h, p);
          assert Pow2(h.order[p]) * PAGE_SIZE >= size && FreeAt(h, p, h.order[p]);
        }
      }
      assert FreePages(h.Live()) == {};
    }
    if !OutOfMemory(h, size) {
      var o: nat :| o <= PAGE_MAX_ORDER && !NoneFree(h, o);
      var p :| FreeAt(h, p, o);
      BlockInRange(h, p);
      FreePage(h, p);
      assert Covers(h, p, p);
      assert p in FreePages(h.Live());
    }
  }

  lemma PageLeft(live: LiveMap, h: Heap, p: nat, o: nat, i: nat)
    requires Tiled(h) && p !in live && h.Live() == live[p := o] && i < PAGE_NUM
    ensures Covered(h.Live(), i) <==> Covered(live, i) || p <= i < p + Pow2(o)
    ensures !(Covered(live, i) && p <= i < p + Pow2(o))
  {
    hide Tiled, Pow2;
    var now := h.Live();
    assert p in now && now[p] == o;
    if Covered(live, i) {
      var q :| q in live && q <= i < q + Pow2(live[q]);
      assert q in now && now[q] == live[q];
      LiveBlocksApart(h, p, q, i);
    }
    if Covered(now, i) && !Covered(live, i) {
      var q :| q in now && q <= i < q + Pow2(now[q]);
      assert q !in live;
    }
  }

  lemma PagesLeft(live: LiveMap, h: Heap, p: nat, o: nat, taken: set<nat>)
    requires Tiled(h) && p !in live && h.Live() == live[p := o] && p + Pow2(o) <= PAGE_NUM
    requires forall i :: i in taken <==> p <= i < p + Pow2(o)
    ensures FreePages(live) == FreePages(h.Live()) + taken && FreePages(h.Live()) !! taken
  {
    hide Tiled, Covered, Pow2;
    forall i | 0 <= i < PAGE_NUM
      ensures (!Covered(live, i) <==> !Covered(h.Live(), i) || i in taken) && (i in taken ==> Covered(h.Live(), i))
    {
      PageLeft(live, h, p, o, i);
    }
  }

  lemma FourMore(a: set<nat>, p: nat)
    requires a !! {p, p + 1, p + 2, p + 3}
    ensures |a + {p, p + 1, p + 2, p + 3}| == |a| + 4
  {
    assert a + {p, p + 1, p + 2, p + 3} == a + {p} + {p + 1} + {p + 2} + {p + 3};
  }

  /** A page handed out is one page fewer, a first-level table four. */
  lemma RoomTaken(live: LiveMap, h: Heap, p: nat, o: nat)
    requires Tiled(h) && p !in live && h.Live() == live[p := o] && (o == 0 || o == 2)
    ensures Room(live) == Room(h.Live()) + (if o == 0 then 1 else 4)
  {
    hide Tiled, FreePages, Aligned;
    PowTwo();
    assert p in h.Live() && h.Live()[p] == o;
    BlockInRange(h, p);
    if o == 0 {
      PagesLeft(live, h, p, o, {p});
    } else {
      PagesLeft(live, h, p, o, {p, p + 1, p + 2, p + 3});
      FourMore(FreePages(h.Live()), p);
    }
  }

  // ----- taking a page

  lemma OrderOf(size: nat, o: nat)
    requires Fit(size, o)
    ensures size <= PAGE_SIZE ==> o == 0
    ensures size == L1_SIZE ==> o == 2
  {
    PowTwo();
    if o > 0 {
      assert Pow2(0) * PAGE_SIZE < size;
    }
    if size == L1_SIZE {
      assert Pow2(1) == 2;
    }
  }

  ghost function WithPage(m: Mapping, p: nat): (n: Mapping) {
    m.(pages := [p] + m.pages)
  }

  lemma PageTaken(live: LiveMap, h: Heap, m: Mapping, v: View, p: nat)
    requires Owned(live, m, v) && p !in live && h.Live() == live[p := 0] && Tiled(h)
    ensures Owned(h.Live(), WithPage(m, p), v) && Took(live, h.Live(), m, WithPage(m, p))
    ensures p < PAGE_NUM && !(m.table <= p < m.table + 4) && p !in v.tables.Values && p !in v.frames && p !in m.pages
  {
    hide Tiled;
    assert p !in m.pages;
    var n := WithPage(m, p);
    assert forall q :: q in n.pages <==> q == p || q in m.pages;
    assert NoDup(n.pages) by {
      assert forall j :: 0 < j < |n.pages| ==> n.pages[j] == m.pages[j - 1];
    }
    OutsideSpan(h, m, v, p);
  }

  /** A page whose first quarter is a cleared second-level table. */
  function Cleared(words: PageWords): (r: PageWords)
    ensures forall j :: 0 <= j < L2_ENTRY_NUM ==> r[j] == 0
  {
    Zeros()[..L2_ENTRY_NUM] + words[L2_ENTRY_NUM..]
  }

  ghost predicate SameWalks(mem: Memory, now: Memory, table: nat) {
    forall va: Word :: Translate(now, table, va) == Translate(mem, table, va)
  }

  // ----- mapping pages

  /** `GET_PAGE_SIZE`: the least number of pages that hold `size` bytes; the sum wraps in 32 bits. */
  function PageCount(size: Word): (n: nat)
    ensures size + 0xfff < 0x1_0000_0000 ==> size <= 0x1000 * n < size + 0x1000
    ensures size + 0xfff >= 0x1_0000_0000 ==> n == 0
  {
    (size + 0xfff) % 0x1_0000_0000 / 0x1000
  }

  /** The descriptor of a frame open to user code. */
  function FullEntry(p: nat): (e: Word)
    requires p < PAGE_NUM
  {
    PageAddress(p) + FULL
  }

  /** The descriptor of a page the kernel alone may touch. */
  function PrivilegedEntry(frame: nat): (e: Word)
    requires frame < 0x10_0000
  {
    0x1000 * frame + PRIVILEGED
  }

  lemma FullEntryIs(p: nat, frames: set<nat>)
    requires p < PAGE_NUM && p in frames
    ensures Entry(FullEntry(p), frames) && Small(FullEntry(p)) == Mapped(FIRST_FRAME + p, true)
  {
    assert FullEntry(p) == 0x1000 * (FIRST_FRAME + p) + FULL;
    assert FullEntry(p) - PAGE_START == 0x1000 * p + FULL;
  }

  lemma PrivilegedEntryIs(frame: nat, frames: set<nat>)
    requires frame < 0x10_0000
    ensures Entry(PrivilegedEntry(frame), frames) && Small(PrivilegedEntry(frame)) == Mapped(frame, false)
  {
  }

  /** The pages of section `i` from slot `lo` on lead to the frames `got`, and nothing else changed. */
  ghost predicate MapsTo(mem: Memory, now: Memory, table: nat, i: nat, lo: nat, got: seq<nat>) {
    forall va: Word ::
      Translate(now, table, va) ==
      if Section(va) == i && lo <= Slot(va) < lo + |got| then Mapped(FIRST_FRAME + got[Slot(va) - lo], true)
      else Translate(mem, table, va)
  }

  /** The address of the page an address lies in. */
  function PageBase(addr: Word): Word {
    addr - addr % 0x1000
  }

  /** The addresses of `count` pages from that of `addr` on, in one section. */
  lemma PagesInSection(addr: Word, va: Word, count: nat)
    requires Slot(addr) + count <= L2_ENTRY_NUM
    ensures Section(va) == Section(addr) && Slot(addr) <= Slot(va) < Slot(addr) + count <==>
            PageBase(addr) <= va < PageBase(addr) + 0x1000 * count
    ensures PageBase(addr) <= va < PageBase(addr) + 0x1000 * count ==>
            Slot(va) - Slot(addr) == (va - PageBase(addr)) / 0x1000
  {
    var p, q := va / 0x1000, addr / 0x1000;
    assert Section(va) == p / 0x100 && Section(addr) == q / 0x100;
    assert PageBase(addr) == 0x1000 * q;
  }

  /** A range of whole pages ends within its section exactly when its bytes do. */
  lemma EndInSection(addr: Word, size: Word)
    requires size + 0xfff < 0x1_0000_0000
    ensures Slot(addr) + PageCount(size) > L2_ENTRY_NUM <==> PageBase(addr) % 0x10_0000 + size > 0x10_0000
  {
    hide PageCount;
    assert PageBase(addr) == 0x1000 * (addr / 0x1000);
    assert PageBase(addr) % 0x10_0000 == 0x1000 * Slot(addr);
  }

  /** From the page of `addr` on, addresses lead into the frames `got` in turn, open to user code; every other
      address leads where it led before. */
  ghost predicate RangeLeads(mem: Memory, now: Memory, table: nat, addr: Word, got: seq<nat>) {
    forall va: Word ::
      Translate(now, table, va) ==
      if PageBase(addr) <= va < PageBase(addr) + 0x1000 * |got| then
        Mapped(FIRST_FRAME + got[(va - PageBase(addr)) / 0x1000], true)
      else Translate(mem, table, va)
  }

  lemma MapsRange(mem: Memory, now: Memory, table: nat, addr: Word, got: seq<nat>)
    requires MapsTo(mem, now, table, Section(addr), Slot(addr), got) && Slot(addr) + |got| <= L2_ENTRY_NUM
    ensures RangeLeads(mem, now, table, addr, got)
  {
    hide Translate, Section, Slot, PageBase;
    forall va: Word
      ensures Translate(now, table, va) ==
              if PageBase(addr) <= va < PageBase(addr) + 0x1000 * |got| then
                Mapped(FIRST_FRAME + got[(va - PageBase(addr)) / 0x1000], true)
              else Translate(mem, table, va)
    {
      PagesInSection(addr, va, |got|);
    }
  }

  /** From the page of `addr` on, the addresses of `count` pages lead to themselves, for the kernel alone; every
      other address leads where it led before. */
  ghost predicate RangeStraight(mem: Memory, now: Memory, table: nat, addr: Word, count: nat) {
    forall va: Word ::
      Translate(now, table, va) ==
      if PageBase(addr) <= va < PageBase(addr) + 0x1000 * count then Mapped(va / 0x1000, false)
      else Translate(mem, table, va)
  }

  lemma StraightRange(mem: Memory, now: Memory, table: nat, addr: Word, count: nat)
    requires Straight(mem, now, table, Section(addr), Slot(addr), Slot(addr) + count)
    requires Slot(addr) + count <= L2_ENTRY_NUM
    ensures RangeStraight(mem, now, table, addr, count)
  {
    hide Translate, Section, Slot, PageBase;
    forall va: Word
      ensures Translate(now, table, va) ==
              if PageBase(addr) <= va < PageBase(addr) + 0x1000 * count then Mapped(va / 0x1000, false)
              else Translate(mem, table, va)
    {
      PagesInSection(addr, va, count);
    }
  }

  /** One page leads to frame `p`, and nothing else changed. */
  ghost predicate SlotLeads(mem: Memory, now: Memory, table: nat, i: nat, j: nat, p: nat) {
    forall va: Word ::
      Translate(now, table, va) ==
      if Section(va) == i && Slot(va) == j then Mapped(FIRST_FRAME + p, true) else Translate(mem, table, va)
  }

  lemma MapsMore(mem: Memory, mid: Memory, now: Memory, table: nat, i: nat, lo: nat, got: seq<nat>, p: nat)
    requires MapsTo(mem, mid, table, i, lo, got) && SlotLeads(mid, now, table, i, lo + |got|, p)
    ensures MapsTo(mem, now, table, i, lo, got + [p])
  {
    hide Translate, Section, Slot;
  }

  /** The pages it takes to have a second-level table for section `i`. */
  ghost function TableCost(v: View, i: nat): nat {
    if i in v.tables then 0 else 1
  }

  datatype Status = Done | Refused | Halted

  class Spaces {
    const buddy: Allocator
    var mem: Memory
    var mappings: seq<Mapping>
    /** The process whose tables the hardware uses. */
    var current: int
    ghost var views: seq<View>

    ghost predicate Valid()
      reads this, buddy, buddy.pages, buddy.heads
    {
      buddy.Valid() && AllHeld(mem, buddy.heap.Live(), mappings, views)
    }

    /** The page allocator and one space are in order. */
    ghost predicate Working(m: Mapping, v: View)
      reads this, buddy, buddy.pages, buddy.heads
    {
      buddy.Valid() && |mem| == PAGE_NUM && SpaceHeld(mem, buddy.heap.Live(), m, v)
    }

    /** `mmu_init` */
    constructor (buddy: Allocator, memory: Memory)
      requires buddy.Valid() && |memory| == PAGE_NUM
      ensures Valid() && this.buddy == buddy && mappings == [] && mem == memory
    {
      this.buddy, mem, mappings, views, current := buddy, memory, [], [], 0;
    }

    /** A single page and `add_page`; NULL where the kernel halts. */
    method TakePage(m: Mapping, ghost v: View, size: nat) returns (p: int, n: Mapping)
      requires Working(m, v) && size <= PAGE_SIZE
      modifies buddy, buddy.pages, buddy.heads
      ensures p == NULL <==> Room(old(buddy.heap.Live())) == 0
      ensures p != NULL ==> Room(buddy.heap.Live()) == Room(old(buddy.heap.Live())) - 1
      ensures p != NULL ==>
                && Working(n, v) && 0 <= p < PAGE_NUM && n == WithPage(m, p) && p !in old(buddy.heap.Live())
                && Took(old(buddy.heap.Live()), buddy.heap.Live(), m, n)
                && !(m.table <= p < m.table + 4) && p !in v.tables.Values && p !in v.frames && p !in m.pages
    {
      hide SpaceOk, Owned, Took, Tiled, Coalesced, Described, AllLists, Room, OutOfMemory;
      n := m;
      ghost var live := buddy.heap.Live();
      OutOfPages(buddy.heap, size);
      p := buddy.Alloc(size);
      if p != NULL {
        RoomTaken(live, buddy.heap, p, 0) by { OrderOf(size, buddy.heap.Live()[p]); }
        OrderOf(size, buddy.heap.Live()[p]);
        PageTaken(live, buddy.heap, m, v, p);
        n := m.(pages := [p] + m.pages);
      }
    }

    /** `mmu_create_pl2` */
    method CreatePl2(m: Mapping, ghost v: View) returns (q: int, n: Mapping)
      requires Working(m, v)
      modifies this`mem, buddy, buddy.pages, buddy.heads
      ensures q == NULL <==> Room(old(buddy.heap.Live())) == 0
      ensures q != NULL ==> Room(buddy.heap.Live()) == Room(old(buddy.heap.Live())) - 1
      ensures q != NULL ==>
                && Working(n, v) && 0 <= q < PAGE_NUM && n == WithPage(m, q)
                && Progress(old(mem), old(buddy.heap.Live()), m, mem, buddy.heap.Live(), n)
                && !(m.table <= q < m.table + 4) && q !in v.tables.Values && q !in v.frames
                && (forall j :: 0 <= j < L2_ENTRY_NUM ==> mem[q][j] == 0) && SameWalks(old(mem), mem, m.table)
    {
      hide SpaceOk, Owned, Took, Tiled, Coalesced, Described, AllLists, Cleared, Translate, Room;
      q, n := TakePage(m, v, L2_SIZE);
      if q != NULL {
        ghost var was := mem;
        mem := mem[q := Cleared(mem[q])];
        SpaceFrame(was, mem, m.table, v);
      }
    }

    /** `mmu_create_and_fill_pl2`: the second-level table of a section, hung up if it was not there. */
    method FillPl2(m: Mapping, ghost v: View, i: nat) returns (q: int, n: Mapping, ghost w: View)
      requires Working(m, v) && i < L1_ENTRY_NUM
      modifies this`mem, buddy, buddy.pages, buddy.heads
      ensures q == NULL <==> Room(old(buddy.heap.Live())) < TableCost(v, i)
      ensures q != NULL ==>
                && Working(n, w) && i in w.tables && w.tables[i] == q && w.frames == v.frames
                && w.tables.Keys == v.tables.Keys + {i}
                && Room(buddy.heap.Live()) == Room(old(buddy.heap.Live())) - TableCost(v, i)
                && Progress(old(mem), old(buddy.heap.Live()), m, mem, buddy.heap.Live(), n)
                && SameWalks(old(mem), mem, m.table)
    {
      hide Tiled, Coalesced, Described, AllLists, Translate, SecondOk, Distinct, Hung, First, SetFirst, Room;
      w, n := v, m;
      var e := First(mem, m.table, i);
      if i in v.tables { HungBack(v.tables[i]); }
      if e % 2 == 0 {
        q, n := CreatePl2(m, v);
        if q == NULL {
          return;
        }
        ghost var was := mem;
        AddTable(mem, m.table, v, i, q);
        SetFirstElsewhere(mem, m.table, i, Hung(q));
        mem := SetFirst(mem, m.table, i, Hung(q));
        w := v.(tables := v.tables[i := q]);
      } else {
        q := e / 0x1000 - FIRST_FRAME;
      }
    }

    /** One round of the mapping loop: a fresh frame in one slot. */
    method MapOne(m: Mapping, ghost v: View, i: nat, q: nat, j: nat) returns (p: int, n: Mapping, ghost w: View)
      requires Working(m, v) && i in v.tables && v.tables[i] == q && j < L2_ENTRY_NUM
      modifies this`mem, buddy, buddy.pages, buddy.heads
      ensures p == NULL <==> Room(old(buddy.heap.Live())) == 0
      ensures p != NULL ==> Room(buddy.heap.Live()) == Room(old(buddy.heap.Live())) - 1
      ensures p != NULL ==>
                && 0 <= p < PAGE_NUM && n == WithPage(m, p) && w == View(v.tables, v.frames + {p})
                && Working(n, w) && p !in old(buddy.heap.Live()) && p in buddy.heap.Live()
                && Progress(old(mem), old(buddy.heap.Live()), m, mem, buddy.heap.Live(), n)
                && SlotLeads(old(mem), mem, m.table, i, j, p)
    {
      hide Tiled, Coalesced, Described, AllLists, Translate, SpaceOk, FullEntry, Entry, Small, Section, Slot, Owned;
      hide Took, Inside, Room;
      w := v;
      p, n := TakePage(m, v, PAGE_SIZE);
      if p != NULL {
        w := View(v.tables, v.frames + {p});
        FullEntryIs(p, w.frames);
        assert q < |mem| by { TableInRange(mem, m.table, v, i); }
        SetEntry(mem, m.table, v, i, j, FullEntry(p), {p});
        FrameOwned(buddy.heap.Live(), m, v, p);
        WroteInside(mem, buddy.heap.Live(), n, v, i, mem[q][j := FullEntry(p)]);
        mem := mem[q := mem[q][j := FullEntry(p)]];
      }
    }

    /** `mmu_create_mapping` for user pages. */
    method CreateMapping(m: Mapping, ghost v: View, addr: Word, size: Word)
      returns (status: Status, n: Mapping, ghost w: View, ghost got: seq<nat>)
      requires Working(m, v)
      modifies this`mem, buddy, buddy.pages, buddy.heads
      ensures status.Refused? <==> Crosses(addr, size)
      ensures status.Refused? ==> n == m && w == v && mem == old(mem) && buddy.heap == old(buddy.heap) && buddy.Valid()
      ensures status.Halted? <==>
                && !status.Refused?
                && Room(old(buddy.heap.Live())) < TableCost(v, Section(addr)) + PageCount(size)
      ensures status.Done? ==>
                && Working(n, w) && Progress(old(mem), old(buddy.heap.Live()), m, mem, buddy.heap.Live(), n)
                && w.frames == v.frames + PageSet(got)
                && |got| == PageCount(size) && Fresh(got, old(buddy.heap.Live()))
                && RangeLeads(old(mem), mem, m.table, addr, got)
    {
      hide Tiled, Coalesced, Described, AllLists, Translate, SpaceHeld, Section, Slot, PageCount, Progress, MapsTo;
      hide Fresh, SameWalks, Room, TableCost, PageSet, RangeLeads, PageBase;
      n, w, got := m, v, [];
      if size + 0xfff < 0x1_0000_0000 { EndInSection(addr, size); }
      var i, lo, count := Section(addr), Slot(addr), PageCount(size);
      if L2_ENTRY_NUM < lo + count {
        return Refused, n, w, got;
      }
      var q;
      q, n, w := FillPl2(m, v, i);
      if q == NULL {
        return Halted, n, w, got;
      }
      StillLive(old(buddy.heap.Live()), buddy.heap.Live(), old(mem), mem, m, n);
      MapsNone(old(mem), mem, m.table, i, lo);
      FreshNone(old(buddy.heap.Live()));
      PageSetNone();
      var j := lo;
      while j < lo + count
        invariant lo <= j <= lo + count && |got| == j - lo
        invariant Working(n, w) && i in w.tables && w.tables[i] == q && n.table == m.table
        invariant Progress(old(mem), old(buddy.heap.Live()), m, mem, buddy.heap.Live(), n)
        invariant Fresh(got, old(buddy.heap.Live())) && (forall p :: p in got ==> p in buddy.heap.Live())
        invariant MapsTo(old(mem), mem, m.table, i, lo, got) && w.frames == v.frames + PageSet(got)
        invariant Room(buddy.heap.Live()) == Room(old(buddy.heap.Live())) - TableCost(v, i) - (j - lo)
      {
        ghost var mem0, live0, n0 := mem, buddy.heap.Live(), n;
        var p;
        p, n, w := MapOne(n, w, i, q, j);
        if p == NULL {
          return Halted, n, w, got;
        }
        ProgressTwice(old(mem), old(buddy.heap.Live()), m, mem0, live0, n0, mem, buddy.heap.Live(), n);
        FreshMore(got, old(buddy.heap.Live()), live0, m, n0, old(mem), mem0, p);
        MapsMore(old(mem), mem0, mem, m.table, i, lo, got, p);
        StillLive(live0, buddy.heap.Live(), mem0, mem, n0, n);
        PageSetMore(got, p);
        got := got + [p];
        j := j + 1;
      }
      MapsRange(old(mem), mem, m.table, addr, got);
      status := Done;
    }

    /** One round of the straight loop: a slot that leads to its own address, for the kernel alone. */
    method StraightOne(m: Mapping, ghost v: View, i: nat, q: nat, j: nat)
      requires Working(m, v) && i in v.tables && v.tables[i] == q && i < L1_ENTRY_NUM && j < L2_ENTRY_NUM
      modifies this`mem
      ensures Working(m, v) && Inside(old(mem), mem, m)
      ensures forall va: Word ::
                Translate(mem, m.table, va) ==
                if Section(va) == i && Slot(va) == j then Mapped(va / 0x1000, false)
                else Translate(old(mem), m.table, va)
    {
      hide Tiled, Coalesced, Described, AllLists, Translate, SpaceOk, PrivilegedEntry, Entry, Small, Owned, Inside;
      var e := PrivilegedEntry(0x100 * i + j);
      PrivilegedEntryIs(0x100 * i + j, v.frames + {});
      assert q < |mem| by { TableInRange(mem, m.table, v, i); }
      SetEntry(mem, m.table, v, i, j, e, {});
      assert v.(frames := v.frames + {}) == v;
      WroteInside(mem, buddy.heap.Live(), m, v, i, mem[q][j := e]);
      mem := mem[q := mem[q][j := e]];
    }

    /** `mmu_create_straight_mapping` */
    method CreateStraightMapping(m: Mapping, ghost v: View, addr: Word, size: Word)
      returns (status: Status, n: Mapping, ghost w: View)
      requires Working(m, v)
      modifies this`mem, buddy, buddy.pages, buddy.heads
      ensures status.Refused? <==> Crosses(addr, size)
      ensures status.Refused? ==> n == m && w == v && mem == old(mem) && buddy.heap == old(buddy.heap) && buddy.Valid()
      ensures status.Halted? <==> !status.Refused? && Room(old(buddy.heap.Live())) < TableCost(v, Section(addr))
      ensures status.Done? ==>
                && Working(n, w) && Progress(old(mem), old(buddy.heap.Live()), m, mem, buddy.heap.Live(), n)
                && w.frames == v.frames && w.tables.Keys == v.tables.Keys + {Section(addr)}
                && Room(buddy.heap.Live()) == Room(old(buddy.heap.Live())) - TableCost(v, Section(addr))
                && RangeStraight(old(mem), mem, m.table, addr, PageCount(size))
    {
      hide Tiled, Coalesced, Described, AllLists, Translate, SpaceHeld, Section, Slot, PageCount, Progress, Straight;
      hide SameWalks, Inside, Room, TableCost, RangeStraight, PageBase;
      n, w := m, v;
      if size + 0xfff < 0x1_0000_0000 { EndInSection(addr, size); }
      var i, lo, count := Section(addr), Slot(addr), PageCount(size);
      if L2_ENTRY_NUM < lo + count {
        return Refused, n, w;
      }
      var q;
      q, n, w := FillPl2(m, v, i);
      if q == NULL {
        return Halted, n, w;
      }
      StillLive(old(buddy.heap.Live()), buddy.heap.Live(), old(mem), mem, m, n);
      StraightNone(old(mem), mem, m.table, i, lo);
      var k := 0;
      while k < count
        invariant 0 <= k <= count
        invariant Working(n, w) && Progress(old(mem), old(buddy.heap.Live()), m, mem, buddy.heap.Live(), n)
        invariant Straight(old(mem), mem, m.table, i, lo, lo + k)
        modifies this`mem
      {
        ghost var mem0 := mem;
        StraightOne(n, w, i, q, lo + k);
        ProgressInside(old(mem), old(buddy.heap.Live()), m, mem0, buddy.heap.Live(), n, mem);
        StraightMore(old(mem), mem0, mem, m.table, i, lo, lo + k);
        k := k + 1;
      }
      StraightRange(old(mem), mem, m.table, addr, count);
      status := Done;
    }

    /** `mmu_create_vectors_mapping`, with the words of the exception vectors. */
    method CreateVectorsMapping(m: Mapping, ghost v: View, vectors: PageWords)
      returns (page: int, n: Mapping, ghost w: View)
      requires Working(m, v)
      modifies this`mem, buddy, buddy.pages, buddy.heads
      ensures page == NULL <==> Room(old(buddy.heap.Live())) < TableCost(v, 0xfff) + 1
      ensures page != NULL ==>
                && 0 <= page < PAGE_NUM && Working(n, w) && mem[page] == vectors
                && Progress(old(mem), old(buddy.heap.Live()), m, mem, buddy.heap.Live(), n)
                && w.frames == v.frames && w.tables.Keys == v.tables.Keys + {0xfff}
                && Room(buddy.heap.Live()) == Room(old(buddy.heap.Live())) - TableCost(v, 0xfff) - 1
                && VectorsAt(old(mem), mem, m.table, page)
    {
      hide Tiled, Coalesced, Described, AllLists, Translate, SpaceOk, Owned, Took, Inside, PrivilegedEntry, Entry;
      hide Small, Section, Slot, Room, TableCost;
      page := NULL;
      var q;
      q, n, w := FillPl2(m, v, 0xfff);
      if q == NULL {
        return;
      }
      ghost var mem0, live0, n0 := mem, buddy.heap.Live(), n;
      page, n := TakePage(n, w, PAGE_SIZE);
      if page == NULL {
        return;
      }
      PageWritten(mem, buddy.heap.Live(), n, w, page, vectors);
      mem := mem[page := vectors];
      ghost var mem1 := mem;
      var e := PrivilegedEntry(FIRST_FRAME + page);
      PrivilegedEntryIs(FIRST_FRAME + page, w.frames + {});
      assert q < |mem| && q != page by { TableInRange(mem, n.table, w, 0xfff); }
      SetEntry(mem, n.table, w, 0xfff, 0xf0, e, {});
      assert w.(frames := w.frames + {}) == w;
      WroteInside(mem, buddy.heap.Live(), n, w, 0xfff, mem[q][0xf0 := e]);
      mem := mem[q := mem[q][0xf0 := e]];
      InsideTwice(mem0, mem1, mem, n);
      ProgressTwice(old(mem), old(buddy.heap.Live()), m, mem0, live0, n0, mem, buddy.heap.Live(), n);
      StillLive(live0, buddy.heap.Live(), mem0, mem, n0, n);
      StillLive(old(buddy.heap.Live()), live0, old(mem), mem0, m, n0);
      VectorPage();
    }

    /** `mmu_create_kernel_mappings` for a space that is still empty. */
    method CreateKernelMappings(m: Mapping, ghost v: View, vectors: PageWords)
      returns (ok: bool, n: Mapping, ghost w: View, ghost page: int)
      requires Working(m, v) && v.tables == map[] && AllUnmapped(mem, m.table)
      modifies this`mem, buddy, buddy.pages, buddy.heads
      ensures ok <==> Room(old(buddy.heap.Live())) >= KERNEL_PAGES
      ensures ok ==>
                && Working(n, w) && Progress(old(mem), old(buddy.heap.Live()), m, mem, buddy.heap.Live(), n)
                && w.frames == v.frames && HasSections(w, 0x90, 2) && page >= 0 && Shows(mem, m.table, page, 0x90, 2)
                && Room(buddy.heap.Live()) == Room(old(buddy.heap.Live())) - KERNEL_PAGES
    {
      hide Tiled, Coalesced, Described, AllLists, Translate, SpaceHeld, Progress, Shows, Section, Slot;
      hide PageCount, Room, HasSections, AllUnmapped, VectorsAt;
      var made;
      made, n, w := CreateVectorsMapping(m, v, vectors);
      page, ok := made, made != NULL;
      if !ok {
        return;
      }
      StillLive(old(buddy.heap.Live()), buddy.heap.Live(), old(mem), mem, m, n);
      VectorsShow(old(mem), mem, m.table, page);
      FirstSection(w);
      var i := 0;
      while i < 0x90
        invariant 0 <= i <= 0x90 && n.table == m.table && w.frames == v.frames && HasSections(w, i, 0)
        invariant Working(n, w) && Progress(old(mem), old(buddy.heap.Live()), m, mem, buddy.heap.Live(), n)
        invariant Shows(mem, m.table, page, i, 0)
        invariant Room(buddy.heap.Live()) == Room(old(buddy.heap.Live())) - 2 - i
      {
        ok, n, w := StraightStep(n, w, 0x6000_0000 + 0x10_0000 * i, 0x10_0000, m, old(mem), old(buddy.heap.Live()),
                                 page, i, 0);
        if !ok {
          return;
        }
        i := i + 1;
      }
      ok, n, w := StraightStep(n, w, 0x1000_0000, 0x2_0000, m, old(mem), old(buddy.heap.Live()), page, 0x90, 0);
      if !ok {
        return;
      }
      ok, n, w := StraightStep(n, w, 0x1e00_0000, 0x2000, m, old(mem), old(buddy.heap.Live()), page, 0x90, 1);
    }

    /** One of the straight mappings of the kernel, after `i` megabytes of it and `stage` other ranges. */
    method StraightStep(m: Mapping, ghost v: View, addr: Word, size: Word, ghost m0: Mapping, ghost mem0: Memory,
                        ghost live0: LiveMap, ghost page: nat, ghost i: nat, ghost stage: nat)
      returns (ok: bool, n: Mapping, ghost w: View)
      requires Working(m, v) && m.table == m0.table && KernelRange(addr, size, i, stage) && HasSections(v, i, stage)
      requires Progress(mem0, live0, m0, mem, buddy.heap.Live(), m) && Shows(mem, m0.table, page, i, stage)
      modifies this`mem, buddy, buddy.pages, buddy.heads
      ensures ok <==> Room(old(buddy.heap.Live())) > 0
      ensures ok ==>
                && Working(n, w) && n.table == m0.table && w.frames == v.frames
                && Room(buddy.heap.Live()) == Room(old(buddy.heap.Live())) - 1
                && Progress(mem0, live0, m0, mem, buddy.heap.Live(), n)
                && (if i < 0x90 then Shows(mem, m0.table, page, i + 1, stage) && HasSections(w, i + 1, stage)
                    else Shows(mem, m0.table, page, i, stage + 1) && HasSections(w, i, stage + 1))
    {
      hide Tiled, Coalesced, Described, AllLists, Translate, SpaceHeld, Progress, Shows, RangeStraight, Section, Slot;
      hide PageCount, Room, HasSections, KernelRange, Crosses;
      ghost var mem1, live1 := mem, buddy.heap.Live();
      RangeWithin(addr, size, i, stage);
      NextSection(v, addr, size, i, stage);
      var status;
      status, n, w := CreateStraightMapping(m, v, addr, size);
      ok := status.Done?;
      if ok {
        StillLive(live1, buddy.heap.Live(), mem1, mem, m, n);
        ProgressTwice(mem0, live0, m0, mem1, live1, m, mem, buddy.heap.Live(), n);
        KernelMore(mem1, mem, m.table, page, addr, size, i, stage);
        MoreSections(v, w, addr, size, i, stage);
      }
    }

    /** `mmu_create_pl1` for a new space. */
    method CreatePl1(pid: int) returns (ok: bool, m: Mapping, ghost v: View)
      requires buddy.Valid() && |mem| == PAGE_NUM
      modifies this`mem, buddy, buddy.pages, buddy.heads
      ensures ok <==> !OutOfMemory(old(buddy.heap), L1_SIZE)
      ensures ok ==>
                && Working(m, v) && m.pid == pid && v == View(map[], {}) && AllUnmapped(mem, m.table)
                && Room(buddy.heap.Live()) == Room(old(buddy.heap.Live())) - 4
                && Progress(old(mem), old(buddy.heap.Live()), Nothing(m), mem, buddy.heap.Live(), m)
    {
      hide Tiled, Coalesced, Described, AllLists, Translate, SpaceOk, Zeros, Room, OutOfMemory;
      m, v := Mapping(pid, [], 0), View(map[], {});
      ghost var live := buddy.heap.Live();
      var p := buddy.Alloc(L1_SIZE);
      ok := p != NULL;
      if ok {
        OrderOf(L1_SIZE, buddy.heap.Live()[p]);
        RoomTaken(live, buddy.heap, p, 2);
        BlockInRange(buddy.heap, p);
        PowTwo();
        m := Mapping(pid, [p], p);
        mem := mem[p := Zeros()][p + 1 := Zeros()][p + 2 := Zeros()][p + 3 := Zeros()];
        EmptySpace(mem, p);
      }
    }

    /** A space made from nothing, with the kernel in it. */
    method NewSpace(pid: int, vectors: PageWords) returns (ok: bool, n: Mapping, ghost w: View, ghost page: int)
      requires buddy.Valid() && |mem| == PAGE_NUM
      modifies this`mem, buddy, buddy.pages, buddy.heads
      ensures ok <==> !NoSpace(old(buddy.heap))
      ensures ok ==>
                && Working(n, w) && n.pid == pid && w.frames == {} && HasSections(w, 0x90, 2)
                && page >= 0 && Shows(mem, n.table, page, 0x90, 2)
                && Room(buddy.heap.Live()) == Room(old(buddy.heap.Live())) - SPACE_PAGES
                && Progress(old(mem), old(buddy.heap.Live()), Nothing(n), mem, buddy.heap.Live(), n)
    {
      hide Tiled, Coalesced, Described, AllLists, Translate, SpaceHeld, Progress, Shows, HasSections, Room, OutOfMemory;
      hide AllUnmapped;
      page := NULL;
      var m;
      ghost var v;
      ok, m, v := CreatePl1(pid);
      n, w := m, v;
      if ok {
        ghost var mem1, live1 := mem, buddy.heap.Live();
        ok, n, w, page := CreateKernelMappings(m, v, vectors);
        if ok {
          StillLive(live1, buddy.heap.Live(), mem1, mem, m, n);
          ProgressTwice(old(mem), old(buddy.heap.Live()), Nothing(m), mem1, live1, m, mem, buddy.heap.Live(), n);
          PidKept(mem1, live1, m, mem, buddy.heap.Live(), n);
        }
      }
    }

    /** `mmu_mapping_fetch`: the space of a process, made if it has none. */
    method Fetch(pid: int, vectors: PageWords) returns (ok: bool, k: nat, ghost page: int)
      requires Valid()
      modifies this, buddy, buddy.pages, buddy.heads
      ensures ok <==> HasPid(old(mappings), pid) || !NoSpace(old(buddy.heap))
      ensures HasPid(old(mappings), pid) ==>
                && mem == old(mem) && mappings == old(mappings) && views == old(views)
                && buddy.heap == old(buddy.heap)
      ensures ok ==>
                && Valid() && k < |mappings| && mappings[k].pid == pid
                && OthersSame(old(mem), mem, old(mappings), pid)
                && (forall m :: m in old(mappings) ==> m in mappings)
                && (forall p :: p in old(buddy.heap.Live()) ==> p in buddy.heap.Live())
      ensures ok && !HasPid(old(mappings), pid) ==>
                && mappings == [mappings[k]] + old(mappings) && views[k].frames == {} && HasSections(views[k], 0x90, 2)
                && page >= 0 && Shows(mem, mappings[k].table, page, 0x90, 2)
                && Room(buddy.heap.Live()) == Room(old(buddy.heap.Live())) - SPACE_PAGES
                && Progress(old(mem), old(buddy.heap.Live()), Nothing(mappings[k]), mem, buddy.heap.Live(), mappings[k])
    {
      hide Tiled, Coalesced, Described, AllLists, Translate, SpaceHeld, Progress, Shows, HasSections, Room, NoSpace;
      page, k := NULL, 0;
      while k < |mappings|
        invariant 0 <= k <= |mappings| && forall j :: 0 <= j < k ==> mappings[j].pid != pid
      {
        if mappings[k].pid == pid {
          return true, k, page;
        }
        k := k + 1;
      }
      ghost var mem0, live0 := mem, buddy.heap.Live();
      k := 0;
      var n;
      ghost var w;
      ok, n, w, page := NewSpace(pid, vectors);
      if ok {
        StillLive(live0, buddy.heap.Live(), mem0, mem, Nothing(n), n);
        AllExtended(mem0, live0, mem, buddy.heap, mappings, views, n, w);
        mappings, views := [n] + mappings, [w] + views;
      }
    }

    /** `mmu_set_ttb`: what is loaded into the translation table base register is the table's own address. */
    method SetTtb(pid: int, vectors: PageWords) returns (ok: bool, was: int, ttb: nat, ghost k: nat)
      requires Valid()
      modifies this, buddy, buddy.pages, buddy.heads
      ensures ok <==> HasPid(old(mappings), pid) || !NoSpace(old(buddy.heap))
      ensures ok ==>
                && Valid() && was == old(current) && current == pid
                && k < |mappings| && mappings[k].pid == pid && ttb == PageAddress(mappings[k].table)
                && OthersSame(old(mem), mem, old(mappings), pid)
      ensures HasPid(old(mappings), pid) ==>
                mem == old(mem) && mappings == old(mappings) && views == old(views) && buddy.heap == old(buddy.heap)
      ensures ok && !HasPid(old(mappings), pid) ==> mappings == [mappings[k]] + old(mappings)
    {
      hide Tiled, Coalesced, Described, AllLists, Translate, SpaceHeld, Progress, Shows, HasSections, Room, NoSpace;
      hide OthersSame;
      ghost var page;
      var i;
      was, ttb := current, 0;
      ok, i, page := Fetch(pid, vectors);
      k := i;
      if ok {
        TableAligned(mem, buddy.heap, mappings, views, i);
        ttb := PageAddress(mappings[i].table) / L1_SIZE * L1_SIZE;
        current := pid;
      }
    }

    /** `mmu_alloc` */
    method Alloc(pid: int, addr: Word, size: Word, vectors: PageWords)
      returns (status: Status, ghost k: nat, ghost got: seq<nat>, ghost page: int)
      requires Valid()
      modifies this, buddy, buddy.pages, buddy.heads
      ensures HasPid(old(mappings), pid) ==>
                && k < |old(mappings)| && old(mappings)[k].pid == pid
                && (status.Halted? <==>
                      ShortOf(old(buddy.heap), TableCost(old(views)[k], Section(addr)) + PageCount(size), addr, size))
      ensures !HasPid(old(mappings), pid) ==>
                (status.Halted? <==>
                   || NoSpace(old(buddy.heap))
                   || ShortOf(old(buddy.heap), SPACE_PAGES + NewTable(Section(addr)) + PageCount(size), addr, size))
      ensures !status.Halted? ==>
                && Valid() && k < |mappings| && mappings[k].pid == pid
                && OthersSame(old(mem), mem, old(mappings), pid)
      ensures !status.Halted? ==> (status.Refused? <==> Crosses(addr, size))
      ensures status.Done? ==>
                && Fresh(got, old(buddy.heap.Live()))
                && (if size + 0xfff < 0x1_0000_0000 then size <= 0x1000 * |got| < size + 0x1000 else got == [])
      ensures status.Done? && HasPid(old(mappings), pid) ==>
                && k < |old(mappings)| && mappings == old(mappings)[k := mappings[k]]
                && Took(old(buddy.heap.Live()), buddy.heap.Live(), old(mappings)[k], mappings[k])
                && RangeLeads(old(mem), mem, mappings[k].table, addr, got)
      ensures status.Done? && !HasPid(old(mappings), pid) ==>
                && mappings == [mappings[k]] + old(mappings) && views[k].frames == PageSet(got) && page >= 0
                && Took(old(buddy.heap.Live()), buddy.heap.Live(), Nothing(mappings[k]), mappings[k])
                && OnlyKernelBut(mem, mappings[k].table, page, addr, got)
    {
      hide Tiled, Coalesced, Described, AllLists, Translate, SpaceHeld, Fresh, PageCount, Section, RangeLeads, PageBase;
      hide Took, Shows, Room, NoSpace, OnlyKernelBut, PageSet, KernelSection;
      got := [];
      var ok, i;
      ok, i, page := Fetch(pid, vectors);
      k := i;
      if !ok {
        return Halted, k, got, page;
      }
      ghost var mem1, live1, maps1, views1 := mem, buddy.heap.Live(), mappings, views;
      var n;
      ghost var w;
      ghost var m := mappings[i];
      status, n, w, got := CreateMapping(mappings[i], views[i], addr, size);
      if status.Done? {
        PidKept(mem1, live1, m, mem, buddy.heap.Live(), n);
        AllKept(mem1, live1, mem, buddy.heap, maps1, views1, i, n, w);
        OthersSameTwice(old(mem), mem1, mem, old(mappings), maps1, pid);
        FreshBefore(old(buddy.heap.Live()), live1, got);
        if !HasPid(old(mappings), pid) {
          ProgressTwice(old(mem), old(buddy.heap.Live()), Nothing(m), mem1, live1, m, mem, buddy.heap.Live(), n);
          KernelBut(mem1, mem, n.table, page, addr, got);
        }
        mappings, views := mappings[i := n], views[i := w];
      }
    }

    /** `release_pages` */
    method ReleasePages(pages: seq<nat>)
      requires buddy.Valid() && NoDup(pages) && forall p :: p in pages ==> p in buddy.heap.Live()
      modifies buddy, buddy.pages, buddy.heads
      ensures buddy.Valid() && buddy.heap.Live() == old(buddy.heap.Live()) - PageSet(pages)
    {
      hide Tiled, Coalesced, Described, AllLists;
      ghost var live := buddy.heap.Live();
      var i := 0;
      while i < |pages|
        invariant 0 <= i <= |pages| && buddy.Valid()
        invariant buddy.heap.Live() == live - PageSet(pages[..i])
      {
        assert pages[i] !in pages[..i] && pages[i] in pages;
        buddy.Free(pages[i]);
        assert PageSet(pages[..i + 1]) == PageSet(pages[..i]) + {pages[i]};
        i := i + 1;
      }
      assert pages[..|pages|] == pages;
    }

    /** The end of `mmu_destroy`: a space leaves the list and its blocks are given back. */
    method Discard(i: nat)
      requires Valid() && i < |mappings|
      modifies this, buddy, buddy.pages, buddy.heads
      ensures Valid() && !HasPid(mappings, old(mappings)[i].pid) && mem == old(mem) && current == old(current)
      ensures mappings == old(mappings)[..i] + old(mappings)[i + 1..]
      ensures buddy.heap.Live() == old(buddy.heap.Live()) - PageSet(old(mappings)[i].pages)
    {
      hide Tiled, Coalesced, Described, AllLists, Translate, SpaceOk;
      AllReleased(mem, buddy.heap.Live(), mappings, views, i);
      var pages := mappings[i].pages;
      mappings, views := mappings[..i] + mappings[i + 1..], views[..i] + views[i + 1..];
      ReleasePages(pages);
    }

    /** `mmu_destroy` of a process that has a space: the space of the kernel is in force afterwards. */
    method Destroy(pid: int, vectors: PageWords) returns (ok: bool, ghost k: nat)
      requires Valid() && HasPid(mappings, pid)
      modifies this, buddy, buddy.pages, buddy.heads
      ensures ok <==> HasPid(old(mappings), 0) || !NoSpace(old(buddy.heap))
      ensures k < |old(mappings)| && old(mappings)[k].pid == pid
      ensures ok ==> Valid() && !HasPid(mappings, pid) && current == 0 && OthersSame(old(mem), mem, old(mappings), 0)
      ensures HasPid(old(mappings), 0) ==>
                && mem == old(mem) && mappings == old(mappings)[..k] + old(mappings)[k + 1..]
                && buddy.heap.Live() == old(buddy.heap.Live()) - PageSet(old(mappings)[k].pages)
    {
      hide Tiled, Coalesced, Described, AllLists, Translate, AllHeld, NoSpace, OthersSame, PageSet;
      var i := 0;
      while mappings[i].pid != pid
        invariant 0 <= i < |mappings| && forall j :: 0 <= j < i ==> mappings[j].pid != pid
        decreases |mappings| - i
      {
        i := i + 1;
      }
      k := i;
      var n := |mappings|;
      var was, ttb;
      ghost var zero;
      ok, was, ttb, zero := SetTtb(0, vectors);
      if ok {
        Discard(if |mappings| > n then i + 1 else i);
      }
    }

    /**
     * A store by user code: whatever it writes where it may, every space keeps its
     * translations and what other processes can reach keeps its contents.
     */
    method UserStore(k: nat, va: Word, j: nat, word: Word)
      requires Valid() && k < |mappings| && j < WORDS
      requires Translate(mem, mappings[k].table, va).Mapped? && Translate(mem, mappings[k].table, va).full
      modifies this`mem
      ensures Valid() && AllSame(old(mem), mem, mappings)
      ensures Stored(old(mem), mem, Translate(old(mem), mappings[k].table, va).frame - FIRST_FRAME, j, word)
      ensures OutsideOthers(mappings, k, Translate(old(mem), mappings[k].table, va).frame - FIRST_FRAME)
    {
      hide Tiled, Coalesced, Described, AllLists, SpaceOk, Translate, InSpan;
      ghost var v := views[k];
      FullIsOwn(mem, mappings[k].table, v, va);
      var p := Translate(mem, mappings[k].table, va).frame - FIRST_FRAME;
      InsideSpan(buddy.heap, mappings[k], v, p);
      StoreKept(mem, buddy.heap, mappings, views, k, p, mem[p][j := word]);
      mem := mem[p := mem[p][j := word]];
    }
  }

  ghost function PageSet(pages: seq<nat>): (s: set<nat>) {
    set p | p in pages
  }

  lemma PageSetNone()
    ensures PageSet([]) == {}
  {
  }

  lemma PageSetMore(pages: seq<nat>, p: nat)
    ensures PageSet(pages + [p]) == PageSet(pages) + {p}
  {
  }

  /** Without one space and its blocks the others stand. */
  lemma AllReleased(mem: Memory, live: LiveMap, mappings: seq<Mapping>, views: seq<View>, k: nat)
    requires AllHeld(mem, live, mappings, views) && k < |mappings|
    ensures AllHeld(mem, live - PageSet(mappings[k].pages), mappings[..k] + mappings[k + 1..],
                    views[..k] + views[k + 1..])
    ensures !HasPid(mappings[..k] + mappings[k + 1..], mappings[k].pid)
  {
    hide SpaceOk;
    var rest, left := mappings[..k] + mappings[k + 1..], views[..k] + views[k + 1..];
    var gone := live - PageSet(mappings[k].pages);
    forall j | 0 <= j < |rest| ensures SpaceHeld(mem, gone, rest[j], left[j]) && rest[j].pid != mappings[k].pid {
      var i := if j < k then j else j + 1;
      assert rest[j] == mappings[i] && left[j] == views[i];
      assert Other(if i < k then mappings[i] else mappings[k], if i < k then mappings[k] else mappings[i]);
    }
    forall i, j | 0 <= i < j < |rest| ensures Other(rest[i], rest[j]) {
      assert Other(mappings[if i < k then i else i + 1], mappings[if j < k then j else j + 1]);
    }
  }

  /** One word of page `p` was written and nothing else. */
  ghost predicate Stored(mem: Memory, now: Memory, p: int, j: nat, word: Word) {
    0 <= p < |mem| && j < WORDS && now == mem[p := mem[p][j := word]]
  }

  /** The page is none of any space but the one numbered `k`. */
  ghost predicate OutsideOthers(mappings: seq<Mapping>, k: nat, p: int) {
    p >= 0 && forall i :: 0 <= i < |mappings| && i != k ==> !InSpan(mappings[i], p)
  }

  /** Every space keeps its translations. */
  ghost predicate AllSame(mem: Memory, now: Memory, mappings: seq<Mapping>) {
    forall m: Mapping, va: Word :: m in mappings ==> Translate(now, m.table, va) == Translate(mem, m.table, va)
  }

  /** Writing a frame of one space changes no translation of any. */
  lemma StoreKept(mem: Memory, h: Heap, mappings: seq<Mapping>, views: seq<View>, k: nat, p: nat, words: PageWords)
    requires AllHeld(mem, h.Live(), mappings, views) && Tiled(h) && k < |mappings| && p in views[k].frames
    requires p !in views[k].tables.Values && !(mappings[k].table <= p < mappings[k].table + 4)
    ensures p < |mem| && AllHeld(mem[p := words], h.Live(), mappings, views)
    ensures OutsideOthers(mappings, k, p) && AllSame(mem, mem[p := words], mappings)
  {
    hide Tiled, Translate, SpaceOk;
    var m, live := mappings[k], h.Live();
    InsideSpan(h, m, views[k], p);
    PageWritten(mem, live, m, views[k], p, words);
    var now := mem[p := words];
    assert Took(live, live, m, m);
    AllKept(mem, live, now, h, mappings, views, k, m, views[k]);
    assert mappings[k := m] == mappings && views[k := views[k]] == views;
    forall i | 0 <= i < |mappings| && i != k ensures !InSpan(mappings[i], p) {
      assert Other(if i < k then mappings[i] else m, if i < k then m else mappings[i]);
      SpansApart(h, m, views[k], mappings[i], views[i], p);
    }
    forall n: Mapping, vb: Word | n in mappings ensures Translate(now, n.table, vb) == Translate(mem, n.table, vb) {
      var i :| 0 <= i < |mappings| && mappings[i] == n;
      assert i != k ==> Other(if i < k then n else m, if i < k then m else n);
    }
  }

  lemma OthersSameTwice(mem: Memory, mid: Memory, now: Memory, mappings: seq<Mapping>, later: seq<Mapping>, pid: int)
    requires OthersSame(mem, mid, mappings, pid) && OthersSame(mid, now, later, pid)
             && forall m :: m in mappings ==> m in later
    ensures OthersSame(mem, now, mappings, pid)
  {
    hide Translate;
  }

  lemma FreshBefore(live: LiveMap, now: LiveMap, got: seq<nat>)
    requires Fresh(got, now) && forall p :: p in live ==> p in now
    ensures Fresh(got, live)
  {
  }

  /** Memory does not suffice for a new space. */
  ghost predicate NoSpace(h: Heap) {
    OutOfMemory(h, L1_SIZE) || Room(h.Live()) < SPACE_PAGES
  }

  /** The range goes on past the megabyte it starts in. */
  ghost predicate Crosses(addr: Word, size: Word) {
    size + 0xfff < 0x1_0000_0000 && PageBase(addr) % 0x10_0000 + size > 0x10_0000
  }

  /** The range stays in its megabyte, and there are fewer pages than it needs. */
  ghost predicate ShortOf(h: Heap, need: nat, addr: Word, size: Word) {
    !Crosses(addr, size) && Room(h.Live()) < need
  }

  /** The pages it takes a new space to have a second-level table for section `i`. */
  ghost function NewTable(i: nat): nat {
    if KernelSection(i, 0x90, 2) then 0 else 1
  }

  /** The pages of the range lead to the frames `got`; beside them only the kernel is mapped, for itself alone. */
  ghost predicate OnlyKernelBut(mem: Memory, table: nat, page: nat, addr: Word, got: seq<nat>) {
    forall va: Word ::
      Translate(mem, table, va) ==
      if PageBase(addr) <= va < PageBase(addr) + 0x1000 * |got| then
        Mapped(FIRST_FRAME + got[(va - PageBase(addr)) / 0x1000], true)
      else KernelMap(va, page, 0x90, 2)
  }

  lemma KernelBut(mem: Memory, now: Memory, table: nat, page: nat, addr: Word, got: seq<nat>)
    requires Shows(mem, table, page, 0x90, 2) && RangeLeads(mem, now, table, addr, got)
    ensures OnlyKernelBut(now, table, page, addr, got)
  {
    hide Translate, KernelMap, PageBase;
  }

  /** A space before it took anything. */
  ghost function Nothing(m: Mapping): (n: Mapping) {
    m.(pages := [])
  }

  ghost predicate HasPid(mappings: seq<Mapping>, pid: int) {
    exists k :: 0 <= k < |mappings| && mappings[k].pid == pid
  }

  lemma PidKept(mem: Memory, live: LiveMap, m: Mapping, mem': Memory, live': LiveMap, m': Mapping)
    requires Progress(mem, live, m, mem', live', m')
    ensures m'.pid == m.pid && Nothing(m') == Nothing(m)
  {
  }

  /** A new space joins the others and leaves them as they were. */
  lemma AllExtended(mem: Memory, live: LiveMap, mem': Memory, h: Heap, mappings: seq<Mapping>, views: seq<View>,
                    n: Mapping, w: View)
    requires AllHeld(mem, live, mappings, views) && Tiled(h) && !HasPid(mappings, n.pid)
    requires Progress(mem, live, Nothing(n), mem', h.Live(), n) && SpaceHeld(mem', h.Live(), n, w)
    ensures AllHeld(mem', h.Live(), [n] + mappings, [w] + views)
    ensures OthersSame(mem, mem', mappings, n.pid)
  {
    hide Progress, SpaceHeld, Tiled, Translate;
    SizeKept(mem, live, Nothing(n), mem', h.Live(), n);
    forall j | 0 <= j < |mappings|
      ensures SpaceHeld(mem', h.Live(), mappings[j], views[j]) && Other(n, mappings[j])
      ensures forall va: Word :: Translate(mem', mappings[j].table, va) == Translate(mem, mappings[j].table, va)
    {
      KeptOne(mem, live, Nothing(n), mem', h, n, w, mappings[j], views[j]);
    }
    var all, both := [n] + mappings, [w] + views;
    forall k | 0 <= k < |all| ensures SpaceHeld(mem', h.Live(), all[k], both[k]) {
      if k > 0 { assert SpaceHeld(mem', h.Live(), mappings[k - 1], views[k - 1]); }
    }
    forall j, k | 0 <= j < k < |all| ensures Other(all[j], all[k]) {
      if j > 0 { assert Other(mappings[j - 1], mappings[k - 1]); } else { assert Other(n, mappings[k - 1]); }
    }
  }

  lemma VectorPage()
    ensures forall va: Word :: Section(va) == 0xfff && Slot(va) == 0xf0 <==> 0xffff_0000 <= va < 0xffff_1000
  {
    forall va: Word ensures Section(va) == 0xfff && Slot(va) == 0xf0 <==> 0xffff_0000 <= va < 0xffff_1000 {
      PagesInSection(0xffff_0000, va, 1);
    }
  }

  /** The vector address leads to `page`, for the kernel alone, and nothing else changed. */
  ghost predicate VectorsAt(mem: Memory, now: Memory, table: nat, page: nat) {
    forall va: Word ::
      Translate(now, table, va) ==
      if 0xffff_0000 <= va < 0xffff_1000 then Mapped(FIRST_FRAME + page, false) else Translate(mem, table, va)
  }

  ghost predicate AllUnmapped(mem: Memory, table: nat) {
    forall va: Word :: Translate(mem, table, va) == Unmapped
  }

  /**
   * Where an address leads once the vectors, `i` megabytes of the kernel and the
   * first `stage` of the two other ranges are mapped: nothing is open to user code.
   */
  ghost function KernelMap(va: Word, page: nat, i: nat, stage: nat): Target {
    if || 0x6000_0000 <= va < 0x6000_0000 + 0x10_0000 * i
       || (stage >= 1 && 0x1000_0000 <= va < 0x1002_0000)
       || (stage >= 2 && 0x1e00_0000 <= va < 0x1e00_2000) then Mapped(va / 0x1000, false)
    else if 0xffff_0000 <= va < 0xffff_1000 then Mapped(FIRST_FRAME + page, false)
    else Unmapped
  }

  ghost predicate Shows(mem: Memory, table: nat, page: nat, i: nat, stage: nat) {
    forall va: Word :: Translate(mem, table, va) == KernelMap(va, page, i, stage)
  }

  /** The sections that have a table by then. */
  ghost predicate KernelSection(k: nat, i: nat, stage: nat) {
    k == 0xfff || 0x600 <= k < 0x600 + i || (stage >= 1 && k == 0x100) || (stage >= 2 && k == 0x1e0)
  }

  ghost predicate HasSections(v: View, i: nat, stage: nat) {
    forall k :: k in v.tables <==> KernelSection(k, i, stage)
  }

  /** The range that is mapped next. */
  ghost predicate KernelRange(addr: Word, size: Word, i: nat, stage: nat) {
    if i < 0x90 then stage == 0 && addr == 0x6000_0000 + 0x10_0000 * i && size == 0x10_0000
    else i == 0x90 && if stage == 0 then addr == 0x1000_0000 && size == 0x2_0000
                      else stage == 1 && addr == 0x1e00_0000 && size == 0x2000
  }

  lemma VectorsShow(mem: Memory, now: Memory, table: nat, page: nat)
    requires AllUnmapped(mem, table) && VectorsAt(mem, now, table, page)
    ensures Shows(now, table, page, 0, 0)
  {
    hide Translate;
  }

  lemma FirstSection(w: View)
    requires w.tables.Keys == {0xfff}
    ensures HasSections(w, 0, 0)
  {
    assert forall k :: k in w.tables <==> k in w.tables.Keys;
  }

  lemma RangeFits(addr: Word, size: Word, i: nat, stage: nat)
    requires KernelRange(addr, size, i, stage)
    ensures Slot(addr) == 0 && Slot(addr) + PageCount(size) <= L2_ENTRY_NUM
    ensures Section(addr) == if i < 0x90 then 0x600 + i else if stage == 0 then 0x100 else 0x1e0
    ensures PageCount(size) == if i < 0x90 then 0x100 else if stage == 0 then 0x20 else 2
  {
  }

  lemma RangeWithin(addr: Word, size: Word, i: nat, stage: nat)
    requires KernelRange(addr, size, i, stage)
    ensures PageBase(addr) == addr && !Crosses(addr, size)
  {
    RangeFits(addr, size, i, stage);
    EndInSection(addr, size);
  }

  lemma NextSection(v: View, addr: Word, size: Word, i: nat, stage: nat)
    requires KernelRange(addr, size, i, stage) && HasSections(v, i, stage)
    ensures TableCost(v, Section(addr)) == 1
  {
    hide Section;
    RangeFits(addr, size, i, stage);
    assert !KernelSection(Section(addr), i, stage);
  }

  lemma MoreSections(v: View, w: View, addr: Word, size: Word, i: nat, stage: nat)
    requires KernelRange(addr, size, i, stage) && HasSections(v, i, stage)
    requires w.tables.Keys == v.tables.Keys + {Section(addr)}
    ensures if i < 0x90 then HasSections(w, i + 1, stage) else HasSections(w, i, stage + 1)
  {
    hide Section;
    RangeFits(addr, size, i, stage);
    forall k: nat ensures k in w.tables <==> k in v.tables || k == Section(addr) {
      assert k in w.tables <==> k in w.tables.Keys;
    }
  }

  lemma KernelMore(mem: Memory, now: Memory, table: nat, page: nat, addr: Word, size: Word, i: nat, stage: nat)
    requires Shows(mem, table, page, i, stage) && KernelRange(addr, size, i, stage)
    requires RangeStraight(mem, now, table, addr, PageCount(size))
    ensures if i < 0x90 then Shows(now, table, page, i + 1, stage) else Shows(now, table, page, i, stage + 1)
  {
    hide Translate, Section, Slot, PageCount, PageBase, Crosses;
    RangeFits(addr, size, i, stage);
    RangeWithin(addr, size, i, stage);
  }

  lemma InsideTwice(mem: Memory, mid: Memory, now: Memory, n: Mapping)
    requires Inside(mem, mid, n) && Inside(mid, now, n)
    ensures Inside(mem, now, n)
  {
  }

  /** Writing a page of a space that holds no table changes no translation. */
  lemma PageWritten(mem: Memory, live: LiveMap, n: Mapping, v: View, p: nat, words: PageWords)
    requires SpaceHeld(mem, live, n, v) && p in n.pages && p < |mem| && !(n.table <= p < n.table + 4)
             && p !in v.tables.Values
    ensures SpaceHeld(mem[p := words], live, n, v) && Inside(mem, mem[p := words], n)
    ensures forall va: Word :: Translate(mem[p := words], n.table, va) == Translate(mem, n.table, va)
  {
    hide SpaceOk, Translate;
    SpaceFrame(mem, mem[p := words], n.table, v);
  }

  /** The pages of section `i` in a range of slots lead to themselves for the kernel alone, and nothing else changed. */
  ghost predicate Straight(mem: Memory, now: Memory, table: nat, i: nat, lo: nat, hi: nat) {
    forall va: Word ::
      Translate(now, table, va) ==
      if Section(va) == i && lo <= Slot(va) < hi then Mapped(va / 0x1000, false) else Translate(mem, table, va)
  }

  lemma StraightNone(mem: Memory, now: Memory, table: nat, i: nat, lo: nat)
    requires SameWalks(mem, now, table)
    ensures Straight(mem, now, table, i, lo, lo)
  {
    hide Translate;
  }

  lemma StraightMore(mem: Memory, mid: Memory, now: Memory, table: nat, i: nat, lo: nat, hi: nat)
    requires Straight(mem, mid, table, i, lo, hi) && lo <= hi
    requires forall va: Word ::
               Translate(now, table, va) ==
               if Section(va) == i && Slot(va) == hi then Mapped(va / 0x1000, false) else Translate(mid, table, va)
    ensures Straight(mem, now, table, i, lo, hi + 1)
  {
    hide Translate, Section, Slot;
  }

  lemma ProgressInside(mem: Memory, live: LiveMap, m: Mapping, mem': Memory, live': LiveMap, m': Mapping, mem'': Memory)
    requires Progress(mem, live, m, mem', live', m') && Inside(mem', mem'', m')
    ensures Progress(mem, live, m, mem'', live', m')
  {
  }

  /** Pages that were not live, all different. */
  ghost predicate Fresh(got: seq<nat>, live: LiveMap) {
    NoDup(got) && forall p :: p in got ==> p !in live
  }

  lemma FreshNone(live: LiveMap)
    ensures Fresh([], live)
  {
  }

  lemma FreshMore(got: seq<nat>, live: LiveMap, live0: LiveMap, m: Mapping, n: Mapping, mem: Memory, mem0: Memory,
                  p: nat)
    requires Fresh(got, live) && Progress(mem, live, m, mem0, live0, n)
    requires p !in live0 && forall q :: q in got ==> q in live0
    ensures Fresh(got + [p], live)
  {
  }

  lemma StillLive(live: LiveMap, now: LiveMap, mem: Memory, mem': Memory, m: Mapping, n: Mapping)
    requires Progress(mem, live, m, mem', now, n)
    ensures n.table == m.table && forall p :: p in live ==> p in now
  {
  }

  lemma MapsNone(mem: Memory, now: Memory, table: nat, i: nat, lo: nat)
    requires SameWalks(mem, now, table)
    ensures MapsTo(mem, now, table, i, lo, [])
  {
    hide Translate;
  }

  lemma TableInRange(mem: Memory, table: nat, v: View, i: nat)
    requires SpaceOk(mem, table, v) && i in v.tables
    ensures v.tables[i] < |mem|
  {
  }

  /** The newest page of a space may become one of its frames. */
  lemma FrameOwned(live: LiveMap, m: Mapping, v: View, p: nat)
    requires Owned(live, WithPage(m, p), v) && !(m.table <= p < m.table + 4) && p in WithPage(m, p).pages
    ensures Owned(live, WithPage(m, p), View(v.tables, v.frames + {p})) && p in live
  {
  }

  /** Writing a second-level table stays inside the space. */
  lemma WroteInside(mem: Memory, live: LiveMap, n: Mapping, v: View, i: nat, words: PageWords)
    requires Owned(live, n, v) && i in v.tables && v.tables[i] < |mem|
    ensures Inside(mem, mem[v.tables[i] := words], n)
  {
  }
}
