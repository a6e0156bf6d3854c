/**
 Two-level translation tables in the short-descriptor format of the ARM
 Architecture Reference Manual, ARMv7-A edition, section B3.5.
 */
module PageTable {
  import opened Pages
  import opened Blocks

  const L1_ENTRY_NUM := 4096
  const L2_ENTRY_NUM := 256

  /** The page number of `PAGE_START`. */
  const FIRST_FRAME := 0x65000
  const FULL := 0x32
  const PRIVILEGED := 0x12

  type PageWords = s: seq<Word> | |s| == WORDS witness seq(WORDS, i => 0)
  type Memory = seq<PageWords>

  function Zeros(): (z: PageWords) {
    seq(WORDS, i => 0)
  }

  // ----- what the hardware does with an address

  /** The first-level index of an address. */
  function Section(va: Word): (i: nat)
    ensures i < L1_ENTRY_NUM
  {
    va / 0x10_0000
  }

  /** The second-level index of an address. */
  function Slot(va: Word): (j: nat)
    ensures j < L2_ENTRY_NUM
  {
    va / 0x1000 % 0x100
  }

  /** A physical page number and whether user code may read and write it. */
  datatype Target = Unmapped | Mapped(frame: nat, full: bool)

  /** A second-level descriptor: a small page when bit 1 is set, open to user code when AP is 3. */
  function Small(e: Word): (t: Target) {
    var low := e % 0x1000;
    if low / 2 % 2 == 0 then Unmapped else Mapped(e / 0x1000, low / 0x10 % 4 == 3)
  }

  /** The first-level descriptor of section `i` in the table at page `table`. */
  function First(mem: Memory, table: nat, i: nat): (e: Word)
    requires i < L1_ENTRY_NUM && table + 4 <= |mem|
  {
    mem[table + i / 1024][i % 1024]
  }

  /** The walk of the two tables; tables outside the managed pages are not modelled. */
  function Translate(mem: Memory, table: nat, va: Word): (t: Target) {
    if table + 4 > |mem| then Unmapped else
    var e := First(mem, table, Section(va));
    var q := e / 0x1000 - FIRST_FRAME;
    if e % 4 != 1 || q < 0 || q >= |mem| then Unmapped
    else Small(mem[q][e / 0x400 % 4 * 0x100 + Slot(va)])
  }

  /** The word at a physical address of the managed pages. */
  function Physical(mem: Memory, a: nat): (w: Word)
    requires PAGE_START <= a < PAGE_START + 0x1000 * |mem|
  {
    mem[(a - PAGE_START) / 0x1000][(a - PAGE_START) % 0x1000 / 4]
  }

  /** The walk on physical addresses: bits 31 to 20 select one of 4096 words from the table's address on, which
      holds the address of 256 words of which bits 19 to 12 select one. */
  lemma WalkInMemory(mem: Memory, table: nat, va: Word)
    requires table + 4 <= |mem|
    ensures var first := PageAddress(table) + 4 * (va / 0x10_0000);
            && PAGE_START <= first < PAGE_START + 0x1000 * |mem|
            && var e := Physical(mem, first);
            var second := e - e % 0x400 + 4 * (va / 0x1000 % 0x100);
            Translate(mem, table, va)
            == if e % 4 == 1 && PAGE_START <= second < PAGE_START + 0x1000 * |mem| then Small(Physical(mem, second))
               else Unmapped
  {
    hide First, Physical, Small;
    var e := First(mem, table, Section(va));
    FirstInMemory(mem, table, Section(va));
    SecondWord(e, Slot(va));
    WordInPage(mem, e / 0x1000 - FIRST_FRAME, e / 0x400 % 4 * 0x100 + Slot(va));
  }

  lemma WordInPage(mem: Memory, p: int, w: nat)
    requires w < WORDS
    ensures var a := PAGE_START + 0x1000 * p + 4 * w;
            && (PAGE_START <= a < PAGE_START + 0x1000 * |mem| <==> 0 <= p < |mem|)
            && (0 <= p < |mem| ==> Physical(mem, a) == mem[p][w])
  {
  }

  lemma FirstInMemory(mem: Memory, table: nat, i: nat)
    requires i < L1_ENTRY_NUM && table + 4 <= |mem|
    ensures var a := PageAddress(table) + 4 * i;
            PAGE_START <= a < PAGE_START + 0x1000 * |mem| && Physical(mem, a) == First(mem, table, i)
  {
    WordInPage(mem, table + i / 1024, i % 1024);
    assert 4 * i == 0x1000 * (i / 1024) + 4 * (i % 1024);
  }

  lemma SecondWord(e: Word, j: nat)
    requires j < L2_ENTRY_NUM
    ensures e - e % 0x400 + 4 * j == 0x1000 * (e / 0x1000) + 4 * (e / 0x400 % 4 * 0x100 + j)
    ensures e / 0x400 % 4 * 0x100 + j < WORDS
  {
    assert e / 0x400 / 4 == e / 0x1000;
  }

  // ----- one address space

  /** The second-level tables of a space by section, and the frames user code may touch. */
  datatype View = View(tables: map<nat, nat>, frames: set<nat>)

  /** A second-level entry: none, a privileged page, or one of the frames. */
  ghost predicate Entry(e: Word, frames: set<nat>) {
    || e == 0
    || e % 0x1000 == PRIVILEGED
    || (e % 0x1000 == FULL && e >= PAGE_START && PageOf(e) in frames)
  }

  /** Where a second-level table hangs in the first level. */
  function Hung(q: nat): (e: Word)
    requires q < PAGE_NUM
  {
    PageAddress(q) + 1
  }

  ghost predicate FirstOk(mem: Memory, table: nat, v: View) {
    && table + 4 <= PAGE_NUM == |mem|
    && (forall i <- v.tables :: i < L1_ENTRY_NUM && v.tables[i] < PAGE_NUM)
    && forall i :: 0 <= i < L1_ENTRY_NUM ==>
         First(mem, table, i) == if i in v.tables then Hung(v.tables[i]) else 0
  }

  ghost predicate SecondOk(mem: Memory, v: View) {
    && (forall i <- v.tables :: v.tables[i] < |mem|)
    && forall i, j :: i in v.tables && 0 <= j < L2_ENTRY_NUM ==> Entry(mem[v.tables[i]][j], v.frames)
  }

  /** Pages that hold tables are distinct from one another and from the frames. */
  ghost predicate Distinct(table: nat, v: View) {
    && (forall i, k :: i in v.tables && k in v.tables && i != k ==> v.tables[i] != v.tables[k])
    && (forall i <- v.tables :: !(table <= v.tables[i] < table + 4) && v.tables[i] !in v.frames)
    && (forall f <- v.frames :: !(table <= f < table + 4))
  }

  ghost predicate SpaceOk(mem: Memory, table: nat, v: View) {
    FirstOk(mem, table, v) && SecondOk(mem, v) && Distinct(table, v)
  }

  lemma HungBack(q: nat)
    requires q < PAGE_NUM
    ensures var e := Hung(q);
            e % 4 == 1 && e / 0x1000 - FIRST_FRAME == q && e / 0x400 % 4 == 0 && e % 2 == 1
  {
    WordOfPage(FIRST_FRAME + q);
  }

  /** A page address with its lowest bit set. */
  lemma WordOfPage(n: nat)
    ensures var e := 0x1000 * n + 1; e % 4 == 1 && e % 2 == 1 && e / 0x1000 == n && e / 0x400 % 4 == 0
  {
    var e := 0x1000 * n + 1;
    assert e == 4 * (0x400 * n) + 1;
    assert e / 0x400 == 4 * n by {
      assert e == 0x400 * (4 * n) + 1;
    }
  }

  /** The walk finds what the space says. */
  lemma Walk(mem: Memory, table: nat, v: View, va: Word)
    requires FirstOk(mem, table, v)
    ensures Translate(mem, table, va) ==
            if Section(va) in v.tables then Small(mem[v.tables[Section(va)]][Slot(va)]) else Unmapped
  {
    var i := Section(va);
    if i in v.tables {
      HungBack(v.tables[i]);
    }
  }

  lemma SmallEntry(e: Word, frames: set<nat>)
    requires Entry(e, frames) && Small(e).Mapped? && Small(e).full
    ensures e >= PAGE_START && PageOf(e) in frames && Small(e).frame == FIRST_FRAME + PageOf(e)
  {
    assert e % 0x1000 == FULL;
  }

  /** User code reaches frames of its own space only, never a page that holds a table. */
  lemma FullIsOwn(mem: Memory, table: nat, v: View, va: Word)
    requires SpaceOk(mem, table, v)
    ensures var t := Translate(mem, table, va);
            t.Mapped? && t.full ==>
              && t.frame >= FIRST_FRAME && t.frame - FIRST_FRAME in v.frames
              && !(table <= t.frame - FIRST_FRAME < table + 4)
              && t.frame - FIRST_FRAME !in v.tables.Values
  {
    Walk(mem, table, v, va);
    var i := Section(va);
    if i in v.tables {
      var e := mem[v.tables[i]][Slot(va)];
      if Small(e).Mapped? && Small(e).full {
        hide Small, Entry;
        SmallEntry(e, v.frames);
      }
    }
  }

  // ----- changing a space

  /** Memory with one first-level descriptor replaced. */
  function SetFirst(mem: Memory, table: nat, i: nat, e: Word): (r: Memory)
    requires i < L1_ENTRY_NUM && table + 4 <= |mem|
    ensures |r| == |mem|
  {
    mem[table + i / 1024 := mem[table + i / 1024][i % 1024 := e]]
  }

  lemma FirstSet(mem: Memory, table: nat, i: nat, e: Word, k: nat)
    requires i < L1_ENTRY_NUM && k < L1_ENTRY_NUM && table + 4 <= |mem|
    ensures First(SetFirst(mem, table, i, e), table, k) == if k == i then e else First(mem, table, k)
  {
    if i / 1024 == k / 1024 && i % 1024 == k % 1024 {
      assert i == 1024 * (i / 1024) + i % 1024 && k == 1024 * (k / 1024) + k % 1024;
    }
  }

  /** Two memories agree on the pages of a space that hold tables. */
  ghost predicate SameTables(mem: Memory, now: Memory, table: nat, v: View) {
    && |mem| == |now|
    && (forall p :: table <= p < table + 4 && p < |mem| ==> now[p] == mem[p])
    && forall i <- v.tables :: v.tables[i] < |mem| ==> now[v.tables[i]] == mem[v.tables[i]]
  }

  /** A space does not depend on anything but its tables. */
  lemma SpaceFrame(mem: Memory, now: Memory, table: nat, v: View)
    requires SpaceOk(mem, table, v) && SameTables(mem, now, table, v)
    ensures SpaceOk(now, table, v)
    ensures forall va: Word :: Translate(now, table, va) == Translate(mem, table, va)
  {
    FirstFrame(mem, now, table, v);
    hide Distinct, Small, FirstOk, Section, Slot, Translate, Entry;
    forall va: Word ensures Translate(now, table, va) == Translate(mem, table, va) {
      Walk(mem, table, v, va);
      Walk(now, table, v, va);
    }
  }

  lemma FirstFrame(mem: Memory, now: Memory, table: nat, v: View)
    requires FirstOk(mem, table, v) && SameTables(mem, now, table, v)
    ensures FirstOk(now, table, v)
  {
    forall i | 0 <= i < L1_ENTRY_NUM ensures First(now, table, i) == First(mem, table, i) {
      assert now[table + i / 1024] == mem[table + i / 1024];
    }
  }

  /** A cleared first-level table is an empty space. */
  lemma EmptySpace(mem: Memory, table: nat)
    requires table + 4 <= PAGE_NUM == |mem|
    requires forall p :: table <= p < table + 4 ==> mem[p] == Zeros()
    ensures SpaceOk(mem, table, View(map[], {}))
    ensures forall va: Word :: Translate(mem, table, va) == Unmapped
  {
    var v := View(map[], {});
    forall i | 0 <= i < L1_ENTRY_NUM ensures First(mem, table, i) == 0 {
      assert mem[table + i / 1024] == Zeros();
    }
    forall va: Word ensures Translate(mem, table, va) == Unmapped {
      Walk(mem, table, v, va);
    }
  }

  /** Replacing one second-level entry changes the translation of its page alone. */
  lemma SetEntry(mem: Memory, table: nat, v: View, i: nat, j: nat, e: Word, more: set<nat>)
    requires SpaceOk(mem, table, v) && i in v.tables && j < L2_ENTRY_NUM && Entry(e, v.frames + more)
    requires forall f <- more :: f !in v.tables.Values && !(table <= f < table + 4)
    ensures var now := mem[v.tables[i] := mem[v.tables[i]][j := e]];
            && SpaceOk(now, table, v.(frames := v.frames + more))
            && forall va: Word ::
                 Translate(now, table, va)
                 == if Section(va) == i && Slot(va) == j then Small(e) else Translate(mem, table, va)
  {
    var q := v.tables[i];
    var now, w := mem[q := mem[q][j := e]], v.(frames := v.frames + more);
    assert SecondOk(now, w) by {
      hide FirstOk;
      forall k, l | k in w.tables && 0 <= l < L2_ENTRY_NUM ensures Entry(now[w.tables[k]][l], w.frames) {
        assert (k == i && l == j) || now[w.tables[k]][l] == mem[w.tables[k]][l];
      }
    }
    assert FirstOk(now, table, w) by { SetSecondFirst(mem, table, v, w, q, now[q]); }
    assert Distinct(table, w);
    forall va: Word
      ensures Translate(now, table, va)
              == if Section(va) == i && Slot(va) == j then Small(e) else Translate(mem, table, va)
    {
      hide FirstOk, Section, Slot, Translate, Entry, Small;
      Walk(mem, table, v, va);
      Walk(now, table, w, va);
    }
  }

  lemma SetSecondFirst(mem: Memory, table: nat, v: View, w: View, q: nat, words: PageWords)
    requires FirstOk(mem, table, v) && w.tables == v.tables && q < |mem| && !(table <= q < table + 4)
    ensures FirstOk(mem[q := words], table, w)
  {
    var now := mem[q := words];
    forall i | 0 <= i < L1_ENTRY_NUM ensures First(now, table, i) == First(mem, table, i) {
      assert now[table + i / 1024] == mem[table + i / 1024];
    }
  }

  /** Hanging up a cleared second-level table changes no translation. */
  lemma AddTable(mem: Memory, table: nat, v: View, i: nat, q: nat)
    requires SpaceOk(mem, table, v) && i < L1_ENTRY_NUM && i !in v.tables && q < PAGE_NUM
    requires q !in v.tables.Values && q !in v.frames && !(table <= q < table + 4)
    requires forall j :: 0 <= j < L2_ENTRY_NUM ==> mem[q][j] == 0
    ensures var now := SetFirst(mem, table, i, Hung(q));
            && SpaceOk(now, table, v.(tables := v.tables[i := q]))
            && forall va: Word :: Translate(now, table, va) == Translate(mem, table, va)
  {
    var now, w := SetFirst(mem, table, i, Hung(q)), v.(tables := v.tables[i := q]);
    AddTableFirst(mem, table, v, i, q);
    SetFirstElsewhere(mem, table, i, Hung(q));
    hide FirstOk, SetFirst, First, Hung, Section, Slot, Translate, Entry;
    ZeroEntry(v.frames);
    EmptyTableWalks(mem, now, table, v, i, q);
  }

  lemma EmptyTableWalks(mem: Memory, now: Memory, table: nat, v: View, i: nat, q: nat)
    requires i !in v.tables && q < PAGE_NUM == |now|
    requires FirstOk(mem, table, v) && FirstOk(now, table, v.(tables := v.tables[i := q]))
    requires forall k <- v.tables :: now[v.tables[k]] == mem[v.tables[k]]
    requires forall j :: 0 <= j < L2_ENTRY_NUM ==> now[q][j] == 0
    ensures forall va: Word :: Translate(now, table, va) == Translate(mem, table, va)
  {
    forall va: Word ensures Translate(now, table, va) == Translate(mem, table, va) {
      Walk(mem, table, v, va);
      Walk(now, table, v.(tables := v.tables[i := q]), va);
    }
  }

  lemma ZeroEntry(frames: set<nat>)
    ensures Entry(0, frames)
  {
  }

  lemma AddTableFirst(mem: Memory, table: nat, v: View, i: nat, q: nat)
    requires FirstOk(mem, table, v) && i < L1_ENTRY_NUM && i !in v.tables && q < PAGE_NUM
    ensures FirstOk(SetFirst(mem, table, i, Hung(q)), table, v.(tables := v.tables[i := q]))
  {
    hide First, SetFirst, Hung;
    var now, w := SetFirst(mem, table, i, Hung(q)), v.(tables := v.tables[i := q]);
    forall k | 0 <= k < L1_ENTRY_NUM ensures First(now, table, k) == if k in w.tables then Hung(w.tables[k]) else 0 {
      FirstSet(mem, table, i, Hung(q), k);
    }
  }

  lemma SetFirstElsewhere(mem: Memory, table: nat, i: nat, e: Word)
    requires i < L1_ENTRY_NUM && table + 4 <= |mem|
    ensures forall p :: 0 <= p < |mem| && !(table <= p < table + 4) ==> SetFirst(mem, table, i, e)[p] == mem[p]
  {
  }
}
