/** Constants of the page allocator and the arithmetic of aligned power-of-two blocks. */
module Pages {
  const PAGE_START := 0x65000000
  const PAGE_SIZE := 0x1000
  const PAGE_NUM := 0x4000
  const PAGE_MAX_ORDER := 10
  const PAGE_MAX_DEPTH := PAGE_MAX_ORDER + 1

  /** `page_address` */
  function PageAddress(p: nat): nat {
    PAGE_START + PAGE_SIZE * p
  }

  /** `page_find_by_address` for an address of the managed pages */
  function PageOf(address: nat): nat
    requires address >= PAGE_START
  {
    (address - PAGE_START) / PAGE_SIZE
  }

  function Pow2(n: nat): (r: nat)
    ensures r >= 1
  {
    if n == 0 then 1 else 2 * Pow2(n - 1)
  }

  /** `p >> o` */
  function ShiftRight(p: nat, o: nat): nat {
    if o == 0 then p else ShiftRight(p / 2, o - 1)
  }

  ghost predicate Aligned(p: nat, o: nat)
    decreases o
  {
    o == 0 || (p % 2 == 0 && Aligned(p / 2, o - 1))
  }

  /** A block of order `o` that starts at page `p` lies inside the managed pages. */
  ghost predicate BlockAt(p: nat, o: nat) {
    o <= PAGE_MAX_ORDER && Aligned(p, o) && p + Pow2(o) <= PAGE_NUM
  }

  /** The index of the neighbour a block of order `o` merges with. */
  function BuddyIndex(p: nat, o: nat): int {
    if ShiftRight(p, o) % 2 == 1 then p - Pow2(o) else p + Pow2(o)
  }

  lemma PowMono(i: nat, j: nat)
    requires i <= j
    ensures Pow2(i) <= Pow2(j)
    ensures i < j ==> 2 * Pow2(i) <= Pow2(j)
  {
    if i < j { PowMono(i, j - 1); }
  }

  lemma PowMax()
    ensures Pow2(PAGE_MAX_ORDER) == 1024
  {
    assert Pow2(5) == 32;
    assert Pow2(10) == 2 * Pow2(9) == 4 * Pow2(8) == 8 * Pow2(7) == 16 * Pow2(6) == 32 * Pow2(5);
  }

  lemma {:induction false} AlignedDown(p: nat, i: nat, j: nat)
    requires i <= j && Aligned(p, j)
    ensures Aligned(p, i)
    decreases i
  {
    if i > 0 { AlignedDown(p / 2, i - 1, j - 1); }
  }

  /** A block of order `o + 1` is two aligned halves that are each other's buddies. */
  lemma {:induction false} Halves(p: nat, o: nat)
    requires Aligned(p, o + 1)
    ensures Aligned(p, o) && Aligned(p + Pow2(o), o)
    ensures BuddyIndex(p, o) == p + Pow2(o) && BuddyIndex(p + Pow2(o), o) == p
    decreases o
  {
    if o > 0 {
      Halves(p / 2, o - 1);
      assert (p + Pow2(o)) / 2 == p / 2 + Pow2(o - 1);
    }
  }

  lemma {:induction false} Enclosing(p: nat, o: nat)
    requires Aligned(p, o)
    ensures ShiftRight(p, o) % 2 == 0 ==> Aligned(p, o + 1)
    ensures ShiftRight(p, o) % 2 == 1 ==> Pow2(o) <= p && Aligned(p - Pow2(o), o + 1)
    decreases o
  {
    if o > 0 {
      Enclosing(p / 2, o - 1);
      if Pow2(o) <= p {
        assert (p - Pow2(o)) / 2 == p / 2 - Pow2(o - 1);
      }
    } else {
      assert Aligned(p / 2, 0) && (p > 0 ==> Aligned((p - 1) / 2, 0));
    }
  }

  /** An aligned block that starts below an aligned limit ends at or below it. */
  lemma {:induction false} Fits(p: nat, o: nat, n: nat)
    requires Aligned(p, o) && Aligned(n, o) && p < n
    ensures p + Pow2(o) <= n
    decreases o
  {
    if o > 0 { Fits(p / 2, o - 1, n / 2); }
  }

  lemma PageNumAligned()
    ensures Aligned(PAGE_NUM, PAGE_MAX_ORDER)
  {
    assert Aligned(0x200, 5);
    assert Aligned(0x4000, 10);
  }

  /** The number of pages is a multiple of the largest block, so an aligned block always fits. */
  lemma FitsUp(p: nat, o: nat)
    requires o <= PAGE_MAX_ORDER && Aligned(p, o) && p < PAGE_NUM
    ensures BlockAt(p, o)
  {
    PageNumAligned();
    AlignedDown(PAGE_NUM, o, PAGE_MAX_ORDER);
    Fits(p, o, PAGE_NUM);
  }

  /** The lower of a block and its buddy is the block of the next order that covers both. */
  lemma BuddyProperties(p: nat, o: nat)
    requires BlockAt(p, o) && o < PAGE_MAX_ORDER
    ensures var b := BuddyIndex(p, o);
            && 0 <= b && BlockAt(b, o) && BuddyIndex(b, o) == p
            && (if ShiftRight(p, o) % 2 == 1 then b + Pow2(o) == p && BlockAt(b, o + 1)
                else p + Pow2(o) == b && BlockAt(p, o + 1))
  {
    Enclosing(p, o);
    var lo := if ShiftRight(p, o) % 2 == 1 then p - Pow2(o) else p;
    Halves(lo, o);
    FitsUp(lo, o + 1);
  }

  /** Aligned blocks that overlap are nested, the smaller inside the larger. */
  lemma {:induction false} Nested(a: nat, i: nat, b: nat, j: nat)
    requires Aligned(a, i) && Aligned(b, j) && i <= j
    requires a < b + Pow2(j) && b < a + Pow2(i)
    ensures b <= a && a + Pow2(i) <= b + Pow2(j)
    decreases i
  {
    if i > 0 { Nested(a / 2, i - 1, b / 2, j - 1); }
  }
}
