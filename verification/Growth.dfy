/** The supply of free zones, and which zones a growing file is about to take. */
module Growth {
  import opened Blocks
  import opened ZoneTree
  import opened Bitmap
  import opened Layout
  import opened Volume

  ghost predicate IsLeast(m: nat, s: set<nat>) {
    m in s && forall x <- s :: m <= x
  }

  lemma {:induction false} HasLeast(s: set<nat>)
    requires s != {}
    ensures exists m :: IsLeast(m, s)
    decreases |s|
  {
    var m :| m in s;
    var rest := s - {m};
    if rest == {} {
      assert s == {m};
      assert IsLeast(m, s);
    } else {
      HasLeast(rest);
      var k :| IsLeast(k, rest);
      assert s == rest + {m};
      assert IsLeast(if k < m then k else m, s);
    }
  }

  ghost function MinOf(s: set<nat>): (m: nat)
    requires s != {}
    ensures m in s && forall x <- s :: m <= x
  {
    HasLeast(s);
    var m :| IsLeast(m, s);
    m
  }

  /** The ranks at which an index block is taken. */
  predicate IndexRank(r: nat) {
    r == DIRECT || r == DOUBLE + 1 || (r > DOUBLE + 1 && (r - DOUBLE - 2) % (WORDS + 1) == 0)
  }

  lemma IndexRanks(s: Slot)
    requires ValidSlot(s)
    ensures IndexRank(Rank(s)) <==> IsIndex(s)
  {
  }

  /** Of the zones a file will take to grow from `c` to `m` zones, out of the free zones `free`
      and least first, those that become index blocks read as zeros. */
  ghost predicate Clean(d: Disk, free: set<nat>, c: nat, m: nat)
    decreases m - c
  {
    c < m && free != {} ==>
      var z := MinOf(free);
      && (IndexRank(c) ==> z < |d| && ZeroBlock(d[z]))
      && Clean(d, free - {z}, c + 1, m)
  }

  lemma {:induction false} CleanFrame(d: Disk, d': Disk, free: set<nat>, c: nat, m: nat)
    requires Clean(d, free, c, m) && |d'| == |d| && forall z <- free :: z < |d| ==> d'[z] == d[z]
    ensures Clean(d', free, c, m)
    decreases m - c
  {
    if c < m && free != {} {
      CleanFrame(d, d', free - {MinOf(free)}, c + 1, m);
    }
  }

  lemma {:induction false} CleanShorter(d: Disk, free: set<nat>, c: nat, m: nat, k: nat)
    requires Clean(d, free, c, m) && k <= m
    ensures Clean(d, free, c, k)
    decreases m - c
  {
    if c < k && free != {} {
      CleanShorter(d, free - {MinOf(free)}, c + 1, m, k);
    }
  }

  /** If every free zone reads as zeros the condition holds for any growth. */
  lemma {:induction false} ZeroedIsClean(d: Disk, free: set<nat>, c: nat, m: nat)
    requires forall z <- free :: z < |d| && ZeroBlock(d[z])
    ensures Clean(d, free, c, m)
    decreases m - c
  {
    if c < m && free != {} {
      ZeroedIsClean(d, free - {MinOf(free)}, c + 1, m);
    }
  }

  ghost predicate IndexZone(zs: seq<nat>, k: nat) {
    exists r :: 0 <= r < |zs| && zs[r] == k && IndexRank(r)
  }

  /** The disks differ in the zone bitmap and in index blocks of the file only. */
  ghost predicate OnlyIndex(d: Disk, d': Disk, sb: Super, zs: seq<nat>) {
    && |d'| == |d|
    && (forall k :: 0 <= k < sb.ZmapStart() && k < |d| ==> d'[k] == d[k])
    && (forall k :: sb.TableStart() <= k < |d| && !IndexZone(zs, k) ==> d'[k] == d[k])
  }

  lemma IndexZoneGrows(zs: seq<nat>, ys: seq<nat>, k: nat)
    requires zs <= ys && IndexZone(zs, k)
    ensures IndexZone(ys, k)
  {
    var r :| 0 <= r < |zs| && zs[r] == k && IndexRank(r);
    assert ys[r] == k;
  }

  lemma OnlyIndexTrans(d0: Disk, d1: Disk, d2: Disk, sb: Super, zs: seq<nat>, ys: seq<nat>)
    requires OnlyIndex(d0, d1, sb, zs) && OnlyIndex(d1, d2, sb, ys) && zs <= ys
    ensures OnlyIndex(d0, d2, sb, ys)
  {
    hide IndexZone;
    forall k | sb.TableStart() <= k < |d0| && !IndexZone(ys, k) ensures d2[k] == d0[k] {
      if IndexZone(zs, k) { IndexZoneGrows(zs, ys, k); }
    }
  }

  /** Storing a zone number touches an index block of the file at most. */
  lemma StoreOnlyIndex(d: Disk, sb: Super, n: Node, zs: seq<nat>, s: Slot, z: Word)
    requires FileOk(d, n, zs) && ValidSlot(s) && Rank(s) <= |zs| && forall y :: y in zs ==> sb.TableStart() <= y
    requires sb.ZmapStart() <= sb.TableStart()
    ensures OnlyIndex(d, Store(d, n, s, z).0, sb, zs)
  {
    if !InNode(s) {
      ParentZone(d, n, zs, s);
      var r := Rank(Parent(s));
      IndexRanks(Parent(s));
      assert zs[r] in zs;
      assert IndexZone(zs, zs[r]);
    }
  }

  /** `mark_map` on the zone bitmap takes the least free zone. */
  lemma TookLeast(d: Disk, d': Disk, sb: Super, index: nat)
    requires GoodLayout(sb, d) && GetBit(d, sb.ZmapStart(), 0)
    requires TookBit(d, d', sb.ZmapStart(), sb.ZoneBits(), index)
    ensures index == 0 <==> FreeZones(d, sb) == {}
    ensures index == 0 ==> d' == d
    ensures index != 0 ==>
              var z := index + sb.firstDataZone - 1;
              && z == MinOf(FreeZones(d, sb)) && ZoneOk(sb, z) && !Marked(d, sb, z)
              && sb.ZmapStart() + ZoneBit(sb, z) / 8 / BLOCK_SIZE < |d|
              && d' == PutBit(d, sb.ZmapStart(), ZoneBit(sb, z))
  {
    hide GetBit, PutBit;
    var start := sb.ZmapStart();
    if AllSet(d, start, sb.ZoneBits()) {
      forall z | ZoneOk(sb, z) ensures Marked(d, sb, z) { }
    } else {
      var z := index + sb.firstDataZone - 1;
      assert index > 0;
      assert z in FreeZones(d, sb);
      forall y: nat | ZoneOk(sb, y) && y < z ensures Marked(d, sb, y) { }
    }
  }

  /** The state in which a file may grow up to `m` zones. */
  ghost predicate Growing(d: Disk, sb: Super, rest: map<nat, seq<nat>>, n: Node, zs: seq<nat>, m: nat) {
    Working(d, sb, rest, n, zs) && Clean(d, FreeZones(d, sb), |zs|, m)
  }

  /** The zone taken next and the disk once its bit is set. */
  ghost function NextMarked(d: Disk, sb: Super): (r: Disk)
    requires FreeZones(d, sb) != {}
  {
    var z := MinOf(FreeZones(d, sb));
    if sb.ZmapStart() + ZoneBit(sb, z) / 8 / BLOCK_SIZE < |d| then PutBit(d, sb.ZmapStart(), ZoneBit(sb, z)) else d
  }

  lemma NextZone(d: Disk, sb: Super, rest: map<nat, seq<nat>>, n: Node, zs: seq<nat>)
    requires Working(d, sb, rest, n, zs) && FreeZones(d, sb) != {}
    ensures var z, d1 := MinOf(FreeZones(d, sb)), NextMarked(d, sb);
            && 0 < z < |d| && z < 0x1_0000 && ZoneOk(sb, z) && !Marked(d, sb, z) && Marked(d1, sb, z)
            && Working(d1, sb, rest, n, zs) && z !in zs && (forall jx <- rest :: z !in rest[jx])
            && FreeZones(d1, sb) == FreeZones(d, sb) - {z} && OnlyZmap(d, d1, sb) && d1[z] == d[z]
  {
    hide GetBit, PutBit, FileOk;
    var z := MinOf(FreeZones(d, sb));
    ZoneInRange(sb, d, z);
    MarkZone(d, sb, z);
    WorkingMark(d, sb, rest, n, zs, z);
  }

  /** Taking the least free zone for the next slot: the file grows by that zone, and nothing
      else on the disk changes but the zone's bit and one index block of the file. */
  lemma GrowStep(d: Disk, sb: Super, rest: map<nat, seq<nat>>, n: Node, zs: seq<nat>, s: Slot, m: nat)
    requires Growing(d, sb, rest, n, zs, m) && ValidSlot(s) && Rank(s) == |zs| < m && FreeZones(d, sb) != {}
    ensures var z := MinOf(FreeZones(d, sb));
            && 0 < z < |d| && z < 0x1_0000
            && var (d2, n2) := Store(NextMarked(d, sb), n, s, z);
            && Growing(d2, sb, rest, n2, zs + [z], m)
            && FreeZones(d2, sb) == FreeZones(d, sb) - {z}
            && OnlyIndex(d, d2, sb, zs + [z])
  {
    hide FileOk, Rank, Store, IsIndex, Marked, VolOk, NextMarked, OnlyIndex, IndexRank;
    var free := FreeZones(d, sb);
    var z, d1 := MinOf(free), NextMarked(d, sb);
    NextZone(d, sb, rest, n, zs);
    IndexRanks(s);
    WorkingPush(d1, sb, rest, n, zs, s, z);
    GrowRest(d, d1, sb, n, zs, s, m, rest);
  }

  lemma GrowRest(d: Disk, d1: Disk, sb: Super, n: Node, zs: seq<nat>, s: Slot, m: nat, rest: map<nat, seq<nat>>)
    requires Growing(d, sb, rest, n, zs, m) && ValidSlot(s) && Rank(s) == |zs| < m && FreeZones(d, sb) != {}
    requires Working(d1, sb, rest, n, zs) && OnlyZmap(d, d1, sb) && MinOf(FreeZones(d, sb)) < 0x1_0000
    requires FreeZones(d1, sb) == FreeZones(d, sb) - {MinOf(FreeZones(d, sb))}
    ensures var z := MinOf(FreeZones(d, sb));
            var d2 := Store(d1, n, s, z).0;
            && OnlyIndex(d, d2, sb, zs + [z])
            && Clean(d2, FreeZones(d, sb) - {z}, |zs| + 1, m)
  {
    hide FileOk, Rank, Store, IsIndex, FileIn;
    var z := MinOf(FreeZones(d, sb));
    var d2 := Store(d1, n, s, z).0;
    StoreOnlyIndex(d1, sb, n, zs, s, z);
    assert OnlyIndex(d, d1, sb, zs);
    OnlyIndexTrans(d, d1, d2, sb, zs, zs);
    OnlyIndexTrans(d, d2, d2, sb, zs, zs + [z]);
    forall y | y in FreeZones(d, sb) - {z} && y < |d| ensures d2[y] == d[y] {
      assert y !in zs;
    }
    CleanFrame(d, d2, FreeZones(d, sb) - {z}, |zs| + 1, m);
  }

  ghost function Elems(zs: seq<nat>): set<nat> {
    set z | z in zs
  }

  /** The file's zones went from `zs` to `ys` by zones out of the free ones, and only the zone
      bitmap and the file's index blocks changed. */
  ghost predicate Grew(d: Disk, d': Disk, sb: Super, zs: seq<nat>, ys: seq<nat>) {
    && zs <= ys
    && Elems(ys[|zs|..]) <= FreeZones(d, sb)
    && FreeZones(d', sb) == FreeZones(d, sb) - Elems(ys[|zs|..])
    && |FreeZones(d', sb)| + |ys| == |FreeZones(d, sb)| + |zs|
    && OnlyIndex(d, d', sb, ys)
  }

  lemma GrewNothing(d: Disk, sb: Super, zs: seq<nat>)
    ensures Grew(d, d, sb, zs, zs)
  {
  }

  lemma GrewCount(d: Disk, d': Disk, sb: Super, zs: seq<nat>, ys: seq<nat>)
    requires Grew(d, d', sb, zs, ys)
    ensures |FreeZones(d', sb)| + |ys| == |FreeZones(d, sb)| + |zs| && |zs| <= |ys|
  {
  }

  lemma GrewOne(d: Disk, d': Disk, sb: Super, zs: seq<nat>, z: nat)
    requires z in FreeZones(d, sb) && FreeZones(d', sb) == FreeZones(d, sb) - {z}
    requires OnlyIndex(d, d', sb, zs + [z])
    ensures Grew(d, d', sb, zs, zs + [z])
  {
    assert (zs + [z])[|zs|..] == [z];
  }

  lemma ElemsBetween(xs: seq<nat>, ys: seq<nat>, zs: seq<nat>)
    requires xs <= ys <= zs
    ensures Elems(zs[|xs|..]) == Elems(ys[|xs|..]) + Elems(zs[|ys|..])
  {
    assert zs[|xs|..] == ys[|xs|..] + zs[|ys|..];
  }

  lemma TakenTwice(free: set<nat>, a: set<nat>, b: set<nat>)
    requires a <= free && b <= free - a
    ensures a + b <= free && free - (a + b) == free - a - b
  {
  }

  lemma GrewTrans(d0: Disk, d1: Disk, d2: Disk, sb: Super, xs: seq<nat>, ys: seq<nat>, zs: seq<nat>)
    requires Grew(d0, d1, sb, xs, ys) && Grew(d1, d2, sb, ys, zs)
    ensures Grew(d0, d2, sb, xs, zs)
  {
    hide FreeZones, OnlyIndex, Elems;
    OnlyIndexTrans(d0, d1, d2, sb, ys, zs);
    ElemsBetween(xs, ys, zs);
    TakenTwice(FreeZones(d0, sb), Elems(ys[|xs|..]), Elems(zs[|ys|..]));
  }

  /** The file's zones went from `ys` back to `zs`, and the zones above are free again. */
  ghost predicate Shrank(d: Disk, d': Disk, sb: Super, ys: seq<nat>, zs: seq<nat>) {
    && zs <= ys
    && FreeZones(d', sb) == FreeZones(d, sb) + Elems(ys[|zs|..])
    && OnlyIndex(d, d', sb, ys)
  }

  lemma ShrankTrans(d0: Disk, d1: Disk, d2: Disk, sb: Super, xs: seq<nat>, ys: seq<nat>, zs: seq<nat>)
    requires Shrank(d0, d1, sb, xs, ys) && Shrank(d1, d2, sb, ys, zs)
    ensures Shrank(d0, d2, sb, xs, zs)
  {
    hide FreeZones, OnlyIndex;
    OnlyIndexTrans(d1, d2, d2, sb, ys, xs) by { assert OnlyIndex(d2, d2, sb, xs) by { SameOnlyIndex(d2, sb, xs); } }
    OnlyIndexTrans(d0, d1, d2, sb, xs, xs);
    assert xs[|zs|..] == ys[|zs|..] + xs[|ys|..];
    assert Elems(xs[|zs|..]) == Elems(ys[|zs|..]) + Elems(xs[|ys|..]);
  }

  lemma SameOnlyIndex(d: Disk, sb: Super, zs: seq<nat>)
    ensures OnlyIndex(d, d, sb, zs)
  {
  }

  /** Growing a file and shrinking it back restores the zone bitmap exactly. */
  lemma ZonesConserved(d0: Disk, d1: Disk, d2: Disk, sb: Super, zs: seq<nat>, ys: seq<nat>, z: nat)
    requires Grew(d0, d1, sb, zs, ys) && Shrank(d1, d2, sb, ys, zs) && ZoneOk(sb, z)
    ensures Marked(d2, sb, z) <==> Marked(d0, sb, z)
  {
    hide OnlyIndex, Marked;
    assert FreeZones(d2, sb) == FreeZones(d0, sb);
    assert z in FreeZones(d2, sb) <==> !Marked(d2, sb, z);
    assert z in FreeZones(d0, sb) <==> !Marked(d0, sb, z);
  }
}
