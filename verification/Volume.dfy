/** The files of a volume: their zones, and what each kind of disk write leaves alone. */
module Volume {
  import opened Blocks
  import opened ZoneTree
  import opened Bitmap
  import opened Layout

  ghost predicate ZonesHeld(d: Disk, sb: Super, zs: seq<nat>) {
    forall z :: z in zs ==> ZoneOk(sb, z) && Marked(d, sb, z)
  }

  ghost predicate Apart(a: seq<nat>, b: seq<nat>) {
    forall z :: z in a ==> z !in b
  }

  function SizeOf(n: Node): nat {
    n[SIZE_WORD]
  }

  /** Inode `ix` is allocated and is a file on the zones `zs`, one block ahead of its size. */
  ghost predicate FileIn(d: Disk, sb: Super, ix: nat, zs: seq<nat>) {
    && ValidIndex(sb, ix) && ix < sb.InodeBits() && GetBit(d, IMAP_START, ix)
    && NodeBlock(sb, ix) < |d|
    && FileOk(d, NodeAt(d, sb, ix), zs) && ZonesHeld(d, sb, zs)
    && |zs| == ZonesFor(SizeOf(NodeAt(d, sb, ix)) / BLOCK_SIZE)
  }

  /** The files of the volume, each on zones of its own. */
  ghost predicate VolOk(d: Disk, sb: Super, files: map<nat, seq<nat>>) {
    && GoodLayout(sb, d) && GetBit(d, IMAP_START, 0) && GetBit(d, sb.ZmapStart(), 0)
    && (forall ix <- files :: FileIn(d, sb, ix, files[ix]))
    && (forall ix, jx :: ix in files && jx in files && ix != jx ==> Apart(files[ix], files[jx]))
  }

  /** The file being worked on: its inode `n` in memory, its zones apart from all other files'. */
  ghost predicate Working(d: Disk, sb: Super, rest: map<nat, seq<nat>>, n: Node, zs: seq<nat>) {
    && VolOk(d, sb, rest)
    && FileOk(d, n, zs) && ZonesHeld(d, sb, zs)
    && (forall jx <- rest :: Apart(zs, rest[jx]))
  }

  // ----- frames

  lemma BitFrame(d: Disk, d': Disk, start: nat, i: nat)
    requires |d'| == |d| && (start + i / 8 / BLOCK_SIZE < |d| ==>
               d'[start + i / 8 / BLOCK_SIZE] == d[start + i / 8 / BLOCK_SIZE])
    ensures GetBit(d', start, i) == GetBit(d, start, i)
  {
  }

  lemma ImapFrame(d: Disk, d': Disk, sb: Super, ix: nat)
    requires GoodLayout(sb, d) && |d'| == |d| && ix < sb.InodeBits()
    requires forall k :: IMAP_START <= k < sb.ZmapStart() ==> d'[k] == d[k]
    ensures GetBit(d', IMAP_START, ix) == GetBit(d, IMAP_START, ix)
  {
    BitFrame(d, d', IMAP_START, ix);
  }

  lemma ZmapFrame(d: Disk, d': Disk, sb: Super, z: nat)
    requires GoodLayout(sb, d) && |d'| == |d| && ZoneOk(sb, z)
    requires forall k :: sb.ZmapStart() <= k < sb.TableStart() ==> d'[k] == d[k]
    ensures Marked(d', sb, z) == Marked(d, sb, z)
  {
    ZoneInRange(sb, d, z);
    BitFrame(d, d', sb.ZmapStart(), z - sb.firstDataZone + 1);
  }

  lemma NodeFrame(d: Disk, d': Disk, sb: Super, ix: nat)
    requires |d'| == |d| && ix > 0 && NodeBlock(sb, ix) < |d| && d'[NodeBlock(sb, ix)] == d[NodeBlock(sb, ix)]
    ensures NodeAt(d', sb, ix) == NodeAt(d, sb, ix)
  {
  }

  /** A file is untouched while its inode block, its inode bit and its zones are. */
  lemma FileInFrame(d: Disk, d': Disk, sb: Super, ix: nat, zs: seq<nat>)
    requires GoodLayout(sb, d) && FileIn(d, sb, ix, zs) && |d'| == |d|
    requires NodeAt(d', sb, ix) == NodeAt(d, sb, ix) && GetBit(d', IMAP_START, ix)
    requires forall z :: z in zs && z < |d| ==> d'[z] == d[z]
    requires forall z :: z in zs && sb.firstDataZone <= z ==> Marked(d', sb, z)
    ensures FileIn(d', sb, ix, zs)
  {
    hide NodeAt, GetBit, Marked;
    forall q | ValidSlot(q) && IsIndex(q) && Rank(q) < |zs| ensures d'[zs[Rank(q)]] == d[zs[Rank(q)]] {
      assert zs[Rank(q)] in zs;
    }
    FileFrame(d, d', NodeAt(d, sb, ix), zs);
  }

  /** Writing a block that belongs to no file of the volume leaves the volume as it is. */
  lemma VolBlock(d: Disk, sb: Super, files: map<nat, seq<nat>>, k: nat, b: Block)
    requires VolOk(d, sb, files) && sb.firstDataZone <= k < |d|
    requires forall ix <- files :: k !in files[ix]
    ensures VolOk(d[k := b], sb, files)
  {
    hide FileIn;
    var d' := d[k := b];
    forall ix | ix in files ensures FileIn(d', sb, ix, files[ix]) {
      VolBlockFile(d, sb, ix, files[ix], k, b);
    }
    BitFrame(d, d', IMAP_START, 0);
    BitFrame(d, d', sb.ZmapStart(), 0);
  }

  lemma VolBlockFile(d: Disk, sb: Super, ix: nat, zs: seq<nat>, k: nat, b: Block)
    requires GoodLayout(sb, d) && FileIn(d, sb, ix, zs) && sb.firstDataZone <= k < |d| && k !in zs
    ensures FileIn(d[k := b], sb, ix, zs)
  {
    var d' := d[k := b];
    NodeBelowZones(sb, d, ix);
    NodeFrame(d, d', sb, ix);
    ImapFrame(d, d', sb, ix);
    hide FileOk, GetBit, NodeAt, Marked;
    forall z | z in zs && sb.firstDataZone <= z ensures Marked(d', sb, z) { ZmapFrame(d, d', sb, z); }
    FileInFrame(d, d', sb, ix, zs);
  }

  /** Only the zone bitmap differs, and the zones in use are still marked. */
  lemma VolZmap(d: Disk, d': Disk, sb: Super, files: map<nat, seq<nat>>)
    requires VolOk(d, sb, files) && OnlyZmap(d, d', sb)
    requires forall ix <- files :: ZonesHeld(d', sb, files[ix])
    requires GetBit(d', sb.ZmapStart(), 0)
    ensures VolOk(d', sb, files)
  {
    hide GetBit;
    forall ix | ix in files ensures FileIn(d', sb, ix, files[ix]) {
      VolZmapFile(d, d', sb, ix, files[ix]);
    }
    BitFrame(d, d', IMAP_START, 0);
  }

  ghost predicate OnlyZmap(d: Disk, d': Disk, sb: Super) {
    |d'| == |d| && forall k :: 0 <= k < |d| && !(sb.ZmapStart() <= k < sb.TableStart()) ==> d'[k] == d[k]
  }

  lemma VolZmapFile(d: Disk, d': Disk, sb: Super, ix: nat, zs: seq<nat>)
    requires GoodLayout(sb, d) && FileIn(d, sb, ix, zs) && OnlyZmap(d, d', sb) && ZonesHeld(d', sb, zs)
    ensures FileIn(d', sb, ix, zs)
  {
    NodeBelowZones(sb, d, ix);
    NodeFrame(d, d', sb, ix);
    ImapFrame(d, d', sb, ix);
    hide FileOk, GetBit, NodeAt, Marked;
    forall z | z in zs && z < |d| ensures d'[z] == d[z] { ZoneInRange(sb, d, z); }
    FileInFrame(d, d', sb, ix, zs);
  }

  // ----- taking and giving back a zone

  function ZoneBit(sb: Super, z: nat): nat
    requires sb.firstDataZone <= z
  {
    z - sb.firstDataZone + 1
  }

  lemma MarkZone(d: Disk, sb: Super, z: nat)
    requires GoodLayout(sb, d) && ZoneOk(sb, z)
    ensures sb.ZmapStart() + ZoneBit(sb, z) / 8 / BLOCK_SIZE < |d|
    ensures var d' := PutBit(d, sb.ZmapStart(), ZoneBit(sb, z));
            && OnlyZmap(d, d', sb)
            && (forall y :: sb.firstDataZone <= y ==> Marked(d', sb, y) == (y == z || Marked(d, sb, y)))
            && (GetBit(d, sb.ZmapStart(), 0) ==> GetBit(d', sb.ZmapStart(), 0))
            && FreeZones(d', sb) == FreeZones(d, sb) - {z}
  {
    ZoneInRange(sb, d, z);
    hide GetBit;
    var d' := PutBit(d, sb.ZmapStart(), ZoneBit(sb, z));
    forall y | sb.firstDataZone <= y ensures Marked(d', sb, y) == (y == z || Marked(d, sb, y)) {
      OneBit(d, sb.ZmapStart(), ZoneBit(sb, z), ZoneBit(sb, y));
    }
    OneBit(d, sb.ZmapStart(), ZoneBit(sb, z), 0);
  }

  lemma UnmarkZone(d: Disk, sb: Super, z: nat)
    requires GoodLayout(sb, d) && ZoneOk(sb, z)
    ensures sb.ZmapStart() + ZoneBit(sb, z) / 8 / BLOCK_SIZE < |d|
    ensures var d' := DropBit(d, sb.ZmapStart(), ZoneBit(sb, z));
            && OnlyZmap(d, d', sb)
            && (forall y :: sb.firstDataZone <= y ==> Marked(d', sb, y) == (y != z && Marked(d, sb, y)))
            && (GetBit(d, sb.ZmapStart(), 0) ==> GetBit(d', sb.ZmapStart(), 0))
            && FreeZones(d', sb) == FreeZones(d, sb) + {z}
  {
    ZoneInRange(sb, d, z);
    hide GetBit;
    var d' := DropBit(d, sb.ZmapStart(), ZoneBit(sb, z));
    forall y | sb.firstDataZone <= y ensures Marked(d', sb, y) == (y != z && Marked(d, sb, y)) {
      OneBit(d, sb.ZmapStart(), ZoneBit(sb, z), ZoneBit(sb, y));
    }
    OneBit(d, sb.ZmapStart(), ZoneBit(sb, z), 0);
  }

  lemma ZmapFileOk(d: Disk, d': Disk, sb: Super, n: Node, zs: seq<nat>)
    requires GoodLayout(sb, d) && OnlyZmap(d, d', sb) && FileOk(d, n, zs) && ZonesHeld(d, sb, zs)
    ensures FileOk(d', n, zs)
  {
    forall q | ValidSlot(q) && IsIndex(q) && Rank(q) < |zs| ensures d'[zs[Rank(q)]] == d[zs[Rank(q)]] {
      assert zs[Rank(q)] in zs;
    }
    FileFrame(d, d', n, zs);
  }

  /** Marking a free zone disturbs nothing. */
  lemma WorkingMark(d: Disk, sb: Super, rest: map<nat, seq<nat>>, n: Node, zs: seq<nat>, z: nat)
    requires Working(d, sb, rest, n, zs) && ZoneOk(sb, z) && !Marked(d, sb, z)
    ensures sb.ZmapStart() + ZoneBit(sb, z) / 8 / BLOCK_SIZE < |d|
    ensures Working(PutBit(d, sb.ZmapStart(), ZoneBit(sb, z)), sb, rest, n, zs)
    ensures z !in zs && forall jx <- rest :: z !in rest[jx]
  {
    hide GetBit, FileOk, PutBit, Marked;
    MarkZone(d, sb, z);
    var d' := PutBit(d, sb.ZmapStart(), ZoneBit(sb, z));
    forall jx | jx in rest ensures ZonesHeld(d', sb, rest[jx]) {
      assert FileIn(d, sb, jx, rest[jx]);
    }
    hide FileIn;
    VolZmap(d, d', sb, rest);
    ZmapFileOk(d, d', sb, n, zs);
  }

  lemma FreeFrame(d: Disk, d': Disk, sb: Super)
    requires GoodLayout(sb, d) && |d'| == |d|
    requires forall k :: sb.ZmapStart() <= k < sb.TableStart() ==> d'[k] == d[k]
    ensures FreeZones(d', sb) == FreeZones(d, sb)
  {
    hide Marked;
    forall z | ZoneOk(sb, z) ensures Marked(d', sb, z) == Marked(d, sb, z) { ZmapFrame(d, d', sb, z); }
  }

  lemma HeldFrame(d: Disk, d': Disk, sb: Super, zs: seq<nat>)
    requires GoodLayout(sb, d) && |d'| == |d| && ZonesHeld(d, sb, zs)
    requires forall k :: sb.ZmapStart() <= k < sb.TableStart() ==> d'[k] == d[k]
    ensures ZonesHeld(d', sb, zs)
  {
    hide Marked;
    forall z | z in zs ensures ZoneOk(sb, z) && Marked(d', sb, z) { ZmapFrame(d, d', sb, z); }
  }

  /** A store in the tree of the working file touches one of its own index blocks at most. */
  lemma StoreTouches(d: Disk, sb: Super, n: Node, zs: seq<nat>, s: Slot, z: Word) returns (k: nat)
    requires GoodLayout(sb, d) && FileOk(d, n, zs) && ValidSlot(s) && Rank(s) <= |zs|
    requires forall y :: y in zs ==> ZoneOk(sb, y)
    ensures var d' := Store(d, n, s, z).0;
            d' == d || (sb.firstDataZone <= k < |d| && k in zs && d' == d[k := d'[k]])
  {
    k := 0;
    if !InNode(s) {
      ParentZone(d, n, zs, s);
      var p := zs[Rank(Parent(s))];
      assert p in zs;
      k := p;
    }
  }

  lemma WorkingStore(d: Disk, sb: Super, rest: map<nat, seq<nat>>, n: Node, zs: seq<nat>, s: Slot, z: Word)
    requires VolOk(d, sb, rest) && FileOk(d, n, zs) && (forall jx <- rest :: Apart(zs, rest[jx]))
    requires ValidSlot(s) && Rank(s) <= |zs|
    requires forall y :: y in zs ==> ZoneOk(sb, y)
    ensures var d' := Store(d, n, s, z).0;
            && VolOk(d', sb, rest) && FreeZones(d', sb) == FreeZones(d, sb)
            && forall ys :: ZonesHeld(d, sb, ys) ==> ZonesHeld(d', sb, ys)
  {
    hide FileOk, FileIn, Store, Rank, ZonesHeld, Marked;
    var d' := Store(d, n, s, z).0;
    var k := StoreTouches(d, sb, n, zs, s, z);
    if d' != d {
      VolBlock(d, sb, rest, k, d'[k]);
      FreeFrame(d, d', sb);
      forall ys | ZonesHeld(d, sb, ys) ensures ZonesHeld(d', sb, ys) { HeldFrame(d, d', sb, ys); }
    }
  }

  /** Storing a freshly marked zone in the next slot makes it part of the working file. */
  lemma WorkingPush(d: Disk, sb: Super, rest: map<nat, seq<nat>>, n: Node, zs: seq<nat>, s: Slot, z: Word)
    requires Working(d, sb, rest, n, zs) && ValidSlot(s) && Rank(s) == |zs|
    requires ZoneOk(sb, z) && Marked(d, sb, z) && z !in zs && 0 < z < |d| && (forall jx <- rest :: z !in rest[jx])
    requires IsIndex(s) ==> ZeroBlock(d[z])
    ensures var (d', n') := Store(d, n, s, z);
            Working(d', sb, rest, n', zs + [z]) && FreeZones(d', sb) == FreeZones(d, sb)
  {
    hide FileOk, VolOk, Rank, Store, IsIndex, Marked;
    var (d', n') := Store(d, n, s, z);
    WorkingStore(d, sb, rest, n, zs, s, z);
    PushKeepsFile(d, n, zs, s, z);
    assert ZonesHeld(d, sb, zs + [z]);
  }

  /** Giving the last zone back and clearing its slot. */
  lemma WorkingPop(d: Disk, sb: Super, rest: map<nat, seq<nat>>, n: Node, zs: seq<nat>, s: Slot)
    requires Working(d, sb, rest, n, zs) && |zs| > 0 && ValidSlot(s) && Rank(s) == |zs| - 1
    ensures var z := zs[|zs| - 1];
            && sb.firstDataZone <= z && sb.ZmapStart() + ZoneBit(sb, z) / 8 / BLOCK_SIZE < |d|
            && var d1 := DropBit(d, sb.ZmapStart(), ZoneBit(sb, z));
            var (d2, n2) := Store(d1, n, s, 0);
            && Working(d2, sb, rest, n2, zs[..|zs| - 1])
            && FreeZones(d2, sb) == FreeZones(d, sb) + {z} && FileOk(d1, n, zs)
  {
    hide FileOk, Rank, Store, IsIndex, Marked, GetBit, DropBit;
    var m := |zs| - 1;
    var z := zs[m];
    assert z in zs;
    UnmarkZone(d, sb, z);
    var d1 := DropBit(d, sb.ZmapStart(), ZoneBit(sb, z));
    ZmapFileOk(d, d1, sb, n, zs);
    PopHeld(d, sb, n, zs);
    forall jx | jx in rest ensures ZonesHeld(d1, sb, rest[jx]) { assert FileIn(d, sb, jx, rest[jx]); }
    hide FileIn;
    VolZmap(d, d1, sb, rest);
    assert ZonesHeld(d1, sb, zs[..m]);
    hide VolOk;
    WorkingStore(d1, sb, rest, n, zs, s, 0);
    PopKeepsFile(d1, n, zs, s);
  }

  lemma PopHeld(d: Disk, sb: Super, n: Node, zs: seq<nat>)
    requires FileOk(d, n, zs) && |zs| > 0
    ensures zs[|zs| - 1] !in zs[..|zs| - 1] && forall z :: z in zs[..|zs| - 1] ==> z in zs
  {
  }
}
