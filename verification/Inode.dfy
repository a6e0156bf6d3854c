/** Files: growing and shrinking their zone trees, reading and writing their bytes. */
module Inode {
  import opened Blocks
  import opened ZoneTree
  import opened Bitmap
  import BlockCache
  import opened Layout
  import opened Volume
  import opened Growth
  import opened Content
  import opened Image

  class FileSystem {
    const dev: BlockCache.Device
    const sb: Super
    /** The sizes in the inodes kept in memory. */
    var sizes: map<nat, nat>
    /** The zones of every file. */
    ghost var files: map<nat, seq<nat>>

    ghost predicate Valid()
      reads this, dev
    {
      VolOk(dev.io.disk, sb, files) && Cached(dev.io.disk, sb, files, sizes)
    }

    /** A volume without files */
    constructor (dev: BlockCache.Device, sb: Super)
      requires GoodLayout(sb, dev.io.disk)
      requires GetBit(dev.io.disk, IMAP_START, 0) && GetBit(dev.io.disk, sb.ZmapStart(), 0)
      ensures Valid() && this.dev == dev && this.sb == sb && files == map[]
    {
      this.dev, this.sb := dev, sb;
      sizes, files := map[], map[];
    }

    /** `read_inode` */
    method ReadInode(ix: nat) returns (n: Node)
      requires ix > 0 && NodeBlock(sb, ix) < |dev.io.disk|
      modifies dev
      ensures dev.io.disk == old(dev.io.disk) && n == NodeAt(dev.io.disk, sb, ix)
      ensures HoldsNode(dev.io.disk, sb, ix, n)
    {
      NodeHeld(dev.io.disk, sb, ix);
      var inodes := dev.Load(NodeBlock(sb, ix));
      n := Words(inodes, NodeWord(ix), NODE_WORDS);
    }

    /** `write_inode` */
    method WriteInode(ix: nat, n: Node)
      requires ix > 0 && NodeBlock(sb, ix) < |dev.io.disk|
      modifies dev
      ensures dev.io.disk == WithNode(old(dev.io.disk), sb, ix, n)
      ensures HoldsNode(dev.io.disk, sb, ix, n) && OnlyNodeBytes(old(dev.io.disk), dev.io.disk, sb, ix)
    {
      hide HoldsNode, OnlyNodeBytes;
      NodeBytesOnly(dev.io.disk, sb, ix, n);
      var inodes := dev.Load(NodeBlock(sb, ix));
      dev.Save(NodeBlock(sb, ix), SetWords(inodes, NodeWord(ix), n, NODE_WORDS));
    }

    /** `mark_zmap`: takes the least free zone, 0 if there is none. */
    method MarkZmap() returns (z: nat)
      requires GoodLayout(sb, dev.io.disk) && GetBit(dev.io.disk, sb.ZmapStart(), 0)
      modifies dev
      ensures z == 0 <==> FreeZones(old(dev.io.disk), sb) == {}
      ensures z == 0 ==> dev.io.disk == old(dev.io.disk)
      ensures z != 0 ==> z == MinOf(FreeZones(old(dev.io.disk), sb)) && dev.io.disk == NextMarked(old(dev.io.disk), sb)
    {
      hide GetBit, FreeZones;
      var start := sb.ZmapStart();
      var end := start + sb.zmapBlocks;
      var index := MarkMap(dev, start, end, sb.zones - sb.firstDataZone);
      TookLeast(old(dev.io.disk), dev.io.disk, sb, index);
      if index == 0 {
        return 0;
      }
      return index + sb.firstDataZone - 1;
    }

    /** `unmark_zmap` */
    method UnmarkZmap(z: nat)
      requires GoodLayout(sb, dev.io.disk) && (sb.firstDataZone <= z ==> ZoneOk(sb, z))
      modifies dev
      ensures z < sb.firstDataZone ==> dev.io.disk == old(dev.io.disk)
      ensures sb.firstDataZone <= z ==>
                && sb.ZmapStart() + ZoneBit(sb, z) / 8 / BLOCK_SIZE < |old(dev.io.disk)|
                && dev.io.disk == DropBit(old(dev.io.disk), sb.ZmapStart(), ZoneBit(sb, z))
    {
      if z < sb.firstDataZone {
        return;
      }
      ZoneInRange(sb, dev.io.disk, z);
      UnmarkMap(dev, z - sb.firstDataZone + 1, sb.ZmapStart());
    }

    /** A zone for a pointer kept in the inode, as at the top of the loop of `extend_zone` */
    method TakeInNode(n: Node, z0: nat, ghost s: Slot, ghost rest: map<nat, seq<nat>>, ghost zs: seq<nat>,
                      ghost m: nat)
      returns (ok: bool, n': Node, ghost zs': seq<nat>)
      requires Growing(dev.io.disk, sb, rest, n, zs, m) && ValidSlot(s) && Rank(s) == |zs| < m
      requires InNode(s) && Entry(s) == ZONE_WORD + z0
      modifies dev
      ensures ok <==> FreeZones(old(dev.io.disk), sb) != {}
      ensures !ok ==> dev.io.disk == old(dev.io.disk)
      ensures Growing(dev.io.disk, sb, rest, n', zs', m) && Grew(old(dev.io.disk), dev.io.disk, sb, zs, zs')
      ensures |zs'| == if ok then |zs| + 1 else |zs|
      ensures n' == n[ZONE_WORD + z0 := n'[ZONE_WORD + z0]]
    {
      hide FileOk, FreeZones, Rank, Clean, FileIn, Entry;
      var z := MarkZmap();
      if z == 0 {
        GrewNothing(dev.io.disk, sb, zs);
        return false, n, zs;
      }
      GrowStep(old(dev.io.disk), sb, rest, n, zs, s, m);
      GrewOne(old(dev.io.disk), dev.io.disk, sb, zs, z);
      return true, n[ZONE_WORD + z0 := z], zs + [z];
    }

    /** A zone for a pointer kept in an index block of `extend_zone` */
    method TakeInBlock(n: Node, z1: nat, z2: nat, ghost s: Slot, ghost rest: map<nat, seq<nat>>, ghost zs: seq<nat>,
                       ghost m: nat)
      returns (ok: bool, z: Word, ghost zs': seq<nat>)
      requires Growing(dev.io.disk, sb, rest, n, zs, m) && ValidSlot(s) && Rank(s) == |zs| < m
      requires !InNode(s) && Entry(s) == z2 && z1 == ZoneAt(dev.io.disk, n, Parent(s))
      modifies dev
      ensures ok <==> FreeZones(old(dev.io.disk), sb) != {}
      ensures !ok ==> dev.io.disk == old(dev.io.disk)
      ensures Growing(dev.io.disk, sb, rest, n, zs', m) && Grew(old(dev.io.disk), dev.io.disk, sb, zs, zs')
      ensures |zs'| == if ok then |zs| + 1 else |zs|
      ensures ok ==> zs'[|zs|] == z && z1 < |dev.io.disk| && GetWord(dev.io.disk[z1], z2) == z
    {
      hide FileOk, FreeZones, Rank, Clean, FileIn, Entry, ZoneAt;
      ghost var d := dev.io.disk;
      ParentZone(d, n, zs, s);
      var zones := dev.Load(z1);
      var taken := MarkZmap();
      if taken == 0 {
        GrewNothing(dev.io.disk, sb, zs);
        return false, 0, zs;
      }
      GrowStep(d, sb, rest, n, zs, s, m);
      z := taken;
      NextZone(d, sb, rest, n, zs);
      ZonesAbove(d, sb, n, zs, z1);
      ParentZone(dev.io.disk, n, zs, s);
      WordRoundTrip(zones, z2, z, z2);
      dev.Save(z1, SetWord(zones, z2, z));
      GrewOne(d, dev.io.disk, sb, zs, taken);
      return true, z, zs + [taken];
    }

    /** `extend_zone` succeeds exactly when the free zones suffice. */
    method ExtendZone(n: Node, size: Word, ghost rest: map<nat, seq<nat>>, ghost zs: seq<nat>, ghost m: nat)
      returns (ok: bool, n': Node, ghost zs': seq<nat>)
      requires size / BLOCK_SIZE + 1 < 0x1_0000 && SizeOf(n) / BLOCK_SIZE + 1 < 0x1_0000
      requires |zs| == ZonesFor(SizeOf(n) / BLOCK_SIZE) && ZonesFor(size / BLOCK_SIZE) <= m
      requires Growing(dev.io.disk, sb, rest, n, zs, m)
      modifies dev
      ensures ok <==> ZonesFor(size / BLOCK_SIZE) - |zs| <= |FreeZones(old(dev.io.disk), sb)|
      ensures Growing(dev.io.disk, sb, rest, n', zs', m) && Grew(old(dev.io.disk), dev.io.disk, sb, zs, zs')
      ensures ok && SizeOf(n) / BLOCK_SIZE <= size / BLOCK_SIZE ==>
                |zs'| == ZonesFor(size / BLOCK_SIZE) && SizeOf(n') == size
      ensures size / BLOCK_SIZE < SizeOf(n) / BLOCK_SIZE ==> dev.io.disk == old(dev.io.disk) && n' == n && zs' == zs
      ensures SameButSize(n, n')
    {
      hide FreeZones, Rank, Growing, Grew;
      ghost var d := dev.io.disk;
      var start := n[SIZE_WORD] / BLOCK_SIZE + 1;
      var end := size / BLOCK_SIZE + 1;
      n', zs' := n, zs;
      GrewNothing(d, sb, zs);
      if end < start {
        MoreBlocksMoreZones(end - 1, start - 1);
        return true, n, zs;
      }
      var block := start;
      while block < end
        invariant start <= block <= end
        invariant |zs'| == ZonesFor(block - 1)
        invariant Growing(dev.io.disk, sb, rest, n', zs', m) && Grew(d, dev.io.disk, sb, zs, zs')
        invariant SameAttributes(n, n')
      {
        ghost var d1, ys := dev.io.disk, zs';
        assert ZonesFor(block) <= ZonesFor(end - 1) by {
          if block < end - 1 { MoreBlocksMoreZones(block, end - 1); }
        }
        ok, n', zs' := ExtendBlock(n', block, rest, zs', m);
        GrewTrans(d, d1, dev.io.disk, sb, zs, ys, zs');
        GrewCount(d, dev.io.disk, sb, zs, zs');
        if !ok {
          assert ZonesFor(block) <= ZonesFor(end - 1);
          SetSize(dev.io.disk, sb, rest, n', zs', m, block * BLOCK_SIZE);
          n' := n'[SIZE_WORD := block * BLOCK_SIZE];
          return;
        }
        block := block + 1;
      }
      GrewCount(d, dev.io.disk, sb, zs, zs');
      SetSize(dev.io.disk, sb, rest, n', zs', m, size);
      n' := n'[SIZE_WORD := size];
      ok := true;
    }

    /** The body of the loop of `extend_zone`: maps one more block and the index blocks it needs. */
    method ExtendBlock(n: Node, block: nat, ghost rest: map<nat, seq<nat>>, ghost zs: seq<nat>, ghost m: nat)
      returns (ok: bool, n': Node, ghost zs': seq<nat>)
      requires 0 < block < 0x1_0000 && |zs| == ZonesFor(block - 1) && ZonesFor(block) <= m
      requires Growing(dev.io.disk, sb, rest, n, zs, m)
      modifies dev
      ensures Growing(dev.io.disk, sb, rest, n', zs', m) && Grew(old(dev.io.disk), dev.io.disk, sb, zs, zs')
      ensures ok ==> |zs'| == ZonesFor(block)
      ensures !ok ==> FreeZones(dev.io.disk, sb) == {} && |zs'| < ZonesFor(block)
      ensures SameAttributes(n, n')
    {
      hide FileOk, FreeZones, Clean, FileIn, Grew, ZoneAt, VolOk;
      ghost var d := dev.io.disk;
      var z0 := if block <= 6 then block else if block < DOUBLE then 7 else 8;
      ghost var top := if block <= 6 then Data(block) else if block < DOUBLE then Indirect else Double;
      NextSlots(block);
      HeldAt(d, n, zs, top);
      n', zs', ok := n, zs, true;
      GrewNothing(d, sb, zs);
      if n'[ZONE_WORD + z0] == 0 {
        ok, n', zs' := TakeInNode(n', z0, top, rest, zs', m);
        if !ok {
          return;
        }
      }
      if z0 <= 6 {
        return;
      }
      ghost var d1, ys := dev.io.disk, zs';
      ok, zs' := ExtendEntry(n', block, z0, rest, ys, m);
      GrewTrans(d, d1, dev.io.disk, sb, zs, ys, zs');
    }

    /** The rest of the loop body, for a block below an index block the inode points to */
    method ExtendEntry(n: Node, block: nat, z0: nat, ghost rest: map<nat, seq<nat>>, ghost zs: seq<nat>, ghost m: nat)
      returns (ok: bool, ghost zs': seq<nat>)
      requires DIRECT <= block < 0x1_0000 && z0 == if block < DOUBLE then 7 else 8
      requires |zs| == FirstEntry(block) && ZonesFor(block) <= m
      requires Growing(dev.io.disk, sb, rest, n, zs, m)
      modifies dev
      ensures Growing(dev.io.disk, sb, rest, n, zs', m) && Grew(old(dev.io.disk), dev.io.disk, sb, zs, zs')
      ensures ok ==> |zs'| == ZonesFor(block)
      ensures !ok ==> FreeZones(dev.io.disk, sb) == {} && |zs'| < ZonesFor(block)
    {
      hide FileOk, FreeZones, Clean, FileIn, Grew, ZoneAt, VolOk;
      ghost var d := dev.io.disk;
      ghost var top := if block < DOUBLE then Indirect else Double;
      ghost var s := if block < DOUBLE then Data(block) else Sub((block - DOUBLE) / WORDS);
      EntrySlots(block);
      HeldAt(d, n, zs, top);
      HeldAt(d, n, zs, s);
      var z1 := n[ZONE_WORD + z0];
      var z2 := if z0 == 7 then block - 7 else (block - DOUBLE) / WORDS;
      EntryReads(d, n, zs, s);
      var zones := dev.Load(z1);
      var z := GetWord(zones, z2);
      ok, zs' := true, zs;
      GrewNothing(d, sb, zs);
      if z == 0 {
        ok, z, zs' := TakeInBlock(n, z1, z2, s, rest, zs, m);
        if !ok {
          return;
        }
      }
      if z0 == 7 {
        return;
      }
      ghost var d1, ys := dev.io.disk, zs';
      HeldAt(d1, n, ys, s);
      HeldAt(d1, n, ys, Data(block));
      EntryReads(d1, n, ys, s);
      EntryReads(d1, n, ys, Data(block));
      z1 := z;
      z2 := (block - DOUBLE) % WORDS;
      zones := dev.Load(z1);
      if GetWord(zones, z2) == 0 {
        ok, z, zs' := TakeInBlock(n, z1, z2, Data(block), rest, ys, m);
        GrewTrans(d, d1, dev.io.disk, sb, zs, ys, zs');
      }
    }

    /** Gives back the last zone of the file, whose pointer is in the inode. */
    method DropInNode(n: Node, z0: nat, ghost s: Slot, ghost rest: map<nat, seq<nat>>, ghost zs: seq<nat>)
      returns (n': Node, ghost zs': seq<nat>)
      requires Working(dev.io.disk, sb, rest, n, zs) && ValidSlot(s) && |zs| > 0 && Rank(s) == |zs| - 1
      requires InNode(s) && Entry(s) == ZONE_WORD + z0
      modifies dev
      ensures zs' == zs[..|zs| - 1] && Working(dev.io.disk, sb, rest, n', zs')
      ensures Shrank(old(dev.io.disk), dev.io.disk, sb, zs, zs')
      ensures n' == n[ZONE_WORD + z0 := 0]
    {
      hide FileOk, FreeZones, Rank, FileIn, Entry, GetBit, DropBit;
      ghost var d := dev.io.disk;
      HeldAt(d, n, zs, s);
      WorkingPop(d, sb, rest, n, zs, s);
      TopZone(sb, d, zs);
      UnmarkZmap(n[ZONE_WORD + z0]);
      n' := n[ZONE_WORD + z0 := 0];
      zs' := zs[..|zs| - 1];
      DropFrame(d, sb, zs);
    }

    /** Gives back the last zone of the file, whose pointer is word `z2` of the index block `z1`. */
    method DropInBlock(n: Node, z1: nat, z2: nat, ghost s: Slot, ghost rest: map<nat, seq<nat>>, ghost zs: seq<nat>)
      returns (ghost zs': seq<nat>)
      requires Working(dev.io.disk, sb, rest, n, zs) && ValidSlot(s) && |zs| > 0 && Rank(s) == |zs| - 1
      requires !InNode(s) && Entry(s) == z2 && z1 == ZoneAt(dev.io.disk, n, Parent(s)) < |dev.io.disk|
      modifies dev
      ensures zs' == zs[..|zs| - 1] && Working(dev.io.disk, sb, rest, n, zs')
      ensures Shrank(old(dev.io.disk), dev.io.disk, sb, zs, zs')
    {
      hide FileOk, FreeZones, Rank, FileIn, Entry, GetBit, DropBit, ZoneAt;
      ghost var d := dev.io.disk;
      ParentZone(d, n, zs, s);
      EntryReads(d, n, zs, s);
      WorkingPop(d, sb, rest, n, zs, s);
      TopZone(sb, d, zs);
      var zones := dev.Load(z1);
      UnmarkZmap(GetWord(zones, z2));
      ghost var d1 := dev.io.disk;
      DropFrame(d, sb, zs);
      ParentZone(d1, n, zs, s);
      ZonesAbove(d, sb, n, zs, z1);
      dev.Save(z1, SetWord(zones, z2, 0));
      zs' := zs[..|zs| - 1];
      StoreOnlyIndex(d1, sb, n, zs, s, 0);
      OnlyIndexTrans(d, d1, dev.io.disk, sb, zs, zs);
    }

    /** The body of the loop of `shrink_zone`: unmaps one block and the index blocks it leaves empty. */
    method ShrinkBlock(n: Node, block: nat, ghost rest: map<nat, seq<nat>>, ghost zs: seq<nat>)
      returns (n': Node, ghost zs': seq<nat>)
      requires 0 < block < 0x1_0000 && |zs| == ZonesFor(block)
      requires Working(dev.io.disk, sb, rest, n, zs)
      modifies dev
      ensures |zs'| == ZonesFor(block - 1) && Working(dev.io.disk, sb, rest, n', zs')
      ensures Shrank(old(dev.io.disk), dev.io.disk, sb, zs, zs')
      ensures SameAttributes(n, n')
    {
      hide Working, Shrank, ZoneAt, GetWord;
      ghost var d := dev.io.disk;
      var z0 := if block <= 6 then block else if block < DOUBLE then 7 else 8;
      ghost var top := if block <= 6 then Data(block) else if block < DOUBLE then Indirect else Double;
      NextSlots(block);
      WorkingHeld(d, sb, rest, n, zs, top);
      n', zs' := n, zs;
      if n'[ZONE_WORD + z0] != 0 {
        if z0 <= 6 {
          n', zs' := DropInNode(n', z0, top, rest, zs');
        } else if z0 == 7 {
          n', zs' := ShrinkIndirect(n', block, rest, zs');
        } else {
          n', zs' := ShrinkDouble(n', block, rest, zs');
        }
      }
    }

    /** `shrink_zone` on a block below the indirect block */
    method ShrinkIndirect(n: Node, block: nat, ghost rest: map<nat, seq<nat>>, ghost zs: seq<nat>)
      returns (n': Node, ghost zs': seq<nat>)
      requires DIRECT <= block < DOUBLE && |zs| == ZonesFor(block)
      requires Working(dev.io.disk, sb, rest, n, zs)
      modifies dev
      ensures |zs'| == ZonesFor(block - 1) && Working(dev.io.disk, sb, rest, n', zs')
      ensures Shrank(old(dev.io.disk), dev.io.disk, sb, zs, zs')
      ensures SameAttributes(n, n')
    {
      hide Working, Shrank, ZoneAt, GetWord;
      ghost var d := dev.io.disk;
      NextSlots(block);
      WorkingHeld(d, sb, rest, n, zs, Indirect);
      WorkingEntry(d, sb, rest, n, zs, Data(block));
      var z1, z2 := n[ZONE_WORD + 7], block - 7;
      n', zs' := n, zs;
      var zones := dev.Load(z1);
      if GetWord(zones, z2) != 0 {
        zs' := DropInBlock(n, z1, z2, Data(block), rest, zs);
        if z2 == 0 {
          ghost var d1, ys := dev.io.disk, zs';
          n', zs' := DropInNode(n, 7, Indirect, rest, ys);
          ShrankTrans(d, d1, dev.io.disk, sb, zs, ys, zs');
        }
      }
    }

    /** `shrink_zone` on a block below the double-indirect block */
    method ShrinkDouble(n: Node, block: nat, ghost rest: map<nat, seq<nat>>, ghost zs: seq<nat>)
      returns (n': Node, ghost zs': seq<nat>)
      requires DOUBLE <= block < 0x1_0000 && |zs| == ZonesFor(block)
      requires Working(dev.io.disk, sb, rest, n, zs)
      modifies dev
      ensures |zs'| == ZonesFor(block - 1) && Working(dev.io.disk, sb, rest, n', zs')
      ensures Shrank(old(dev.io.disk), dev.io.disk, sb, zs, zs')
      ensures SameAttributes(n, n')
    {
      hide Working, Shrank, ZoneAt, GetWord;
      ghost var d := dev.io.disk;
      ghost var sub := Sub((block - DOUBLE) / WORDS);
      NextSlots(block);
      WorkingHeld(d, sb, rest, n, zs, Double);
      WorkingEntry(d, sb, rest, n, zs, sub);
      WorkingEntry(d, sb, rest, n, zs, Data(block));
      var z1, z2 := n[ZONE_WORD + 8], (block - DOUBLE) / WORDS;
      n', zs' := n, zs;
      var zones := dev.Load(z1);
      var z3, z4 := GetWord(zones, z2), (block - DOUBLE) % WORDS;
      if z3 != 0 {
        zones := dev.Load(z3);
        if GetWord(zones, z4) != 0 {
          zs' := DropInBlock(n, z3, z4, Data(block), rest, zs);
          if z4 == 0 {
            n', zs' := ShrinkSub(n, block, d, rest, zs, zs');
          }
        }
      }
    }

    /** `shrink_zone` once the first block below an index block is gone: the index block goes too */
    method ShrinkSub(n: Node, block: nat, ghost d: Disk, ghost rest: map<nat, seq<nat>>, ghost zs: seq<nat>,
                     ghost ys: seq<nat>)
      returns (n': Node, ghost zs': seq<nat>)
      requires DOUBLE <= block < 0x1_0000 && (block - DOUBLE) % WORDS == 0
      requires |ys| == Rank(Data(block)) && Working(dev.io.disk, sb, rest, n, ys) && Shrank(d, dev.io.disk, sb, zs, ys)
      modifies dev
      ensures |zs'| == ZonesFor(block - 1) && Working(dev.io.disk, sb, rest, n', zs')
      ensures Shrank(d, dev.io.disk, sb, zs, zs')
      ensures SameAttributes(n, n')
    {
      hide Working, Shrank, ZoneAt, GetWord;
      ghost var d1 := dev.io.disk;
      NextSlots(block);
      var z1, z2 := n[ZONE_WORD + 8], (block - DOUBLE) / WORDS;
      WorkingHeld(d1, sb, rest, n, ys, Double);
      WorkingEntry(d1, sb, rest, n, ys, Sub(z2));
      n' := n;
      zs' := DropInBlock(n, z1, z2, Sub(z2), rest, ys);
      ShrankTrans(d, d1, dev.io.disk, sb, zs, ys, zs');
      if z2 == 0 {
        ghost var d2, xs := dev.io.disk, zs';
        n', zs' := DropInNode(n, 8, Double, rest, xs);
        ShrankTrans(d, d2, dev.io.disk, sb, zs, xs, zs');
      }
    }

    /** `shrink_zone` */
    method ShrinkZone(n: Node, size: Word, ghost rest: map<nat, seq<nat>>, ghost zs: seq<nat>)
      returns (n': Node, ghost zs': seq<nat>)
      requires SizeOf(n) / BLOCK_SIZE < 0x1_0000 && size <= SizeOf(n) && |zs| == ZonesFor(SizeOf(n) / BLOCK_SIZE)
      requires Working(dev.io.disk, sb, rest, n, zs)
      modifies dev
      ensures |zs'| == ZonesFor(size / BLOCK_SIZE) && SizeOf(n') == size && Working(dev.io.disk, sb, rest, n', zs')
      ensures Shrank(old(dev.io.disk), dev.io.disk, sb, zs, zs')
      ensures SameButSize(n, n')
    {
      hide Working, Rank, FreeZones, OnlyIndex;
      ghost var d := dev.io.disk;
      var end := size / BLOCK_SIZE;
      var block := n[SIZE_WORD] / BLOCK_SIZE;
      n', zs' := n, zs;
      assert Shrank(d, d, sb, zs, zs) by { SameOnlyIndex(d, sb, zs); assert zs[|zs|..] == []; }
      while block > end
        invariant end <= block < 0x1_0000 && |zs'| == ZonesFor(block)
        invariant Working(dev.io.disk, sb, rest, n', zs') && Shrank(d, dev.io.disk, sb, zs, zs')
        invariant SameAttributes(n, n')
      {
        ghost var d1, ys := dev.io.disk, zs';
        n', zs' := ShrinkBlock(n', block, rest, ys);
        ShrankTrans(d, d1, dev.io.disk, sb, zs, ys, zs');
        block := block - 1;
      }
      WorkingSize(dev.io.disk, sb, rest, n', zs', size);
      n' := n'[SIZE_WORD := size];
    }

    /** `get_block` through the inode on disk */
    method GetBlock(ix: nat, block: nat) returns (z: Word)
      requires ix > 0 && NodeBlock(sb, ix) < |dev.io.disk| && block < 0x1_0000
      requires forall s :: ValidSlot(s) && IsIndex(s) ==>
                 ZoneAt(dev.io.disk, NodeAt(dev.io.disk, sb, ix), s) < |dev.io.disk|
      modifies dev
      ensures dev.io.disk == old(dev.io.disk)
      ensures z == ZoneAt(dev.io.disk, NodeAt(dev.io.disk, sb, ix), Data(block))
      ensures z == ZoneOnDisk(dev.io.disk, sb, ix, block)
    {
      hide NodeAt, GetWord, HoldsNode, ZoneOnDisk;
      WalkOnDisk(dev.io.disk, sb, ix, block);
      var n := ReadInode(ix);
      var z0 := if block <= 6 then block else if block < DOUBLE then 7 else 8;
      assert ZoneAt(dev.io.disk, n, Indirect) == n[ZONE_WORD + 7] && ZoneAt(dev.io.disk, n, Double) == n[ZONE_WORD + 8];
      if n[ZONE_WORD + z0] == 0 {
        return 0;
      }
      if z0 <= 6 {
        return n[ZONE_WORD + z0];
      }
      var z1 := n[ZONE_WORD + z0];
      var z2 := if z0 == 7 then block - 7 else (block - DOUBLE) / WORDS;
      var zones := dev.Load(z1);
      if z0 == 7 {
        return GetWord(zones, z2);
      }
      assert ZoneAt(dev.io.disk, n, Sub(z2)) == GetWord(zones, z2);
      if GetWord(zones, z2) == 0 {
        return 0;
      }
      z1 := GetWord(zones, z2);
      z2 := (block - DOUBLE) % WORDS;
      zones := dev.Load(z1);
      return GetWord(zones, z2);
    }

    /** Reads a data block of the file, copies `data` in at offset `o` and writes it back. */
    method PatchBlock(z: nat, o: nat, data: seq<Byte>, ghost ix: nat, ghost b: nat, ghost rest: map<nat, seq<nat>>,
                      ghost n: Node, ghost ys: seq<nat>, ghost m: nat)
      requires ValidIndex(sb, ix) && NodeBlock(sb, ix) < |dev.io.disk| && o + |data| <= BLOCK_SIZE
      requires Growing(dev.io.disk, sb, rest, n, ys, m) && b < 0x1_0000 && Rank(Data(b)) < |ys|
      requires z == ys[Rank(Data(b))]
      modifies dev
      ensures Growing(dev.io.disk, sb, rest, n, ys, m) && FreeZones(dev.io.disk, sb) == FreeZones(old(dev.io.disk), sb)
      ensures OnlyFile(old(dev.io.disk), dev.io.disk, sb, ys) && |dev.io.disk| == |old(dev.io.disk)|
      ensures NodeAt(dev.io.disk, sb, ix) == NodeAt(old(dev.io.disk), sb, ix)
      ensures forall i :: 0 <= i < 0x1_0000 * BLOCK_SIZE ==>
                ByteAt(dev.io.disk, ys, i) == Patched(ByteAt(old(dev.io.disk), ys, i), b * BLOCK_SIZE + o, data, i)
    {
      hide FreeZones, OnlyFile, ByteAt, NodeAt, FileOk, FileIn, Clean, Rank;
      ghost var d := dev.io.disk;
      DataWrite(d, sb, rest, n, ys, m, b, Patch(d[ys[Rank(Data(b))]], o, data)) by {
        DataFileOk(d, n, ys, b, d[0]);
      }
      var buf := dev.Load(z);
      buf := Patch(buf, o, data);
      dev.Save(z, buf);
      NodeBelowZones(sb, d, ix);
      NodeFrame(d, dev.io.disk, sb, ix);
      forall i | 0 <= i < 0x1_0000 * BLOCK_SIZE
        ensures ByteAt(dev.io.disk, ys, i) == Patched(ByteAt(d, ys, i), b * BLOCK_SIZE + o, data, i)
      {
        PatchBytes(d, n, ys, b, o, data, i);
      }
    }

    /** The loop of `inode_truncate` that clears the bytes a file gains. */
    method ZeroFill(ix: nat, from: nat, size: nat, ghost n0: Node, ghost zs: seq<nat>, ghost rest: map<nat, seq<nat>>,
                    ghost n: Node, ghost ys: seq<nat>, ghost m: nat)
      returns (ok: bool)
      requires ValidIndex(sb, ix) && from < size && size / BLOCK_SIZE + 1 < 0x1_0000
      requires Growing(dev.io.disk, sb, rest, n, ys, m) && |ys| == ZonesFor(size / BLOCK_SIZE)
      requires NodeBlock(sb, ix) < |dev.io.disk| && NodeAt(dev.io.disk, sb, ix) == n0
      requires OldNode(n0, zs) && zs <= ys && |zs| == ZonesFor(from / BLOCK_SIZE)
      modifies dev
      ensures ok <==> Extendable(from / BLOCK_SIZE, (size - 1) / BLOCK_SIZE)
      ensures Growing(dev.io.disk, sb, rest, n, ys, m) && FreeZones(dev.io.disk, sb) == FreeZones(old(dev.io.disk), sb)
      ensures OnlyFile(old(dev.io.disk), dev.io.disk, sb, ys)
      ensures forall i :: 0 <= i < from ==> ByteAt(dev.io.disk, ys, i) == ByteAt(old(dev.io.disk), ys, i)
      ensures ok ==> forall i :: from <= i < size ==> ByteAt(dev.io.disk, ys, i) == 0
    {
      hide Growing, FreeZones, OnlyFile, ByteAt, NodeAt, OldNode, Rank, Reach, ZoneOnDisk;
      ghost var d := dev.io.disk;
      var tstart, tsize := from, size - from;
      ghost var cur := from / BLOCK_SIZE;
      ExtendableReach(from / BLOCK_SIZE, (size - 1) / BLOCK_SIZE);
      OnlyFileSame(d, sb, ys);
      while tsize > 0
        invariant from <= tstart && tstart + tsize == size
        invariant cur == if tsize > 0 then tstart / BLOCK_SIZE else (size - 1) / BLOCK_SIZE + 1
        invariant Growing(dev.io.disk, sb, rest, n, ys, m) && FreeZones(dev.io.disk, sb) == FreeZones(d, sb)
        invariant OnlyFile(d, dev.io.disk, sb, ys)
        invariant NodeBlock(sb, ix) < |dev.io.disk| && NodeAt(dev.io.disk, sb, ix) == n0
        invariant forall b :: from / BLOCK_SIZE <= b < cur ==> Reach(|zs|, b)
        invariant forall i :: 0 <= i < from ==> ByteAt(dev.io.disk, ys, i) == ByteAt(d, ys, i)
        invariant forall i :: from <= i < tstart ==> ByteAt(dev.io.disk, ys, i) == 0
      {
        ghost var d1 := dev.io.disk;
        var toffset, tcopy := tstart % BLOCK_SIZE, CopySize(tstart, tsize);
        OldLookups(d1, sb, rest, n0, zs, n, ys, m, cur, size / BLOCK_SIZE);
        var z := GetBlock(ix, tstart / BLOCK_SIZE);
        if z == 0 {
          return false;
        }
        PatchBlock(z, toffset, Zeros(tcopy), ix, cur, rest, n, ys, m);
        OnlyFileTrans(d, d1, dev.io.disk, sb, ys, ys);
        tstart, tsize := tstart + tcopy, tsize - tcopy;
        cur := cur + 1;
      }
      ok := true;
    }

    /** The growing branch of `inode_truncate`, up to the writing of the inode */
    method Grow(ix: nat, n: Node, size: Word, ghost m: nat) returns (ok: bool, n': Node, ghost ys: seq<nat>)
      requires VolOk(dev.io.disk, sb, files) && ix in files && ix > 0 && NodeBlock(sb, ix) < |dev.io.disk|
      requires n == NodeAt(dev.io.disk, sb, ix) && SizeOf(n) < size && size / BLOCK_SIZE + 1 < 0x1_0000
      requires ZonesFor(size / BLOCK_SIZE) <= m && Clean(dev.io.disk, FreeZones(dev.io.disk, sb), |files[ix]|, m)
      modifies dev
      ensures ok <==> CanGrow(old(dev.io.disk), sb, files[ix], SizeOf(n), size)
      ensures VolOk(dev.io.disk, sb, files - {ix}) && OthersSame(old(dev.io.disk), dev.io.disk, sb, files, ix)
      ensures Aside(old(dev.io.disk), dev.io.disk, sb) && FreeZones(dev.io.disk, sb) <= FreeZones(old(dev.io.disk), sb)
      ensures !ok ==> Intact(old(dev.io.disk), dev.io.disk, sb, files[ix], ix)
      ensures ok ==>
                && Growing(dev.io.disk, sb, files - {ix}, n', ys, m) && GetBit(dev.io.disk, IMAP_START, ix)
                && |ys| == ZonesFor(size / BLOCK_SIZE) && SizeOf(n') == size
                && GrewZones(old(dev.io.disk), dev.io.disk, sb, files[ix], ys)
                && Bytes(dev.io.disk, ys, size) == Resized(Bytes(old(dev.io.disk), files[ix], SizeOf(n)), size)
                && SameButSize(n, n')
    {
      hide Working, FreeZones, Clean, NodeAt, Grew, OnlyFile, ByteAt, Rank, OldNode, OthersSame, GetBit, Extendable;
      hide Elems, VolOk, Bytes, Aside, Intact;
      ghost var d, zs, rest := dev.io.disk, files[ix], files - {ix};
      Open(d, sb, files, ix);
      SizeFits(d, sb, rest, n, zs, SizeOf(n) / BLOCK_SIZE);
      ok, n', ys := ExtendZone(n, size, rest, zs, m);
      ghost var d1 := dev.io.disk;
      AfterExtend(d, d1, sb, files, ix, n, n', ys, m);
      GrowingAside(d, d1, sb, rest, n', ys, m);
      if !ok {
        FailedIntact(d, d1, sb, files, ix, n', ys, m);
        return;
      }
      ok := ZeroFill(ix, n[SIZE_WORD], size, n, zs, rest, n', ys, m);
      OnlyFileTrans(d, d1, dev.io.disk, sb, ys, ys);
      AfterFill(d, dev.io.disk, sb, files, ix, n', ys, m);
      GrowingAside(d, dev.io.disk, sb, rest, n', ys, m);
      if ok {
        GrownBytes(d, dev.io.disk, zs, ys, n[SIZE_WORD], size);
      } else {
        FailedIntact(d, dev.io.disk, sb, files, ix, n', ys, m);
      }
    }

    /** The shrinking branch of `inode_truncate`, up to the writing of the inode */
    method Shrink(ix: nat, n: Node, size: Word) returns (n': Node, ghost ys: seq<nat>)
      requires VolOk(dev.io.disk, sb, files) && ix in files && ix > 0 && NodeBlock(sb, ix) < |dev.io.disk|
      requires n == NodeAt(dev.io.disk, sb, ix) && size <= SizeOf(n)
      modifies dev
      ensures Working(dev.io.disk, sb, files - {ix}, n', ys) && GetBit(dev.io.disk, IMAP_START, ix)
      ensures OthersSame(old(dev.io.disk), dev.io.disk, sb, files, ix)
      ensures |ys| == ZonesFor(size / BLOCK_SIZE) && SizeOf(n') == size
      ensures ShrankZones(old(dev.io.disk), dev.io.disk, sb, files[ix], ys)
      ensures Bytes(dev.io.disk, ys, size) == Resized(Bytes(old(dev.io.disk), files[ix], SizeOf(n)), size)
      ensures SameButSize(n, n')
      ensures Aside(old(dev.io.disk), dev.io.disk, sb) && FreeZones(old(dev.io.disk), sb) <= FreeZones(dev.io.disk, sb)
    {
      hide Working, FreeZones, NodeAt, ByteAt, Rank, OthersSame, GetBit, Elems, VolOk, Bytes, OnlyIndex, Aside;
      ghost var d, zs, rest := dev.io.disk, files[ix], files - {ix};
      Open(d, sb, files, ix);
      SizeFits(d, sb, rest, n, zs, SizeOf(n) / BLOCK_SIZE);
      n', ys := ShrinkZone(n, size, rest, zs);
      AfterShrink(d, dev.io.disk, sb, files, ix, n, n', ys, size);
      ShrankAside(d, dev.io.disk, sb, rest, n, zs, ys);
    }

    /** Writes the inode back, on disk and in memory, as at the end of `inode_truncate`. */
    method Commit(ix: nat, n: Node, ghost ys: seq<nat>, ghost d: Disk)
      requires Working(dev.io.disk, sb, files - {ix}, n, ys) && ix in files && GetBit(dev.io.disk, IMAP_START, ix)
      requires VolOk(d, sb, files) && OthersSame(d, dev.io.disk, sb, files, ix)
      requires |ys| == ZonesFor(SizeOf(n) / BLOCK_SIZE)
      requires Cached(d, sb, files, sizes)
      modifies this, dev
      ensures Valid() && files == old(files)[ix := ys] && sizes == old(sizes)[ix := SizeOf(n)]
      ensures ix > 0 && NodeBlock(sb, ix) < |dev.io.disk| && NodeAt(dev.io.disk, sb, ix) == n
      ensures OthersSame(d, dev.io.disk, sb, old(files), ix)
      ensures FreeZones(dev.io.disk, sb) == FreeZones(old(dev.io.disk), sb)
      ensures Bytes(dev.io.disk, ys, SizeOf(n)) == Bytes(old(dev.io.disk), ys, SizeOf(n))
      ensures OnlyTable(old(dev.io.disk), dev.io.disk, sb)
    {
      hide FileOk, FreeZones, NodeAt, ByteAt, Rank, GetBit, Bytes, WithNode, OthersSame, FileIn, Marked,
           HoldsNode, OnlyNodeBytes;
      ghost var d1 := dev.io.disk;
      assert FileIn(d, sb, ix, files[ix]) && ix < sb.InodeBits() by { IndexOf(d, sb, files, ix); }
      IndexOf(d, sb, files, ix);
      assert |d1| == |d| by { SameLength(d, d1, sb, files, ix); }
      Close(d1, sb, files - {ix}, ix, n, ys);
      WriteNodeOthers(d1, sb, files, ix, n);
      OthersSameTrans(d, d1, WithNode(d1, sb, ix, n), sb, files, files, ix);
      NodeBytes(d1, sb, ix, n, ys, SizeOf(n));
      TableOnly(d1, sb, ix, n);
      WriteInode(ix, n);
      CachedAfter(d, dev.io.disk, sb, files, ix, sizes, n);
      sizes := sizes[ix := n[SIZE_WORD]];
      assert (files - {ix})[ix := ys] == files[ix := ys];
      CachedFiles(dev.io.disk, sb, files, files[ix := ys], sizes);
      files := files[ix := ys];
    }

    /** `inode_truncate`. Growing fails exactly when the zones or the old pointers do not suffice;
        otherwise the file is cut or filled up with zeros and every other file is as before. */
    method Truncate(ix: nat, size: Word, ghost m: nat) returns (ok: bool)
      requires Valid() && ix in sizes && size / BLOCK_SIZE + 1 < 0x1_0000
      requires size > sizes[ix] ==>
                 ZonesFor(size / BLOCK_SIZE) <= m && Clean(dev.io.disk, FreeZones(dev.io.disk, sb), |files[ix]|, m)
      modifies this, dev
      ensures ok <==> size <= old(sizes)[ix] || CanGrow(old(dev.io.disk), sb, old(files)[ix], old(sizes)[ix], size)
      ensures OthersSame(old(dev.io.disk), dev.io.disk, sb, old(files), ix) && Aside(old(dev.io.disk), dev.io.disk, sb)
      ensures if size > old(sizes)[ix] then FreeZones(dev.io.disk, sb) <= FreeZones(old(dev.io.disk), sb)
              else FreeZones(old(dev.io.disk), sb) <= FreeZones(dev.io.disk, sb)
      ensures ok ==>
                && Valid() && ix in files && files == old(files)[ix := files[ix]] && sizes == old(sizes)[ix := size]
                && |files[ix]| == ZonesFor(size / BLOCK_SIZE)
                && FileBytes(dev.io.disk, sb, files, ix)
                   == Resized(FileBytes(old(dev.io.disk), sb, old(files), ix), size)
                && (if size > old(sizes)[ix]
                    then && GrewZones(old(dev.io.disk), dev.io.disk, sb, old(files)[ix], files[ix])
                         && Clean(dev.io.disk, FreeZones(dev.io.disk, sb), |files[ix]|, m)
                    else ShrankZones(old(dev.io.disk), dev.io.disk, sb, old(files)[ix], files[ix]))
                && AttributesKept(old(dev.io.disk), dev.io.disk, sb, ix)
                && VolumeKept(old(dev.io.disk), dev.io.disk, sb, old(files), files)
      ensures size >= old(sizes)[ix] && Zeroed(old(dev.io.disk), sb) ==> Zeroed(dev.io.disk, sb)
      ensures !ok ==> files == old(files) && sizes == old(sizes) && VolOk(dev.io.disk, sb, files - {ix})
      ensures !ok ==> Intact(old(dev.io.disk), dev.io.disk, sb, files[ix], ix)
    {
      hide Working, VolOk, FreeZones, Clean, NodeAt, Rank, OthersSame, GetBit, Bytes, CanGrow, OnlyTable, GrewZones;
      hide ShrankZones, Resized, FileIn, Aside, Intact, VolumeKept, Zeroed, HoldsNode;
      ghost var d := dev.io.disk;
      OpenCached(d, sb, files, sizes, ix);
      if size != sizes[ix] {
        var n := ReadInode(ix);
        ghost var ys;
        if size > sizes[ix] {
          ok, n, ys := Grow(ix, n, size, m);
          ZeroedKept(d, dev.io.disk, sb);
          if !ok {
            return;
          }
        } else {
          n, ys := Shrink(ix, n, size);
        }
        ghost var d1 := dev.io.disk;
        Commit(ix, n, ys, d);
        CommitKeeps(d, d1, dev.io.disk, sb, old(files)[ix], ys, m);
        if size > old(sizes)[ix] { ZeroedKept(d, dev.io.disk, sb); }
      } else {
        NothingChanged(d, sb, files, ix);
        AsideSame(d, sb);
      }
      MoveKeepsVolume(d, dev.io.disk, sb, old(files), ix, files[ix]);
      ok := true;
    }

    /** One round of `inode_write`, once the file is large enough: copies a piece into its block. */
    method WritePiece(ix: nat, start: nat, piece: seq<Byte>, ghost m: nat) returns (found: bool)
      requires Valid() && ix in sizes && start + |piece| <= sizes[ix] && start % BLOCK_SIZE + |piece| <= BLOCK_SIZE
      requires Clean(dev.io.disk, FreeZones(dev.io.disk, sb), |files[ix]|, m)
      modifies dev
      ensures found && Valid() && OthersSame(old(dev.io.disk), dev.io.disk, sb, files, ix)
      ensures |FileBytes(old(dev.io.disk), sb, files, ix)| == sizes[ix]
      ensures FileBytes(dev.io.disk, sb, files, ix) == Spliced(FileBytes(old(dev.io.disk), sb, files, ix), start, piece)
      ensures FreeZones(dev.io.disk, sb) == FreeZones(old(dev.io.disk), sb)
      ensures Clean(dev.io.disk, FreeZones(dev.io.disk, sb), |files[ix]|, m)
      ensures AttributesKept(old(dev.io.disk), dev.io.disk, sb, ix) && Aside(old(dev.io.disk), dev.io.disk, sb)
    {
      hide FreeZones, Clean, NodeAt, Rank, GetBit, Bytes, FileIn, Spliced, OthersSame, Working, VolOk, ByteAt, Aside;
      hide ZoneOnDisk;
      ghost var d, zs, rest, b := dev.io.disk, files[ix], files - {ix}, start / BLOCK_SIZE;
      OpenCached(d, sb, files, sizes, ix);
      Open(d, sb, files, ix);
      ghost var n := NodeAt(d, sb, ix);
      Lookups(d, sb, rest, n, zs, SizeOf(n) / BLOCK_SIZE, b);
      var z := GetBlock(ix, start / BLOCK_SIZE);
      found := z != 0;
      if found {
        PatchBlock(z, start % BLOCK_SIZE, piece, ix, b, rest, n, zs, m);
        SizeFits(d, sb, rest, n, zs, SizeOf(n) / BLOCK_SIZE);
        SplicedBytes(d, dev.io.disk, zs, SizeOf(n), start, piece);
        AfterFill(d, dev.io.disk, sb, files, ix, n, zs, m);
        GrowingAside(d, dev.io.disk, sb, rest, n, zs, m);
        IndexOf(d, sb, files, ix);
        Rejoin(dev.io.disk, sb, files, ix);
        CachedSame(d, dev.io.disk, sb, files, ix, sizes);
      }
    }

    /** One round of `inode_write`: grows the file if the piece ends beyond it, then copies. */
    method WriteStep(ix: nat, start: nat, piece: seq<Byte>, ghost m: nat) returns (ok: bool)
      requires Valid() && ix in sizes && start <= sizes[ix] && start % BLOCK_SIZE + |piece| <= BLOCK_SIZE
      requires (start + |piece|) / BLOCK_SIZE + 1 < 0x1_0000 && ZonesFor((start + |piece|) / BLOCK_SIZE) <= m
      requires Clean(dev.io.disk, FreeZones(dev.io.disk, sb), |files[ix]|, m)
      modifies this, dev
      ensures ok <==> Enough(old(dev.io.disk), sb, old(files)[ix], Max(old(sizes)[ix], start + |piece|))
      ensures OthersSame(old(dev.io.disk), dev.io.disk, sb, old(files), ix) && Aside(old(dev.io.disk), dev.io.disk, sb)
      ensures FreeZones(dev.io.disk, sb) <= FreeZones(old(dev.io.disk), sb)
      ensures ok ==>
                && Valid()
                && Wrote(old(dev.io.disk), dev.io.disk, sb, old(files), files, old(sizes), sizes, ix, start, piece)
                && Clean(dev.io.disk, FreeZones(dev.io.disk, sb), |files[ix]|, m)
                && AttributesKept(old(dev.io.disk), dev.io.disk, sb, ix)
      ensures !ok ==> files == old(files) && sizes == old(sizes) && VolOk(dev.io.disk, sb, files - {ix})
      ensures !ok ==> Intact(old(dev.io.disk), dev.io.disk, sb, files[ix], ix)
    {
      hide FreeZones, Clean, NodeAt, Rank, GetBit, Bytes, FileIn, Spliced, Resized, OthersSame, VolOk, ShrankZones;
      hide AttributesKept, Aside, Intact, VolumeKept, Zeroed, Cached;
      ghost var d := dev.io.disk;
      OpenCached(d, sb, files, sizes, ix);
      NothingChanged(d, sb, files, ix);
      ghost var bytes := FileBytes(d, sb, files, ix);
      assert GrewZones(d, d, sb, files[ix], files[ix]) by { NoGrowth(d, sb, files[ix]); }
      if start + |piece| > sizes[ix] {
        ok := Truncate(ix, start + |piece|, m);
        if !ok {
          return;
        }
        SpliceGrown(bytes, start, piece);
      } else {
        AttributesSame(d, sb, ix);
        AsideSame(d, sb);
      }
      ghost var d1, files1 := dev.io.disk, files;
      ok := WritePiece(ix, start, piece, m);
      OthersSameTrans(d, d1, dev.io.disk, sb, old(files), files1, ix);
      AttributesTrans(d, d1, dev.io.disk, sb, ix);
      AsideTrans(d, d1, dev.io.disk, sb);
    }

    /** `inode_write` of `data` at `start`, at or below the size of the file. */
    method Write(ix: nat, data: seq<Byte>, start: nat) returns (r: int)
      requires Valid() && ix in sizes && start <= sizes[ix] && (start + |data|) / BLOCK_SIZE + 1 < 0x1_0000
      requires Clean(dev.io.disk, FreeZones(dev.io.disk, sb), |files[ix]|, ZonesFor((start + |data|) / BLOCK_SIZE))
      modifies this, dev
      ensures r == |data| <==> Enough(old(dev.io.disk), sb, old(files)[ix], Max(old(sizes)[ix], start + |data|))
      ensures r != |data| ==> 0 < r < |data| || r == -ENOSPC
      ensures OthersSame(old(dev.io.disk), dev.io.disk, sb, old(files), ix) && Aside(old(dev.io.disk), dev.io.disk, sb)
      ensures FreeZones(dev.io.disk, sb) <= FreeZones(old(dev.io.disk), sb)
      ensures AttributesKept(old(dev.io.disk), dev.io.disk, sb, ix)
      ensures Zeroed(old(dev.io.disk), sb) ==> Zeroed(dev.io.disk, sb)
      ensures Put(old(dev.io.disk), dev.io.disk, sb, old(files), files, old(sizes), sizes, ix, start,
                  data[..Written(r)])
      ensures r == |data| ==>
                && Valid()
                && Wrote(old(dev.io.disk), dev.io.disk, sb, old(files), files, old(sizes), sizes, ix, start, data)
                && VolumeKept(old(dev.io.disk), dev.io.disk, sb, old(files), files)
      ensures r != |data| ==> VolOk(dev.io.disk, sb, old(files) - {ix}) && Found(dev.io.disk, sb, files[ix], ix)
    {
      hide FreeZones, Clean, Rank, VolOk, OthersSame, Wrote, Enough, FileBytes, Cached, AttributesKept, Aside,
           Intact, Put;
      hide Zeroed, Found, VolumeKept;
      ghost var d, files0, sizes0, m := dev.io.disk, files, sizes, ZonesFor((start + |data|) / BLOCK_SIZE);
      var indStart, indEnd := start / BLOCK_SIZE, (start + |data|) / BLOCK_SIZE;
      var indZone := indStart;
      var curStart, curSize := start, |data|;
      OpenCached(d, sb, files, sizes, ix);
      WroteNothing(d, sb, files, sizes, ix, start);
      AttributesSame(d, sb, ix);
      AsideSame(d, sb);
      while indZone <= indEnd
        invariant indStart <= indZone <= indEnd + 1
        invariant curStart + curSize == start + |data| && start <= curStart && 0 <= curSize
        invariant if indZone <= indEnd then curStart / BLOCK_SIZE == indZone else curSize == 0
        invariant Valid() && ix in sizes && ix in files && curStart <= sizes[ix]
        invariant Wrote(d, dev.io.disk, sb, files0, files, sizes0, sizes, ix, start, data[..curStart - start])
        invariant Clean(dev.io.disk, FreeZones(dev.io.disk, sb), |files[ix]|, m)
        invariant AttributesKept(d, dev.io.disk, sb, ix)
        invariant Aside(d, dev.io.disk, sb) && FreeZones(dev.io.disk, sb) <= FreeZones(d, sb)
      {
        ghost var d1, files1, sizes1 := dev.io.disk, files, sizes;
        var copy := CopySize(curStart, curSize);
        var piece := data[curStart - start..curStart - start + copy];
        MoreZones((curStart + copy) / BLOCK_SIZE, indEnd);
        var ok := WriteStep(ix, curStart, piece, m);
        if !ok {
          NotEnough(d, d1, sb, files0, files1, sizes0, sizes1, ix, start, data[..curStart - start], copy, |data|);
          FailedWrite(d, d1, dev.io.disk, sb, files0, files1, sizes0, sizes1, ix, start, data[..curStart - start]);
          AsideTrans(d, d1, dev.io.disk, sb);
          ZeroedKept(d, dev.io.disk, sb);
          return if curSize == |data| then -ENOSPC else |data| - curSize;
        }
        WroteIn(d1, dev.io.disk, sb, files1, files, sizes1, sizes, ix, curStart, piece);
        WroteNext(d, d1, dev.io.disk, sb, files0, files1, files, sizes0, sizes1, sizes, ix, start,
                  data[..curStart - start], piece);
        assert data[..curStart - start] + piece == data[..curStart - start + copy];
        AttributesTrans(d, d1, dev.io.disk, sb, ix);
        AsideTrans(d, d1, dev.io.disk, sb);
        curStart, curSize := curStart + copy, curSize - copy;
        indZone := indZone + 1;
      }
      assert data[..|data|] == data;
      WroteEnough(d, dev.io.disk, sb, files0, files, sizes0, sizes, ix, start, data);
      WroteKeepsVolume(d, dev.io.disk, sb, files0, files, sizes0, sizes, ix, start, data);
      ZeroedKept(d, dev.io.disk, sb);
      r := |data|;
    }

    /** One round of `inode_read`: the piece of one block */
    method ReadPiece(ix: nat, block: nat, start: nat, copy: nat) returns (piece: seq<Byte>)
      requires Valid() && ix in sizes && start + copy <= sizes[ix] && start % BLOCK_SIZE + copy <= BLOCK_SIZE
      requires block == start / BLOCK_SIZE
      modifies dev
      ensures Valid() && dev.io.disk == old(dev.io.disk)
      ensures ix in files && |FileBytes(dev.io.disk, sb, files, ix)| == sizes[ix]
      ensures piece == FileBytes(dev.io.disk, sb, files, ix)[start..start + copy]
    {
      hide NodeAt, Rank, Bytes, VolOk, Working, ByteAt, ZoneAt, ZoneOnDisk;
      ghost var d := dev.io.disk;
      OpenCached(d, sb, files, sizes, ix);
      Open(d, sb, files, ix);
      ghost var n, zs := NodeAt(d, sb, ix), files[ix];
      Lookups(d, sb, files - {ix}, n, zs, SizeOf(n) / BLOCK_SIZE, block);
      PieceRead(d, sb, files - {ix}, n, zs, SizeOf(n), start, copy);
      var z := GetBlock(ix, block);
      var buf: Block := Zeros(BLOCK_SIZE);
      if z != 0 {
        buf := dev.Load(z);
      }
      piece := buf[start % BLOCK_SIZE..start % BLOCK_SIZE + copy];
    }

    /** `inode_read` */
    method Read(ix: nat, size: nat, start: nat) returns (data: seq<Byte>)
      requires Valid() && ix in sizes && start + size < 0x1_0000_0000
      modifies dev
      ensures Valid() && dev.io.disk == old(dev.io.disk)
      ensures ix in files && data == Slice(FileBytes(dev.io.disk, sb, files, ix), start, start + size)
    {
      hide FileBytes, VolOk, Cached, Slice;
      OpenCached(dev.io.disk, sb, files, sizes, ix);
      ghost var bytes := FileBytes(dev.io.disk, sb, files, ix);
      data := [];
      SliceCases(bytes, start, start + size);
      if sizes[ix] <= start {
        return;
      }
      var count := if sizes[ix] < start + size then sizes[ix] - start else size;
      var indZone, indEnd := start / BLOCK_SIZE, (start + count) / BLOCK_SIZE;
      var curStart, curSize := start, count;
      while indZone <= indEnd
        invariant start / BLOCK_SIZE <= indZone <= indEnd + 1
        invariant curStart + curSize == start + count && start <= curStart && 0 <= curSize
        invariant if indZone <= indEnd then curStart / BLOCK_SIZE == indZone else curSize == 0
        invariant data == bytes[start..curStart] && dev.io.disk == old(dev.io.disk)
      {
        var copy := CopySize(curStart, curSize);
        var piece := ReadPiece(ix, indZone, curStart, copy);
        data := data + piece;
        SliceStep(bytes, start, curStart, copy);
        curStart, curSize := curStart + copy, curSize - copy;
        indZone := indZone + 1;
      }
    }

    /** `inode_create`: 0 if no inode or no zone is free, and then the disk is as before. */
    method Create(mode: Word) returns (ix: nat)
      requires Valid()
      modifies this, dev
      ensures ix == 0 <==> AllSet(old(dev.io.disk), IMAP_START, sb.InodeBits()) || FreeZones(old(dev.io.disk), sb) == {}
      ensures ix == 0 ==> dev.io.disk == old(dev.io.disk) && files == old(files) && sizes == old(sizes)
      ensures ix != 0 ==>
                && Valid() && ix !in old(files) && FreeZones(old(dev.io.disk), sb) != {}
                && files == old(files)[ix := [MinOf(FreeZones(old(dev.io.disk), sb))]] && sizes == old(sizes)[ix := 0]
                && FileBytes(dev.io.disk, sb, files, ix) == []
                && FreeZones(dev.io.disk, sb)
                   == FreeZones(old(dev.io.disk), sb) - {MinOf(FreeZones(old(dev.io.disk), sb))}
                && GetBit(dev.io.disk, IMAP_START, ix) && !GetBit(old(dev.io.disk), IMAP_START, ix)
                && OthersSame(old(dev.io.disk), dev.io.disk, sb, old(files), ix)
                && NodeBlock(sb, ix) < |dev.io.disk|
                && NewNode(dev.io.disk, sb, ix, mode % 0x1_0000, MinOf(FreeZones(old(dev.io.disk), sb)))
                && FreeSame(old(dev.io.disk), dev.io.disk, sb) && InodeTaken(old(dev.io.disk), dev.io.disk, sb, ix)
                && VolumeKept(old(dev.io.disk), dev.io.disk, sb, old(files), files)
      ensures Zeroed(old(dev.io.disk), sb) ==> Zeroed(dev.io.disk, sb)
    {
      hide VolOk, GetBit, FreeZones, Cached, OthersSame, NodeAt, PutBit, DropBit, AllSet, FreeSame, InodeTaken,
           VolumeKept;
      hide Zeroed, OnlyImap, OnlyZmap, HoldsNode, OnlyNodeBytes, NewNode;
      ghost var d := dev.io.disk;
      LayoutOf(d, sb, files);
      var index := MarkMap(dev, IMAP_START, IMAP_START + sb.imapBlocks, sb.ninodes);
      TookInode(d, dev.io.disk, sb, files, index);
      if index == 0 {
        return 0;
      }
      ghost var d1 := dev.io.disk;
      LayoutOf(d1, sb, files);
      var z := MarkZmap();
      if z == 0 {
        UnmarkMap(dev, index, IMAP_START);
        UnmarkUndoesMark(d, IMAP_START, index);
        return 0;
      }
      ghost var d2 := dev.io.disk;
      var node: Node := EmptyNode(mode % 0x1_0000);
      NewFile(d, d1, d2, sb, files, index, z, node);
      node := node[ZONE_WORD := z];
      NodeRoundTrip(d2, sb, index, node, index);
      NewFileRest(d, d1, d2, sb, index, node);
      NewFileVolume(d, WithNode(d2, sb, index, node), sb, files, index, z);
      if Zeroed(d, sb) { StaysZeroed(d, WithNode(d2, sb, index, node), sb); }
      WriteInode(index, node);
      NewNodeHeld(dev.io.disk, sb, index, mode % 0x1_0000, z);
      CachedNew(d, dev.io.disk, sb, files, sizes, index, node, [z]);
      sizes := sizes[index := 0];
      files := files[index := [z]];
      ix := index;
    }

    /** `inode_destroy`: every zone of the file and its inode are free again. */
    method Destroy(ix: nat)
      requires Valid() && ix in sizes
      modifies this, dev
      ensures Valid() && files == old(files) - {ix} && sizes == old(sizes) - {ix}
      ensures FreeZones(dev.io.disk, sb) == FreeZones(old(dev.io.disk), sb) + Elems(old(files)[ix])
      ensures !GetBit(dev.io.disk, IMAP_START, ix)
      ensures OthersSame(old(dev.io.disk), dev.io.disk, sb, old(files), ix)
      ensures FreeSame(old(dev.io.disk), dev.io.disk, sb) && InodeGiven(old(dev.io.disk), dev.io.disk, sb, ix)
      ensures VolumeKept(old(dev.io.disk), dev.io.disk, sb, old(files), files)
    {
      hide VolOk, GetBit, FreeZones, Cached, OthersSame, NodeAt, PutBit, DropBit, FileBytes, Elems, WithNode, Working;
      hide Aside, FreeSame, InodeGiven, VolumeKept, HoldsNode, OnlyNodeBytes;
      ghost var d, files0 := dev.io.disk, files;
      OpenCached(d, sb, files, sizes, ix);
      var ok := Truncate(ix, 0, 0);
      ghost var d1 := dev.io.disk;
      OpenCached(d1, sb, files, sizes, ix);
      LastZone(d1, sb, files, ix);
      var node := ReadInode(ix);
      UnmarkZmap(node[ZONE_WORD]);
      ghost var d2 := dev.io.disk;
      WriteInode(ix, EmptyNode(0));
      UnmarkMap(dev, ix, IMAP_START);
      Destroyed(d1, sb, files, ix);
      OthersSameTrans(d, d1, dev.io.disk, sb, files0, files, ix);
      CachedLess(d1, dev.io.disk, sb, files, sizes, ix);
      FreedAll(d, d1, dev.io.disk, sb, files0[ix], files[ix]);
      DestroyedAside(d, d1, dev.io.disk, sb, files0, ix);
      sizes := sizes - {ix};
      files := files - {ix};
    }
  }

  /** A file of size 0 has one zone, the one its first direct pointer names. */
  lemma LastZone(d: Disk, sb: Super, files: map<nat, seq<nat>>, ix: nat)
    requires VolOk(d, sb, files) && ix in files && |files[ix]| == 1 && ix > 0 && NodeBlock(sb, ix) < |d|
    ensures NodeAt(d, sb, ix)[ZONE_WORD] == files[ix][0] && ZoneOk(sb, files[ix][0])
    ensures GoodLayout(sb, d) && ix < sb.InodeBits() && ValidIndex(sb, ix)
    ensures IMAP_START + ix / 8 / BLOCK_SIZE < |d|
  {
    hide NodeAt, GetBit, PutBit, DropBit, Marked;
    assert FileIn(d, sb, ix, files[ix]);
    HeldAt(d, NodeAt(d, sb, ix), files[ix], Data(0));
    assert files[ix][0] in files[ix];
    ImapBit(d, sb, ix);
  }

  lemma Destroyed(d1: Disk, sb: Super, files: map<nat, seq<nat>>, ix: nat)
    requires VolOk(d1, sb, files) && ix in files && |files[ix]| == 1 && ix > 0 && NodeBlock(sb, ix) < |d1|
    ensures var z := files[ix][0];
            && sb.firstDataZone <= z && sb.ZmapStart() + ZoneBit(sb, z) / 8 / BLOCK_SIZE < |d1|
            && IMAP_START + ix / 8 / BLOCK_SIZE < |d1|
            && var d2 := DropBit(d1, sb.ZmapStart(), ZoneBit(sb, z));
            var d3 := WithNode(d2, sb, ix, EmptyNode(0));
            var d4 := DropBit(d3, IMAP_START, ix);
            && VolOk(d4, sb, files - {ix}) && FreeZones(d4, sb) == FreeZones(d1, sb) + {z}
            && !GetBit(d4, IMAP_START, ix) && OthersSame(d1, d4, sb, files, ix)
            && FreeSame(d1, d4, sb) && InodeGiven(d1, d4, sb, ix)
  {
    hide FileOk, FreeZones, NodeAt, GetBit, OthersSame, WithNode, DropBit, PutBit, FreeSame, InodeGiven;
    var rest, zs, z := files - {ix}, files[ix], files[ix][0];
    LastZone(d1, sb, files, ix);
    Open(d1, sb, files, ix);
    var n := NodeAt(d1, sb, ix);
    WorkingPop(d1, sb, rest, n, zs, Data(0));
    UnmarkZone(d1, sb, z);
    var d2 := DropBit(d1, sb.ZmapStart(), ZoneBit(sb, z));
    assert Store(d2, n, Data(0), 0).0 == d2;
    hide VolOk;
    DestroyedRest(d1, d2, sb, files, ix, zs);
    GivenBack(d1, d2, sb, ix);
  }

  /** Giving a file's inode back touches no free zone and no other inode. */
  lemma GivenBack(d1: Disk, d2: Disk, sb: Super, ix: nat)
    requires GoodLayout(sb, d1) && ValidIndex(sb, ix) && ix < sb.InodeBits() && OnlyZmap(d1, d2, sb)
    requires NodeBlock(sb, ix) < |d2| && IMAP_START + ix / 8 / BLOCK_SIZE < |d2|
    ensures var d4 := DropBit(WithNode(d2, sb, ix, EmptyNode(0)), IMAP_START, ix);
            FreeSame(d1, d4, sb) && InodeGiven(d1, d4, sb, ix)
  {
    hide GetBit, DropBit, WithNode, Marked;
    var d3 := WithNode(d2, sb, ix, EmptyNode(0));
    TableOnly(d2, sb, ix, EmptyNode(0));
    ImapBit(d3, sb, ix);
    forall jx | 0 <= jx < sb.InodeBits() ensures GetBit(d3, IMAP_START, jx) == GetBit(d1, IMAP_START, jx) {
      ImapFrame(d1, d3, sb, jx);
    }
  }

  lemma DestroyedAside(d: Disk, d1: Disk, d4: Disk, sb: Super, files: map<nat, seq<nat>>, ix: nat)
    requires VolOk(d, sb, files) && ix in files && Aside(d, d1, sb) && FreeZones(d, sb) <= FreeZones(d1, sb)
    requires FreeSame(d1, d4, sb) && InodeGiven(d1, d4, sb, ix)
    requires FreeZones(d4, sb) == FreeZones(d, sb) + Elems(files[ix])
    ensures FreeSame(d, d4, sb) && InodeGiven(d, d4, sb, ix) && VolumeKept(d, d4, sb, files, files - {ix})
  {
    hide FreeZones, UsedZones, GetBit, FileOk, NodeAt, Elems;
    assert FileIn(d, sb, ix, files[ix]);
    forall jx | 0 <= jx < sb.InodeBits() ensures GetBit(d1, IMAP_START, jx) == GetBit(d, IMAP_START, jx) {
      ImapFrame(d, d1, sb, jx);
    }
    UsedSplit(files, ix, []);
    assert FreeInodes(d4, sb) == FreeInodes(d, sb) + {ix};
  }

  lemma DestroyedRest(d1: Disk, d2: Disk, sb: Super, files: map<nat, seq<nat>>, ix: nat, zs: seq<nat>)
    requires VolOk(d2, sb, files - {ix}) && ValidIndex(sb, ix) && ix < sb.InodeBits() && NodeBlock(sb, ix) < |d2|
    requires VolOk(d1, sb, files - {ix}) && OnlyZmap(d1, d2, sb)
    ensures IMAP_START + ix / 8 / BLOCK_SIZE < |d2|
    ensures var d3 := WithNode(d2, sb, ix, EmptyNode(0));
            var d4 := DropBit(d3, IMAP_START, ix);
            && VolOk(d4, sb, files - {ix}) && FreeZones(d4, sb) == FreeZones(d2, sb)
            && !GetBit(d4, IMAP_START, ix) && OthersSame(d1, d4, sb, files, ix)
  {
    hide FileOk, FreeZones, NodeAt, GetBit, OthersSame, WithNode, DropBit, PutBit;
    var rest := files - {ix};
    var d3 := WithNode(d2, sb, ix, EmptyNode(0));
    LayoutOf(d2, sb, rest);
    VolNode(d2, sb, rest, ix, EmptyNode(0));
    ImapBit(d3, sb, ix);
    var d4 := DropBit(d3, IMAP_START, ix);
    forall jx | jx in rest ensures GetBit(d4, IMAP_START, jx) { assert FileIn(d3, sb, jx, rest[jx]); }
    VolImap(d3, d4, sb, rest);
    hide VolOk;
    assert OnlyFile(d1, d2, sb, []);
    OnlyFileOthers(d1, d2, sb, files, ix, []);
    WriteNodeOthers(d2, sb, files, ix, EmptyNode(0));
    OnlyImapOthers(d3, d4, sb, files, ix);
    OthersSameTrans(d1, d2, d3, sb, files, files, ix);
    OthersSameTrans(d1, d3, d4, sb, files, files, ix);
  }

  lemma CachedLess(d: Disk, d': Disk, sb: Super, files: map<nat, seq<nat>>, sizes: map<nat, nat>, ix: nat)
    requires Cached(d, sb, files, sizes) && OthersSame(d, d', sb, files, ix)
    ensures Cached(d', sb, files - {ix}, sizes - {ix})
  {
    hide NodeAt, Bytes;
  }

  lemma FreedAll(d: Disk, d1: Disk, d2: Disk, sb: Super, zs: seq<nat>, ys: seq<nat>)
    requires ShrankZones(d, d1, sb, zs, ys) && |ys| == 1 && FreeZones(d2, sb) == FreeZones(d1, sb) + {ys[0]}
    ensures FreeZones(d2, sb) == FreeZones(d, sb) + Elems(zs)
  {
    hide FreeZones;
    assert zs == [ys[0]] + zs[1..];
    assert Elems(zs) == {ys[0]} + Elems(zs[1..]);
  }

  function EmptyNode(mode: nat): (n: Node)
    requires mode < 0x1_0000
    ensures n[0] == mode && forall i :: 0 < i < 16 ==> n[i] == 0
  {
    [mode, 0, 0, 0, 0, 0, 0, 0, 0, 0, 0, 0, 0, 0, 0, 0]
  }

  lemma NewNodeHeld(d: Disk, sb: Super, ix: nat, mode: nat, z: Word)
    requires ix > 0 && mode < 0x1_0000 && HoldsNode(d, sb, ix, EmptyNode(mode)[ZONE_WORD := z])
    ensures NewNode(d, sb, ix, mode, z)
  {
    hide Long, NodeStart, EmptyNode;
    var n: Node := EmptyNode(mode)[ZONE_WORD := z];
    assert n[0] == Long(d, NodeStart(sb, ix) + 4 * 0) && n[6] == Long(d, NodeStart(sb, ix) + 4 * 6);
    forall k | 1 <= k < 16 && k != 6 ensures Long(d, NodeStart(sb, ix) + 4 * k) == 0 {
      assert n[k] == EmptyNode(mode)[k];
    }
  }

  lemma LayoutOf(d: Disk, sb: Super, files: map<nat, seq<nat>>)
    requires VolOk(d, sb, files)
    ensures GoodLayout(sb, d) && GetBit(d, sb.ZmapStart(), 0) && GetBit(d, IMAP_START, 0)
  {
  }

  /** Taking an inode bit gives an index no file has. */
  lemma TookInode(d: Disk, d': Disk, sb: Super, files: map<nat, seq<nat>>, index: nat)
    requires VolOk(d, sb, files) && TookBit(d, d', IMAP_START, sb.InodeBits(), index)
    ensures index == 0 <==> AllSet(d, IMAP_START, sb.InodeBits())
    ensures index == 0 ==> d' == d
    ensures index != 0 ==>
              && ValidIndex(sb, index) && index < sb.InodeBits() && index !in files
              && IMAP_START + index / 8 / BLOCK_SIZE < |d| && d' == PutBit(d, IMAP_START, index)
              && !GetBit(d, IMAP_START, index) && GetBit(d', IMAP_START, index)
              && VolOk(d', sb, files) && FreeZones(d', sb) == FreeZones(d, sb) && OnlyImap(d, d', sb)
  {
    hide GetBit, PutBit, FileOk, DropBit, FreeZones;
    if !AllSet(d, IMAP_START, sb.InodeBits()) {
      ImapBit(d, sb, index);
      forall ix | ix in files ensures GetBit(d', IMAP_START, ix) && ix != index {
        assert FileIn(d, sb, ix, files[ix]);
      }
      VolImap(d, d', sb, files);
    }
  }

  lemma NewFile(d: Disk, d1: Disk, d2: Disk, sb: Super, files: map<nat, seq<nat>>, ix: nat, z: nat, n: Node)
    requires VolOk(d, sb, files) && VolOk(d1, sb, files) && OnlyImap(d, d1, sb) && FreeZones(d1, sb) != {}
    requires z == MinOf(FreeZones(d1, sb)) && d2 == NextMarked(d1, sb)
    requires ix !in files && ValidIndex(sb, ix) && ix < sb.InodeBits() && GetBit(d1, IMAP_START, ix)
    requires SizeOf(n) == 0 && forall i :: ZONE_WORD <= i < 16 ==> n[i] == 0
    ensures 0 < z < 0x1_0000 && NodeBlock(sb, ix) < |d2|
    ensures var d3 := WithNode(d2, sb, ix, n[ZONE_WORD := z]);
            && |d3| == |d| && VolOk(d3, sb, files[ix := [z]]) && NodeAt(d3, sb, ix) == n[ZONE_WORD := z]
            && FreeZones(d3, sb) == FreeZones(d1, sb) - {z} && OthersSame(d, d3, sb, files, ix)
            && GetBit(d3, IMAP_START, ix)
    ensures OnlyZmap(d1, d2, sb)
  {
    hide FileOk, FreeZones, NodeAt, GetBit, NextMarked, OthersSame, WithNode;
    var rest := files - {ix};
    assert rest == files;
    EmptyFile(d1, n);
    assert Working(d1, sb, files, n, []);
    NextZone(d1, sb, files, n, []);
    IndexRanks(Data(0));
    WorkingPush(d2, sb, files, n, [], Data(0), z);
    assert [] + [z] == [z] && Store(d2, n, Data(0), z) == (d2, n[ZONE_WORD := z]);
    NodeBelowZones(sb, d2, ix);
    ImapFrame(d1, d2, sb, ix);
    hide VolOk;
    Close(d2, sb, files, ix, n[ZONE_WORD := z], [z]);
    NewFileOthers(d, d1, d2, sb, files, ix, n[ZONE_WORD := z]);
    ImapFrame(d2, WithNode(d2, sb, ix, n[ZONE_WORD := z]), sb, ix) by {
      NodeFarFromImap(d2, sb, ix, n[ZONE_WORD := z]);
    }
  }

  /** Inode `ix` was taken, and no other inode was taken or given back. */
  ghost predicate InodeTaken(d: Disk, d': Disk, sb: Super, ix: nat) {
    forall jx :: 0 <= jx < sb.InodeBits() ==> GetBit(d', IMAP_START, jx) == (jx == ix || GetBit(d, IMAP_START, jx))
  }

  /** Inode `ix` was given back, and no other inode was taken or given back. */
  ghost predicate InodeGiven(d: Disk, d': Disk, sb: Super, ix: nat) {
    forall jx :: 0 <= jx < sb.InodeBits() ==> GetBit(d', IMAP_START, jx) == (jx != ix && GetBit(d, IMAP_START, jx))
  }

  /** Making a file touches no free zone and no other inode. */
  lemma NewFileRest(d: Disk, d1: Disk, d2: Disk, sb: Super, ix: nat, n: Node)
    requires GoodLayout(sb, d) && ValidIndex(sb, ix) && ix < sb.InodeBits() && IMAP_START + ix / 8 / BLOCK_SIZE < |d|
    requires d1 == PutBit(d, IMAP_START, ix) && OnlyImap(d, d1, sb) && OnlyZmap(d1, d2, sb) && NodeBlock(sb, ix) < |d2|
    ensures var d3 := WithNode(d2, sb, ix, n); FreeSame(d, d3, sb) && InodeTaken(d, d3, sb, ix)
  {
    hide GetBit, PutBit, WithNode, Marked;
    var d3 := WithNode(d2, sb, ix, n);
    TableOnly(d2, sb, ix, n);
    ImapBit(d, sb, ix);
    forall jx | 0 <= jx < sb.InodeBits() ensures GetBit(d3, IMAP_START, jx) == GetBit(d1, IMAP_START, jx) {
      ImapFrame(d1, d3, sb, jx);
    }
  }

  lemma NewFileVolume(d: Disk, d': Disk, sb: Super, files: map<nat, seq<nat>>, ix: nat, z: nat)
    requires ix !in files && ix < sb.InodeBits() && !GetBit(d, IMAP_START, ix) && InodeTaken(d, d', sb, ix)
    requires z in FreeZones(d, sb) && FreeZones(d', sb) == FreeZones(d, sb) - {z}
    ensures VolumeKept(d, d', sb, files, files[ix := [z]])
  {
    hide FreeZones, UsedZones, GetBit;
    UsedSplit(files, ix, [z]);
    assert Elems([z]) == {z};
    assert FreeInodes(d', sb) == FreeInodes(d, sb) - {ix};
  }

  lemma NodeFarFromImap(d: Disk, sb: Super, ix: nat, n: Node)
    requires GoodLayout(sb, d) && ValidIndex(sb, ix) && NodeBlock(sb, ix) < |d|
    ensures forall k :: IMAP_START <= k < sb.ZmapStart() ==> WithNode(d, sb, ix, n)[k] == d[k]
  {
    NodeBelowZones(sb, d, ix);
  }

  lemma NewFileOthers(d: Disk, d1: Disk, d2: Disk, sb: Super, files: map<nat, seq<nat>>, ix: nat, n: Node)
    requires VolOk(d, sb, files) && OnlyImap(d, d1, sb) && OnlyZmap(d1, d2, sb) && VolOk(d1, sb, files)
    requires VolOk(d2, sb, files) && ix !in files && ValidIndex(sb, ix) && NodeBlock(sb, ix) < |d2|
    ensures OthersSame(d, WithNode(d2, sb, ix, n), sb, files, ix)
  {
    hide VolOk, OthersSame, WithNode;
    assert files - {ix} == files;
    OnlyImapOthers(d, d1, sb, files, ix);
    assert OnlyFile(d1, d2, sb, []);
    OnlyFileOthers(d1, d2, sb, files, ix, []);
    WriteNodeOthers(d2, sb, files, ix, n);
    OthersSameTrans(d, d1, d2, sb, files, files, ix);
    OthersSameTrans(d, d2, WithNode(d2, sb, ix, n), sb, files, files, ix);
  }

  lemma CachedNew(d: Disk, d': Disk, sb: Super, files: map<nat, seq<nat>>, sizes: map<nat, nat>, ix: nat, n: Node,
                  zs: seq<nat>)
    requires Cached(d, sb, files, sizes) && OthersSame(d, d', sb, files, ix) && ix !in files
    requires ix > 0 && NodeBlock(sb, ix) < |d'| && NodeAt(d', sb, ix) == n && SizeOf(n) == 0
    ensures Cached(d', sb, files[ix := zs], sizes[ix := 0])
  {
    hide NodeAt, Bytes;
  }

  lemma SliceCases(s: seq<Byte>, lo: nat, hi: nat)
    requires lo <= hi
    ensures |s| <= lo ==> Slice(s, lo, hi) == []
    ensures lo < |s| ==> Slice(s, lo, hi) == s[lo..if |s| < hi then |s| else hi]
  {
  }

  lemma SliceStep(s: seq<Byte>, lo: nat, mid: nat, copy: nat)
    requires lo <= mid && mid + copy <= |s|
    ensures s[lo..mid] + s[mid..mid + copy] == s[lo..mid + copy]
  {
  }

  /** The part of `s` from `lo` up to `hi`, as far as `s` reaches. */
  ghost function Slice(s: seq<Byte>, lo: nat, hi: nat): seq<Byte> {
    if |s| <= lo || hi < lo then [] else if hi <= |s| then s[lo..hi] else s[lo..]
  }

  lemma SameBlock(at: nat, j: nat)
    requires at % BLOCK_SIZE + j < BLOCK_SIZE
    ensures (at + j) / BLOCK_SIZE == at / BLOCK_SIZE && (at + j) % BLOCK_SIZE == at % BLOCK_SIZE + j
  {
  }

  /** A piece of a data block is the same piece of the file. */
  lemma PieceRead(d: Disk, sb: Super, rest: map<nat, seq<nat>>, n: Node, zs: seq<nat>, size: nat, at: nat, copy: nat)
    requires Working(d, sb, rest, n, zs) && |zs| == ZonesFor(size / BLOCK_SIZE)
    requires at + copy <= size && at % BLOCK_SIZE + copy <= BLOCK_SIZE
    ensures var r := Rank(Data(at / BLOCK_SIZE));
            && r < |zs| && 0 < zs[r] < |d|
            && d[zs[r]][at % BLOCK_SIZE..at % BLOCK_SIZE + copy] == Bytes(d, zs, size)[at..at + copy]
  {
    Lookups(d, sb, rest, n, zs, size / BLOCK_SIZE, at / BLOCK_SIZE);
    hide FileOk, VolOk, Rank, Bytes, ZonesFor;
    ZonesAbove(d, sb, n, zs, zs[Rank(Data(at / BLOCK_SIZE))]);
    PieceBytes(d, zs, size, at, copy);
  }

  lemma PieceBytes(d: Disk, zs: seq<nat>, size: nat, at: nat, copy: nat)
    requires at + copy <= size && at % BLOCK_SIZE + copy <= BLOCK_SIZE
    requires var r := Rank(Data(at / BLOCK_SIZE)); r < |zs| && zs[r] < |d|
    ensures var r := Rank(Data(at / BLOCK_SIZE));
            d[zs[r]][at % BLOCK_SIZE..at % BLOCK_SIZE + copy] == Bytes(d, zs, size)[at..at + copy]
  {
    hide Rank, Bytes;
    var r, o := Rank(Data(at / BLOCK_SIZE)), at % BLOCK_SIZE;
    var piece, bytes := d[zs[r]][o..o + copy], Bytes(d, zs, size);
    forall j | 0 <= j < copy ensures piece[j] == bytes[at + j] {
      SameBlock(at, j);
    }
  }

  const ENOSPC := 28

  /** How many bytes a result of `inode_write` says were written. */
  function Written(r: int): nat {
    if r < 0 then 0 else r
  }

  /** File `ix` has exactly `data` put in at `start`, and its size says so. */
  ghost predicate Put(d: Disk, d': Disk, sb: Super, files: map<nat, seq<nat>>, files': map<nat, seq<nat>>,
                      sizes: map<nat, nat>, sizes': map<nat, nat>, ix: nat, start: nat, data: seq<Byte>) {
    && ix in files && ix in files' && ix in sizes && files' == files[ix := files'[ix]]
    && start <= sizes[ix] == |FileBytes(d, sb, files, ix)|
    && sizes' == sizes[ix := Max(sizes[ix], start + |data|)]
    && FileBytes(d', sb, files', ix) == Spliced(FileBytes(d, sb, files, ix), start, data)
  }

  /** File `ix` has `data` written at `start`; the file took zones for it if need be, and every
      other file is as it was. */
  ghost predicate Wrote(d: Disk, d': Disk, sb: Super, files: map<nat, seq<nat>>, files': map<nat, seq<nat>>,
                        sizes: map<nat, nat>, sizes': map<nat, nat>, ix: nat, start: nat, data: seq<Byte>) {
    && Put(d, d', sb, files, files', sizes, sizes', ix, start, data)
    && GrewZones(d, d', sb, files[ix], files'[ix])
    && |files'[ix]| == ZonesFor(sizes'[ix] / BLOCK_SIZE)
    && OthersSame(d, d', sb, files, ix)
  }

  lemma WroteIn(d: Disk, d': Disk, sb: Super, files: map<nat, seq<nat>>, files': map<nat, seq<nat>>,
                sizes: map<nat, nat>, sizes': map<nat, nat>, ix: nat, start: nat, data: seq<Byte>)
    requires Wrote(d, d', sb, files, files', sizes, sizes', ix, start, data)
    ensures ix in files' && ix in sizes' && start + |data| <= sizes'[ix]
  {
  }

  lemma WroteNothing(d: Disk, sb: Super, files: map<nat, seq<nat>>, sizes: map<nat, nat>, ix: nat, start: nat)
    requires ix in files && ix in sizes && start <= sizes[ix] == |FileBytes(d, sb, files, ix)|
    requires |files[ix]| == ZonesFor(sizes[ix] / BLOCK_SIZE)
    ensures Wrote(d, d, sb, files, files, sizes, sizes, ix, start, [])
  {
    hide FreeZones, FileBytes, Rank, OthersSame, GrewZones;
    NoGrowth(d, sb, files[ix]);
    NothingChanged(d, sb, files, ix);
    assert sizes[ix := sizes[ix]] == sizes;
    assert Spliced(FileBytes(d, sb, files, ix), start, []) == FileBytes(d, sb, files, ix);
  }

  lemma WroteNext(d0: Disk, d1: Disk, d2: Disk, sb: Super, files0: map<nat, seq<nat>>, files1: map<nat, seq<nat>>,
                  files2: map<nat, seq<nat>>, sizes0: map<nat, nat>, sizes1: map<nat, nat>, sizes2: map<nat, nat>,
                  ix: nat, start: nat, done: seq<Byte>, piece: seq<Byte>)
    requires Wrote(d0, d1, sb, files0, files1, sizes0, sizes1, ix, start, done)
    requires Wrote(d1, d2, sb, files1, files2, sizes1, sizes2, ix, start + |done|, piece)
    ensures Wrote(d0, d2, sb, files0, files2, sizes0, sizes2, ix, start, done + piece)
  {
    hide FreeZones, FileBytes, GrewZones, OthersSame, Spliced, Rank;
    GrewZonesTrans(d0, d1, d2, sb, files0[ix], files1[ix], files2[ix]);
    OthersSameTrans(d0, d1, d2, sb, files0, files1, ix);
    SpliceNext(FileBytes(d0, sb, files0, ix), start, done, piece);
  }

  lemma MoreZones(a: nat, b: nat)
    requires a <= b
    ensures ZonesFor(a) <= ZonesFor(b)
  {
    if a < b { MoreBlocksMoreZones(a, b); }
  }

  lemma WroteEnough(d: Disk, d': Disk, sb: Super, files: map<nat, seq<nat>>, files': map<nat, seq<nat>>,
                    sizes: map<nat, nat>, sizes': map<nat, nat>, ix: nat, start: nat, data: seq<Byte>)
    requires Wrote(d, d', sb, files, files', sizes, sizes', ix, start, data)
    ensures ix in files && ix in sizes && Enough(d, sb, files[ix], Max(sizes[ix], start + |data|))
    ensures OthersSame(d, d', sb, files, ix) && Put(d, d', sb, files, files', sizes, sizes', ix, start, data)
  {
    hide FreeZones, FileBytes, OthersSame, Spliced, Rank;
  }

  /** If the zones do not suffice for a piece they did not suffice for the whole. */
  lemma NotEnough(d: Disk, d1: Disk, sb: Super, files: map<nat, seq<nat>>, files1: map<nat, seq<nat>>,
                  sizes: map<nat, nat>, sizes1: map<nat, nat>, ix: nat, start: nat, done: seq<Byte>, copy: nat,
                  all: nat)
    requires Wrote(d, d1, sb, files, files1, sizes, sizes1, ix, start, done) && |done| + copy <= all
    requires !Enough(d1, sb, files1[ix], Max(sizes1[ix], start + |done| + copy))
    ensures !Enough(d, sb, files[ix], Max(sizes[ix], start + all)) && copy > 0
  {
    hide FreeZones, FileBytes, OthersSame, Spliced, Rank;
    MoreZones(Max(sizes1[ix], start + |done| + copy) / BLOCK_SIZE, Max(sizes[ix], start + all) / BLOCK_SIZE);
  }

  /** A step that failed leaves what the steps before it wrote. */
  lemma FailedWrite(d: Disk, d1: Disk, d2: Disk, sb: Super, files: map<nat, seq<nat>>, files1: map<nat, seq<nat>>,
                    sizes: map<nat, nat>, sizes1: map<nat, nat>, ix: nat, start: nat, done: seq<Byte>)
    requires Wrote(d, d1, sb, files, files1, sizes, sizes1, ix, start, done) && OthersSame(d1, d2, sb, files1, ix)
    requires ix in files1 && Intact(d1, d2, sb, files1[ix], ix) && AttributesKept(d, d1, sb, ix)
    ensures OthersSame(d, d2, sb, files, ix) && files1 - {ix} == files - {ix}
    ensures Put(d, d2, sb, files, files1, sizes, sizes1, ix, start, done) && AttributesKept(d, d2, sb, ix)
    ensures Found(d2, sb, files1[ix], ix)
  {
    hide FreeZones, OthersSame, Spliced, Rank, GrewZones, NodeAt, Bytes, Found;
    OthersSameTrans(d, d1, d2, sb, files, files1, ix);
  }

  function Max(a: nat, b: nat): nat {
    if a < b then b else a
  }

  /** The free zones suffice for the file to hold `size` bytes. */
  ghost predicate Enough(d: Disk, sb: Super, zs: seq<nat>, size: nat) {
    ZonesFor(size / BLOCK_SIZE) - |zs| <= |FreeZones(d, sb)|
  }

  lemma NoGrowth(d: Disk, sb: Super, zs: seq<nat>)
    ensures GrewZones(d, d, sb, zs, zs)
  {
    assert zs[|zs|..] == [];
  }

  lemma CachedSame(d: Disk, d': Disk, sb: Super, files: map<nat, seq<nat>>, ix: nat, sizes: map<nat, nat>)
    requires Cached(d, sb, files, sizes) && OthersSame(d, d', sb, files, ix)
    requires ix > 0 && NodeBlock(sb, ix) < |d| && NodeAt(d', sb, ix) == NodeAt(d, sb, ix)
    ensures Cached(d', sb, files, sizes)
  {
    hide NodeAt, Bytes;
  }

  lemma OpenCached(d: Disk, sb: Super, files: map<nat, seq<nat>>, sizes: map<nat, nat>, ix: nat)
    requires VolOk(d, sb, files) && Cached(d, sb, files, sizes) && ix in sizes
    ensures ix in files && ix > 0 && NodeBlock(sb, ix) < |d| && sizes[ix] == SizeOf(NodeAt(d, sb, ix))
    ensures |files[ix]| == ZonesFor(sizes[ix] / BLOCK_SIZE) && |FileBytes(d, sb, files, ix)| == sizes[ix]
  {
    assert FileIn(d, sb, ix, files[ix]);
  }

  lemma CommitKeeps(d: Disk, d1: Disk, d2: Disk, sb: Super, zs: seq<nat>, ys: seq<nat>, m: nat)
    requires OnlyTable(d1, d2, sb) && FreeZones(d2, sb) == FreeZones(d1, sb)
    ensures GrewZones(d, d1, sb, zs, ys) ==> GrewZones(d, d2, sb, zs, ys)
    ensures ShrankZones(d, d1, sb, zs, ys) ==> ShrankZones(d, d2, sb, zs, ys)
    ensures Clean(d1, FreeZones(d1, sb), |ys|, m) ==> Clean(d2, FreeZones(d2, sb), |ys|, m)
    ensures Aside(d, d1, sb) && sb.ZmapStart() <= sb.TableStart() ==> Aside(d, d2, sb)
  {
    hide Elems;
    if Clean(d1, FreeZones(d1, sb), |ys|, m) {
      CleanFrame(d1, d2, FreeZones(d1, sb), |ys|, m);
    }
  }

  lemma NothingChanged(d: Disk, sb: Super, files: map<nat, seq<nat>>, ix: nat)
    requires ix in files
    ensures OthersSame(d, d, sb, files, ix) && ShrankZones(d, d, sb, files[ix], files[ix])
    ensures files == files[ix := files[ix]]
    ensures FileBytes(d, sb, files, ix) == Resized(FileBytes(d, sb, files, ix), |FileBytes(d, sb, files, ix)|)
  {
    hide Bytes, NodeAt, FreeZones;
    assert files[ix][|files[ix]|..] == [];
  }

  /** The disks differ in the inode table only. */
  ghost predicate OnlyTable(d: Disk, d': Disk, sb: Super) {
    |d'| == |d| && forall k :: 0 <= k < |d| && !(sb.TableStart() <= k < sb.firstDataZone) ==> d'[k] == d[k]
  }

  lemma TableOnly(d: Disk, sb: Super, ix: nat, n: Node)
    requires GoodLayout(sb, d) && ValidIndex(sb, ix) && NodeBlock(sb, ix) < |d|
    ensures OnlyTable(d, WithNode(d, sb, ix, n), sb)
  {
    NodeBelowZones(sb, d, ix);
  }

  lemma IndexOf(d: Disk, sb: Super, files: map<nat, seq<nat>>, ix: nat)
    requires VolOk(d, sb, files) && ix in files
    ensures FileIn(d, sb, ix, files[ix]) && ValidIndex(sb, ix) && ix < sb.InodeBits() && NodeBlock(sb, ix) < |d|
  {
  }

  lemma SameLength(d: Disk, d': Disk, sb: Super, files: map<nat, seq<nat>>, ix: nat)
    requires OthersSame(d, d', sb, files, ix)
    ensures |d'| == |d|
  {
  }

  lemma CachedAfter(d: Disk, d': Disk, sb: Super, files: map<nat, seq<nat>>, ix: nat, sizes: map<nat, nat>, n: Node)
    requires Cached(d, sb, files, sizes) && OthersSame(d, d', sb, files, ix)
    requires ix in files && ix > 0 && NodeBlock(sb, ix) < |d'| && NodeAt(d', sb, ix) == n
    ensures Cached(d', sb, files, sizes[ix := SizeOf(n)])
  {
    hide NodeAt, Bytes;
  }

  lemma CachedFiles(d: Disk, sb: Super, files: map<nat, seq<nat>>, files': map<nat, seq<nat>>, sizes: map<nat, nat>)
    requires Cached(d, sb, files, sizes) && files.Keys == files'.Keys
    ensures Cached(d, sb, files', sizes)
  {
    hide NodeAt;
  }

  lemma AfterShrink(d: Disk, d': Disk, sb: Super, files: map<nat, seq<nat>>, ix: nat, n: Node, n': Node, ys: seq<nat>,
                    size: nat)
    requires VolOk(d, sb, files) && ix in files && ix > 0 && NodeBlock(sb, ix) < |d| && n == NodeAt(d, sb, ix)
    requires Working(d', sb, files - {ix}, n', ys) && Shrank(d, d', sb, files[ix], ys)
    requires size <= SizeOf(n) && |ys| == ZonesFor(size / BLOCK_SIZE)
    ensures OthersSame(d, d', sb, files, ix) && GetBit(d', IMAP_START, ix)
    ensures Bytes(d', ys, size) == Resized(Bytes(d, files[ix], SizeOf(n)), size)
  {
    hide NodeAt, OthersSame, FreeZones, ByteAt, FileOk, OnlyFile, GetBit;
    var zs := files[ix];
    assert FileIn(d, sb, ix, zs);
    Open(d, sb, files, ix);
    OnlyIndexIsFile(d, d', sb, zs);
    OnlyFileOthers(d, d', sb, files, ix, zs);
    ImapKept(d, d', sb, zs, ix);
    SizeFits(d, sb, files - {ix}, n, zs, SizeOf(n) / BLOCK_SIZE);
    forall i | 0 <= i < size ensures ByteAt(d', ys, i) == ByteAt(d, zs, i) {
      CutByte(d, d', sb, files - {ix}, n, zs, n', ys, size, i);
    }
  }

  lemma ShrankAside(d: Disk, d': Disk, sb: Super, rest: map<nat, seq<nat>>, n: Node, zs: seq<nat>, ys: seq<nat>)
    requires Working(d, sb, rest, n, zs) && Shrank(d, d', sb, zs, ys)
    ensures Aside(d, d', sb) && FreeZones(d, sb) <= FreeZones(d', sb)
  {
    hide FileOk, FileIn, OnlyFile, Aside, FreeZones;
    OnlyIndexIsFile(d, d', sb, zs);
    OnlyFileAside(d, d', sb, zs);
  }

  lemma ImapKept(d: Disk, d': Disk, sb: Super, zs: seq<nat>, ix: nat)
    requires GoodLayout(sb, d) && FileIn(d, sb, ix, zs) && OnlyFile(d, d', sb, zs)
    ensures GetBit(d', IMAP_START, ix)
  {
    hide FileOk, NodeAt, GetBit;
    ImapFrame(d, d', sb, ix);
  }

  lemma CutByte(d: Disk, d': Disk, sb: Super, rest: map<nat, seq<nat>>, n: Node, zs: seq<nat>, n': Node, ys: seq<nat>,
                size: nat, i: nat)
    requires Working(d, sb, rest, n, zs) && Working(d', sb, rest, n', ys) && Shrank(d, d', sb, zs, ys)
    requires |ys| == ZonesFor(size / BLOCK_SIZE) && i < size && size / BLOCK_SIZE < 0x1_0000
    ensures ByteAt(d', ys, i) == ByteAt(d, zs, i)
  {
    hide FreeZones, FileIn;
    MappedExactly(d', n', ys, size / BLOCK_SIZE, i / BLOCK_SIZE);
    forall z | z in zs ensures sb.TableStart() <= z < |d| { ZonesAbove(d, sb, n, zs, z); }
    ShrankBytes(d, d', sb, zs, ys, i);
  }

  lemma AfterExtend(d: Disk, d1: Disk, sb: Super, files: map<nat, seq<nat>>, ix: nat, n: Node, n': Node, ys: seq<nat>,
                    m: nat)
    requires VolOk(d, sb, files) && ix in files && ix > 0 && NodeBlock(sb, ix) < |d| && n == NodeAt(d, sb, ix)
    requires Growing(d1, sb, files - {ix}, n', ys, m) && Grew(d, d1, sb, files[ix], ys)
    ensures ValidIndex(sb, ix) && NodeBlock(sb, ix) < |d1| && NodeAt(d1, sb, ix) == n && OldNode(n, files[ix])
    ensures OnlyFile(d, d1, sb, ys) && files[ix] <= ys && GrewZones(d, d1, sb, files[ix], ys)
    ensures FreeZones(d1, sb) <= FreeZones(d, sb)
    ensures VolOk(d1, sb, files - {ix}) && OthersSame(d, d1, sb, files, ix)
    ensures forall i :: 0 <= i < SizeOf(n) ==> ByteAt(d1, ys, i) == ByteAt(d, files[ix], i)
  {
    hide NodeAt, OthersSame, FreeZones, ByteAt, OldNode, Clean, FileOk, OnlyFile;
    var zs := files[ix];
    assert FileIn(d, sb, ix, zs);
    Open(d, sb, files, ix);
    OnlyIndexIsFile(d, d1, sb, ys);
    FileOldNode(d, n, zs);
    AfterFill(d, d1, sb, files, ix, n', ys, m);
    SizeFits(d, sb, files - {ix}, n, zs, SizeOf(n) / BLOCK_SIZE);
    forall i | 0 <= i < SizeOf(n) ensures ByteAt(d1, ys, i) == ByteAt(d, zs, i) {
      KeptByte(d, d1, sb, files - {ix}, n, zs, n', ys, m, i);
    }
  }

  /** The inode on disk leads to the file's zones: what is read through it is the file's bytes. */
  ghost predicate Found(d: Disk, sb: Super, zs: seq<nat>, ix: nat) {
    && ix > 0 && NodeBlock(sb, ix) < |d|
    && forall b :: 0 <= b <= SizeOf(NodeAt(d, sb, ix)) / BLOCK_SIZE ==>
         Rank(Data(b)) < |zs| && ZoneAt(d, NodeAt(d, sb, ix), Data(b)) == zs[Rank(Data(b))]
  }

  /** A growth that failed has left the inode on disk, the blocks it leads to and their bytes. */
  ghost predicate Intact(d: Disk, d': Disk, sb: Super, zs: seq<nat>, ix: nat) {
    && ix > 0 && NodeBlock(sb, ix) < |d| == |d'| && NodeAt(d', sb, ix) == NodeAt(d, sb, ix) && Found(d', sb, zs, ix)
    && Bytes(d', zs, SizeOf(NodeAt(d, sb, ix))) == Bytes(d, zs, SizeOf(NodeAt(d, sb, ix)))
  }

  lemma FailedIntact(d: Disk, d': Disk, sb: Super, files: map<nat, seq<nat>>, ix: nat, n': Node, ys: seq<nat>, m: nat)
    requires VolOk(d, sb, files) && ix in files && ix > 0 && NodeBlock(sb, ix) < |d| == |d'|
    requires NodeAt(d', sb, ix) == NodeAt(d, sb, ix) && OldNode(NodeAt(d, sb, ix), files[ix]) && files[ix] <= ys
    requires Growing(d', sb, files - {ix}, n', ys, m)
    requires forall i :: 0 <= i < SizeOf(NodeAt(d, sb, ix)) ==> ByteAt(d', ys, i) == ByteAt(d, files[ix], i)
    ensures Intact(d, d', sb, files[ix], ix)
  {
    hide NodeAt, OldNode, Clean;
    var n, zs, last := NodeAt(d, sb, ix), files[ix], SizeOf(NodeAt(d, sb, ix)) / BLOCK_SIZE;
    assert FileIn(d, sb, ix, zs);
    Open(d, sb, files, ix);
    SizeFits(d, sb, files - {ix}, n, zs, last);
    forall b | 0 <= b <= last
      ensures Rank(Data(b)) < |zs| && ZoneAt(d', n, Data(b)) == zs[Rank(Data(b))]
    {
      StillFound(d, d', n, zs, n', ys, last, b);
    }
    forall i | 0 <= i < SizeOf(n) ensures ByteAt(d', zs, i) == ByteAt(d, zs, i) {
      assert Rank(Data(i / BLOCK_SIZE)) < |zs|;
      assert ByteAt(d', ys, i) == ByteAt(d', zs, i);
    }
    SameBytes(d, d', zs, zs, SizeOf(n));
  }

  lemma StillFound(d: Disk, d': Disk, n: Node, zs: seq<nat>, n': Node, ys: seq<nat>, last: nat, b: nat)
    requires FileOk(d, n, zs) && FileOk(d', n', ys) && OldNode(n, zs) && zs <= ys && |d'| > 0
    requires |zs| == ZonesFor(last) && b <= last < 0x1_0000
    ensures Rank(Data(b)) < |zs| && ZoneAt(d', n, Data(b)) == zs[Rank(Data(b))]
  {
    hide FileOk, OldNode;
    MappedExactly(d, n, zs, last, b);
    OldNodeReads(d', n, zs, n', ys, Data(b));
  }

  lemma GrowingAside(d: Disk, d': Disk, sb: Super, rest: map<nat, seq<nat>>, n': Node, ys: seq<nat>, m: nat)
    requires Growing(d', sb, rest, n', ys, m) && OnlyFile(d, d', sb, ys)
    ensures Aside(d, d', sb) && |d'| == |d|
  {
    hide FileOk, Clean, FileIn, OnlyFile, Aside;
    assert |d'| == |d| by { SameSize(d, d', sb, ys); }
    OnlyFileAside(d, d', sb, ys);
  }

  lemma SameSize(d: Disk, d': Disk, sb: Super, ys: seq<nat>)
    requires OnlyFile(d, d', sb, ys)
    ensures |d'| == |d|
  {
  }

  lemma KeptByte(d: Disk, d1: Disk, sb: Super, rest: map<nat, seq<nat>>, n: Node, zs: seq<nat>, n': Node, ys: seq<nat>,
                 m: nat, i: nat)
    requires Working(d, sb, rest, n, zs) && Growing(d1, sb, rest, n', ys, m) && Grew(d, d1, sb, zs, ys)
    requires |zs| == ZonesFor(SizeOf(n) / BLOCK_SIZE) && i < SizeOf(n) && SizeOf(n) / BLOCK_SIZE < 0x1_0000
    ensures ByteAt(d1, ys, i) == ByteAt(d, zs, i)
  {
    hide FreeZones, Clean, FileIn;
    MappedExactly(d, n, zs, SizeOf(n) / BLOCK_SIZE, i / BLOCK_SIZE);
    forall z | z in zs ensures sb.TableStart() <= z < |d| { ZonesAbove(d, sb, n, zs, z); }
    GrewBytes(d, d1, sb, zs, ys, i);
  }

  lemma AfterFill(d: Disk, d': Disk, sb: Super, files: map<nat, seq<nat>>, ix: nat, n: Node, ys: seq<nat>, m: nat)
    requires VolOk(d, sb, files) && ix in files && OnlyFile(d, d', sb, ys) && Growing(d', sb, files - {ix}, n, ys, m)
    ensures ValidIndex(sb, ix) && NodeBlock(sb, ix) < |d| && NodeAt(d', sb, ix) == NodeAt(d, sb, ix)
    ensures OthersSame(d, d', sb, files, ix) && GetBit(d', IMAP_START, ix) && VolOk(d', sb, files - {ix})
  {
    hide FileOk, NodeAt, OthersSame, FreeZones, Clean, GetBit;
    assert FileIn(d, sb, ix, files[ix]);
    forall z | z in ys ensures sb.firstDataZone <= z { }
    Open(d, sb, files, ix);
    OnlyFileOthers(d, d', sb, files, ix, ys);
    NodeBelowZones(sb, d, ix);
    NodeFrame(d, d', sb, ix);
    ImapFrame(d, d', sb, ix);
  }

  lemma GrownBytes(d: Disk, d': Disk, zs: seq<nat>, ys: seq<nat>, from: nat, size: nat)
    requires from <= size
    requires forall i :: 0 <= i < from ==> ByteAt(d', ys, i) == ByteAt(d, zs, i)
    requires forall i :: from <= i < size ==> ByteAt(d', ys, i) == 0
    ensures Bytes(d', ys, size) == Resized(Bytes(d, zs, from), size)
  {
    hide ByteAt;
  }

  /** Growing works when the free zones suffice and the old inode leads to the blocks to clear. */
  ghost predicate CanGrow(d: Disk, sb: Super, zs: seq<nat>, from: nat, size: nat)
    requires size > 0
  {
    && Enough(d, sb, zs, size)
    && Extendable(from / BLOCK_SIZE, (size - 1) / BLOCK_SIZE)
  }

  /** However many zones are free, an empty file cannot be grown to one byte more than a block. */
  lemma EmptyFileStuck(d: Disk, sb: Super, zs: seq<nat>)
    ensures !CanGrow(d, sb, zs, 0, BLOCK_SIZE + 1)
  {
    ExtendableReach(0, 1);
  }

  /** The file took the zones above `zs` in `ys` from the free ones. */
  ghost predicate GrewZones(d: Disk, d': Disk, sb: Super, zs: seq<nat>, ys: seq<nat>) {
    && zs <= ys && Elems(ys[|zs|..]) <= FreeZones(d, sb)
    && FreeZones(d', sb) == FreeZones(d, sb) - Elems(ys[|zs|..])
    && |FreeZones(d', sb)| + |ys| == |FreeZones(d, sb)| + |zs|
  }

  lemma GrewZonesTrans(d0: Disk, d1: Disk, d2: Disk, sb: Super, xs: seq<nat>, ys: seq<nat>, zs: seq<nat>)
    requires GrewZones(d0, d1, sb, xs, ys) && GrewZones(d1, d2, sb, ys, zs)
    ensures GrewZones(d0, d2, sb, xs, zs)
  {
    hide FreeZones, Elems;
    ElemsBetween(xs, ys, zs);
    TakenTwice(FreeZones(d0, sb), Elems(ys[|xs|..]), Elems(zs[|ys|..]));
  }

  /** The file gave back the zones above `zs` in `ys`. */
  ghost predicate ShrankZones(d: Disk, d': Disk, sb: Super, ys: seq<nat>, zs: seq<nat>) {
    zs <= ys && FreeZones(d', sb) == FreeZones(d, sb) + Elems(ys[|zs|..])
  }

  ghost predicate Cached(d: Disk, sb: Super, files: map<nat, seq<nat>>, sizes: map<nat, nat>) {
    forall ix <- sizes ::
      ix in files && ix > 0 && NodeBlock(sb, ix) < |d| && sizes[ix] == SizeOf(NodeAt(d, sb, ix))
  }

  ghost function Patched(old_: Byte, at: nat, data: seq<Byte>, i: nat): Byte {
    if at <= i < at + |data| then data[i - at] else old_
  }

  /** What `get_block` finds for a block of the file while the inode on disk is the old one. */
  lemma OldLookups(d: Disk, sb: Super, rest: map<nat, seq<nat>>, n0: Node, zs: seq<nat>, n: Node, ys: seq<nat>, m: nat,
                   b: nat, last: nat)
    requires Growing(d, sb, rest, n, ys, m) && OldNode(n0, zs) && zs <= ys
    requires |ys| == ZonesFor(last) && b <= last < 0x1_0000
    ensures forall s :: ValidSlot(s) && IsIndex(s) ==> ZoneAt(d, n0, s) < |d|
    ensures Rank(Data(b)) < |ys|
    ensures ZoneAt(d, n0, Data(b)) == if Reach(|zs|, b) then ys[Rank(Data(b))] else 0
    ensures ZoneAt(d, n0, Data(b)) == 0 <==> !Reach(|zs|, b)
  {
    hide FileIn, Clean, Reach;
    MappedExactly(d, n, ys, last, b);
    OldNodeReads(d, n0, zs, n, ys, Data(b));
    forall s | ValidSlot(s) && IsIndex(s) ensures ZoneAt(d, n0, s) < |d| { OldNodeReads(d, n0, zs, n, ys, s); }
  }

  lemma OnlyFileSame(d: Disk, sb: Super, zs: seq<nat>)
    ensures OnlyFile(d, d, sb, zs)
  {
  }

  lemma WorkingSize(d: Disk, sb: Super, rest: map<nat, seq<nat>>, n: Node, zs: seq<nat>, size: Word)
    requires Working(d, sb, rest, n, zs)
    ensures Working(d, sb, rest, n[SIZE_WORD := size], zs)
  {
    hide FileOk, VolOk;
    AttributeFrame(d, n, n[SIZE_WORD := size], zs);
  }

  lemma WorkingHeld(d: Disk, sb: Super, rest: map<nat, seq<nat>>, n: Node, zs: seq<nat>, s: Slot)
    requires Working(d, sb, rest, n, zs) && ValidSlot(s) && InNode(s)
    ensures ZoneAt(d, n, s) == n[Entry(s)] == StackAt(zs, Rank(s)) && (n[Entry(s)] == 0 <==> |zs| <= Rank(s))
    ensures Rank(s) < |zs| ==> 0 < n[Entry(s)] < |d|
  {
    HeldAt(d, n, zs, s);
  }

  lemma WorkingEntry(d: Disk, sb: Super, rest: map<nat, seq<nat>>, n: Node, zs: seq<nat>, s: Slot)
    requires Working(d, sb, rest, n, zs) && ValidSlot(s) && !InNode(s) && Rank(Parent(s)) < |zs|
    ensures ValidSlot(Parent(s)) && ZoneAt(d, n, Parent(s)) == zs[Rank(Parent(s))]
    ensures 0 < zs[Rank(Parent(s))] < |d|
    ensures GetWord(d[zs[Rank(Parent(s))]], Entry(s)) == StackAt(zs, Rank(s))
    ensures GetWord(d[zs[Rank(Parent(s))]], Entry(s)) == 0 <==> |zs| <= Rank(s)
  {
    EntryReads(d, n, zs, s);
  }

  lemma TopZone(sb: Super, d: Disk, zs: seq<nat>)
    requires |zs| > 0 && ZonesHeld(d, sb, zs)
    ensures ZoneOk(sb, zs[|zs| - 1]) && zs[|zs| - 1..] == [zs[|zs| - 1]]
    ensures Elems(zs[|zs| - 1..]) == {zs[|zs| - 1]}
    ensures forall z :: z in zs ==> sb.firstDataZone <= z
  {
    assert zs[|zs| - 1] in zs;
  }

  lemma DropFrame(d: Disk, sb: Super, zs: seq<nat>)
    requires GoodLayout(sb, d) && |zs| > 0 && ZoneOk(sb, zs[|zs| - 1])
    requires sb.ZmapStart() + ZoneBit(sb, zs[|zs| - 1]) / 8 / BLOCK_SIZE < |d|
    ensures var d1 := DropBit(d, sb.ZmapStart(), ZoneBit(sb, zs[|zs| - 1]));
            OnlyIndex(d, d1, sb, zs) && OnlyZmap(d, d1, sb)
  {
    UnmarkZone(d, sb, zs[|zs| - 1]);
  }

  lemma SetSize(d: Disk, sb: Super, rest: map<nat, seq<nat>>, n: Node, zs: seq<nat>, m: nat, size: Word)
    requires Growing(d, sb, rest, n, zs, m)
    ensures Growing(d, sb, rest, n[SIZE_WORD := size], zs, m)
  {
    hide FileOk, VolOk, FreeZones, Clean;
    AttributeFrame(d, n, n[SIZE_WORD := size], zs);
  }

  /** Only the size and the zone pointers may differ. */
  ghost predicate SameButSize(n: Node, n': Node) {
    forall i :: 0 <= i < ZONE_WORD && i != SIZE_WORD ==> n'[i] == n[i]
  }

  /** An inode on disk has changed in nothing but its size and its zones. */
  ghost predicate AttributesKept(d: Disk, d': Disk, sb: Super, ix: nat) {
    && ix > 0 && NodeBlock(sb, ix) < |d| && NodeBlock(sb, ix) < |d'|
    && SameButSize(NodeAt(d, sb, ix), NodeAt(d', sb, ix))
  }

  lemma AttributesSame(d: Disk, sb: Super, ix: nat)
    requires ix > 0 && NodeBlock(sb, ix) < |d|
    ensures AttributesKept(d, d, sb, ix)
  {
  }

  lemma AttributesTrans(d0: Disk, d1: Disk, d2: Disk, sb: Super, ix: nat)
    requires AttributesKept(d0, d1, sb, ix) && AttributesKept(d1, d2, sb, ix)
    ensures AttributesKept(d0, d2, sb, ix)
  {
    hide NodeAt;
  }

  ghost predicate SameAttributes(n: Node, n': Node) {
    forall i :: 0 <= i < ZONE_WORD ==> n'[i] == n[i]
  }

  /** The slots filled to map block `block` once all blocks below it are mapped. */
  lemma NextSlots(block: nat)
    requires 0 < block < 0x1_0000
    ensures block <= 6 || DIRECT < block < DOUBLE ==> Rank(Data(block)) == ZonesFor(block - 1)
    ensures block == DIRECT ==> Rank(Indirect) == ZonesFor(block - 1) && Rank(Data(block)) == Rank(Indirect) + 1
    ensures DIRECT < block ==> Rank(Indirect) < ZonesFor(block - 1)
    ensures block == DOUBLE ==> Rank(Double) == ZonesFor(block - 1) && Rank(Sub(0)) == Rank(Double) + 1
    ensures DOUBLE < block ==> Rank(Double) < ZonesFor(block - 1)
    ensures DOUBLE <= block ==>
              var k := (block - DOUBLE) / WORDS;
              && k < WORDS
              && if (block - DOUBLE) % WORDS == 0
                 then Rank(Data(block)) == Rank(Sub(k)) + 1 && (block > DOUBLE ==> Rank(Sub(k)) == ZonesFor(block - 1))
                 else Rank(Sub(k)) < ZonesFor(block - 1) == Rank(Data(block))
  {
  }

  /** How many zones are in use once the inode points to the index block above `block`. */
  ghost function FirstEntry(block: nat): nat
    requires block >= DIRECT
  {
    if block >= DOUBLE && (block - DOUBLE) % WORDS == 0 then Rank(Sub((block - DOUBLE) / WORDS)) else Rank(Data(block))
  }

  lemma EntrySlots(block: nat)
    requires DIRECT <= block < 0x1_0000
    ensures block < DOUBLE ==> Rank(Indirect) < FirstEntry(block) == Rank(Data(block))
    ensures DOUBLE <= block ==>
              var k := (block - DOUBLE) / WORDS;
              && k < WORDS && Rank(Double) < FirstEntry(block)
              && if FirstEntry(block) <= Rank(Sub(k))
                 then FirstEntry(block) == Rank(Sub(k)) && Rank(Data(block)) == Rank(Sub(k)) + 1
                 else FirstEntry(block) == Rank(Data(block)) && Rank(Sub(k)) < Rank(Data(block))
  {
  }

  /** What a word of an index block says about the slot it belongs to. */
  lemma EntryReads(d: Disk, n: Node, zs: seq<nat>, s: Slot)
    requires FileOk(d, n, zs) && ValidSlot(s) && !InNode(s) && Rank(Parent(s)) < |zs|
    ensures ValidSlot(Parent(s)) && ZoneAt(d, n, Parent(s)) == zs[Rank(Parent(s))] && 0 < zs[Rank(Parent(s))] < |d|
    ensures GetWord(d[zs[Rank(Parent(s))]], Entry(s)) == StackAt(zs, Rank(s))
    ensures GetWord(d[zs[Rank(Parent(s))]], Entry(s)) == 0 <==> |zs| <= Rank(s)
  {
    ParentFirst(s);
    HeldAt(d, n, zs, s);
    HeldAt(d, n, zs, Parent(s));
  }

  lemma HeldAt(d: Disk, n: Node, zs: seq<nat>, s: Slot)
    requires FileOk(d, n, zs) && ValidSlot(s)
    ensures ZoneAt(d, n, s) == StackAt(zs, Rank(s))
    ensures InNode(s) ==> ZoneAt(d, n, s) == n[Entry(s)]
    ensures ZoneAt(d, n, s) == 0 <==> |zs| <= Rank(s)
  {
  }

  lemma ZonesAbove(d: Disk, sb: Super, n: Node, zs: seq<nat>, z: nat)
    requires ZonesHeld(d, sb, zs) && z in zs && GoodLayout(sb, d)
    ensures sb.TableStart() <= sb.firstDataZone <= z < |d|
  {
    ZoneInRange(sb, d, z);
  }

  // ----- laws over whole runs

  /** The free zones together with the zones of one file. */
  ghost function Pool(d: Disk, sb: Super, zs: seq<nat>): set<nat> {
    FreeZones(d, sb) + Elems(zs)
  }

  /** Writes and truncates move zones between the file and the free ones and lose none, so what
      `inode_destroy` frees is exactly what `inode_create` and the writes took. */
  lemma PoolConserved(d: Disk, d': Disk, sb: Super, zs: seq<nat>, ys: seq<nat>)
    requires GrewZones(d, d', sb, zs, ys) || ShrankZones(d, d', sb, zs, ys)
    ensures Pool(d', sb, ys) == Pool(d, sb, zs)
  {
    hide FreeZones;
    if GrewZones(d, d', sb, zs, ys) {
      assert ys == zs + ys[|zs|..];
      assert Elems(ys) == Elems(zs) + Elems(ys[|zs|..]);
    } else {
      assert zs == ys + zs[|ys|..];
      assert Elems(zs) == Elems(ys) + Elems(zs[|ys|..]);
    }
  }

  ghost function UsedZones(files: map<nat, seq<nat>>): set<nat> {
    set ix, z | ix in files && z in files[ix] :: z
  }

  /** The inodes `mark_imap` can still take. */
  ghost function FreeInodes(d: Disk, sb: Super): set<nat> {
    set i | 0 <= i < sb.InodeBits() && !GetBit(d, IMAP_START, i)
  }

  /** They are the numbers below both limits whose bit behind the superblock is clear. */
  lemma InodesOnDisk(d: Disk, sb: Super, ix: nat)
    ensures ix in FreeInodes(d, sb) <==> ix < sb.ninodes && ix < 8 * 4096 * sb.imapBlocks && !BitFrom(d, 4096 * 2, ix)
  {
    hide GetBit, BitFrom;
    BitOnDisk(d, 2, ix);
  }

  /** The free zones and inodes together with those of all files are the same in both states. */
  ghost predicate VolumeKept(d: Disk, d': Disk, sb: Super, files: map<nat, seq<nat>>, files': map<nat, seq<nat>>) {
    && FreeZones(d', sb) + UsedZones(files') == FreeZones(d, sb) + UsedZones(files)
    && FreeInodes(d', sb) + files'.Keys == FreeInodes(d, sb) + files.Keys
  }

  lemma UsedSplit(files: map<nat, seq<nat>>, ix: nat, ys: seq<nat>)
    ensures UsedZones(files[ix := ys]) == UsedZones(files - {ix}) + Elems(ys)
    ensures ix in files ==> UsedZones(files) == UsedZones(files - {ix}) + Elems(files[ix])
    ensures ix !in files ==> UsedZones(files) == UsedZones(files - {ix})
  {
    var rest, more := files - {ix}, files[ix := ys];
    assert forall jx :: jx in rest ==> jx in more && more[jx] == rest[jx] == files[jx];
    forall z | z in UsedZones(rest) + Elems(ys) ensures z in UsedZones(more) {
      if z in Elems(ys) {
        assert ix in more && z in more[ix];
      } else {
        var jx :| jx in rest && z in rest[jx];
        assert z in more[jx];
      }
    }
    forall z | z in UsedZones(more) ensures z in UsedZones(rest) + Elems(ys) {
      var jx :| jx in more && z in more[jx];
      assert jx != ix ==> jx in rest && z in rest[jx];
    }
  }

  lemma SameInodes(d: Disk, d': Disk, sb: Super)
    requires GoodLayout(sb, d) && ImapSame(d, d', sb)
    ensures FreeInodes(d', sb) == FreeInodes(d, sb)
  {
    hide GetBit;
    forall i | 0 <= i < sb.InodeBits() ensures GetBit(d', IMAP_START, i) == GetBit(d, IMAP_START, i) {
      ImapFrame(d, d', sb, i);
    }
  }

  /** Moving zones between one file and the free ones keeps the volume. */
  lemma MoveKeepsVolume(d: Disk, d': Disk, sb: Super, files: map<nat, seq<nat>>, ix: nat, ys: seq<nat>)
    requires VolOk(d, sb, files) && ix in files && Aside(d, d', sb)
    requires GrewZones(d, d', sb, files[ix], ys) || ShrankZones(d, d', sb, files[ix], ys)
    ensures VolumeKept(d, d', sb, files, files[ix := ys])
  {
    hide FreeZones, UsedZones, FreeInodes, FileIn, GrewZones, ShrankZones, Elems;
    PoolConserved(d, d', sb, files[ix], ys);
    UsedSplit(files, ix, ys);
    SameInodes(d, d', sb);
    assert files[ix := ys].Keys == files.Keys;
    PoolsAdd(FreeZones(d, sb), FreeZones(d', sb), Elems(files[ix]), Elems(ys), UsedZones(files - {ix}));
  }

  lemma PoolsAdd(free: set<nat>, free': set<nat>, zs: set<nat>, ys: set<nat>, used: set<nat>)
    requires free' + ys == free + zs
    ensures free' + (used + ys) == free + (used + zs)
  {
    assert free' + (used + ys) == free' + ys + used;
    assert free + (used + zs) == free + zs + used;
  }

  lemma WroteKeepsVolume(d: Disk, d': Disk, sb: Super, files: map<nat, seq<nat>>, files': map<nat, seq<nat>>,
                         sizes: map<nat, nat>, sizes': map<nat, nat>, ix: nat, start: nat, data: seq<Byte>)
    requires VolOk(d, sb, files) && Aside(d, d', sb)
    requires Wrote(d, d', sb, files, files', sizes, sizes', ix, start, data)
    ensures VolumeKept(d, d', sb, files, files')
  {
    hide FreeZones, FileBytes, OthersSame, Spliced, Rank, VolOk, GrewZones, Aside, VolumeKept;
    MoveKeepsVolume(d, d', sb, files, ix, files'[ix]);
  }

  lemma ZeroedKept(d: Disk, d': Disk, sb: Super)
    requires Aside(d, d', sb) && FreeZones(d', sb) <= FreeZones(d, sb)
    ensures Zeroed(d, sb) ==> Zeroed(d', sb)
  {
    hide FreeZones, Zeroed;
    if Zeroed(d, sb) { StaysZeroed(d, d', sb); }
  }

  /** The volume between two operations. */
  datatype Moment = Moment(disk: Disk, files: map<nat, seq<nat>>)

  /** A run of operations on any files of the volume, each of which keeps the volume. */
  ghost predicate VolumeRun(run: seq<Moment>, sb: Super) {
    forall i, j :: 0 <= i && j == i + 1 && j < |run| ==>
      VolumeKept(run[i].disk, run[j].disk, sb, run[i].files, run[j].files)
  }

  lemma {:induction false} RunKeepsVolume(run: seq<Moment>, sb: Super, i: nat)
    requires VolumeRun(run, sb) && i < |run|
    ensures VolumeKept(run[0].disk, run[i].disk, sb, run[0].files, run[i].files)
    decreases i
  {
    hide FreeZones, UsedZones, FreeInodes;
    if i > 0 {
      RunKeepsVolume(run, sb, i - 1);
      assert VolumeKept(run[i - 1].disk, run[i].disk, sb, run[i - 1].files, run[i].files);
    }
  }

  /** A zone that is free is no file's, and neither is an inode. */
  lemma FreeOrUsed(d: Disk, sb: Super, files: map<nat, seq<nat>>)
    requires VolOk(d, sb, files)
    ensures FreeZones(d, sb) !! UsedZones(files) && FreeInodes(d, sb) !! files.Keys
  {
    hide FileOk, Marked, GetBit, NodeAt;
    forall ix | ix in files
      ensures GetBit(d, IMAP_START, ix) && forall z :: z in files[ix] ==> z !in FreeZones(d, sb)
    {
      assert FileIn(d, sb, ix, files[ix]);
    }
  }

  /** After any run of operations on any files that ends with the files it began with, the free
      zones and the free inodes are those of the beginning: nothing is lost and nothing is left over. */
  lemma NothingLost(run: seq<Moment>, sb: Super)
    requires run != [] && VolumeRun(run, sb)
    requires var first, last := run[0], run[|run| - 1];
             VolOk(first.disk, sb, first.files) && VolOk(last.disk, sb, last.files) && last.files == first.files
    ensures FreeZones(run[|run| - 1].disk, sb) == FreeZones(run[0].disk, sb)
    ensures FreeInodes(run[|run| - 1].disk, sb) == FreeInodes(run[0].disk, sb)
  {
    hide FreeZones, UsedZones, FreeInodes, VolOk, VolumeRun;
    var first, last := run[0], run[|run| - 1];
    RunKeepsVolume(run, sb, |run| - 1);
    FreeOrUsed(first.disk, sb, first.files);
    FreeOrUsed(last.disk, sb, last.files);
    Remaining(FreeZones(first.disk, sb), FreeZones(last.disk, sb), UsedZones(first.files));
    Remaining(FreeInodes(first.disk, sb), FreeInodes(last.disk, sb), first.files.Keys);
  }

  lemma Remaining(a: set<nat>, b: set<nat>, c: set<nat>)
    requires a + c == b + c && a !! c && b !! c
    ensures a == b
  {
    assert a == (a + c) - c;
    assert b == (b + c) - c;
  }

  /** Reading back what was written gives the data, and the bytes around it are the old ones. */
  lemma ReadBack(s: seq<Byte>, start: nat, data: seq<Byte>, i: nat)
    requires start <= |s|
    ensures Slice(Spliced(s, start, data), start, start + |data|) == data
    ensures |Spliced(s, start, data)| == Max(|s|, start + |data|)
    ensures i < |Spliced(s, start, data)| && !(start <= i < start + |data|) ==>
              i < |s| && Spliced(s, start, data)[i] == s[i]
  {
  }
}
