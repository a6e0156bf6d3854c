/** The card as one run of bytes, and where the MINIX format has inodes, zones and bits in it. */
module Image {
  import opened Blocks
  import opened ZoneTree
  import opened Bitmap
  import opened Layout
  import opened Volume
  import opened Content

  /** The blocks of the disk, laid end to end. */
  ghost function Laid(d: Disk): seq<Byte> {
    if d == [] then [] else Laid(d[..|d| - 1]) + d[|d| - 1]
  }

  lemma {:induction false} LaidAt(d: Disk, z: nat, i: nat)
    requires z < |d| && i < BLOCK_SIZE
    ensures |Laid(d)| == 4096 * |d| && Laid(d)[4096 * z + i] == d[z][i]
  {
    var front := d[..|d| - 1];
    if front != [] { LaidAt(front, if z < |front| then z else 0, i); }
    assert |Laid(front)| == 4096 * |front|;
  }

  /** A number stored with its low byte first. */
  ghost function Number(s: seq<Byte>): nat {
    if s == [] then 0 else s[0] + 0x100 * Number(s[1..])
  }

  lemma FourBytes(mem: seq<Byte>, a: nat)
    requires a + 4 <= |mem|
    ensures Number(mem[a..a + 4]) == WordAt(mem, a)
  {
    var s := mem[a..a + 4];
    assert s[1..][1..] == s[2..] && s[2..][1..] == s[3..] && s[3..][1..] == [];
    assert Number(s) == s[0] + 0x100 * Number(s[1..]) && Number(s[1..]) == s[1] + 0x100 * Number(s[2..]);
    assert Number(s[2..]) == s[2] + 0x100 * Number(s[3..]) && Number(s[3..]) == s[3];
  }

  /** The 32-bit number at byte `a` of the disk, 0 past its end. */
  ghost function Long(d: Disk, a: nat): nat {
    var bytes := Laid(d);
    if a + 4 <= |bytes| then Number(bytes[a..a + 4]) else 0
  }

  lemma LongAt(d: Disk, z: nat, i: nat)
    requires i < WORDS
    ensures Long(d, 4096 * z + 4 * i) == At(d, z, i)
  {
    var a := 4096 * z + 4 * i;
    if z < |d| {
      LaidAt(d, z, 4 * i);
      LaidAt(d, z, 4 * i + 1);
      LaidAt(d, z, 4 * i + 2);
      LaidAt(d, z, 4 * i + 3);
      FourBytes(Laid(d), a);
    } else if d != [] {
      LaidAt(d, 0, 0);
    }
  }

  // ----- inodes

  /** The first byte of an inode: behind the boot block, the superblock and the two bitmaps there are
      64 bytes for each inode, from inode 1 on. */
  ghost function NodeStart(sb: Super, ix: nat): nat
    requires ix > 0
  {
    4096 * (2 + sb.imapBlocks + sb.zmapBlocks) + 64 * (ix - 1)
  }

  /** The words of an inode are where the format has them. */
  lemma NodeOnDisk(d: Disk, sb: Super, ix: nat, k: nat)
    requires ix > 0 && NodeBlock(sb, ix) < |d| && k < 16
    ensures NodeAt(d, sb, ix)[k] == Long(d, NodeStart(sb, ix) + 4 * k)
  {
    LongAt(d, NodeBlock(sb, ix), NodeWord(ix) + k);
    assert 64 * (ix - 1) == 4096 * ((ix - 1) / 64) + 64 * ((ix - 1) % 64);
  }

  /** Memory holds the inode `n` at the place of inode `ix`. */
  ghost predicate HoldsNode(d: Disk, sb: Super, ix: nat, n: Node)
    requires ix > 0
  {
    forall k :: 0 <= k < 16 ==> n[k] == Long(d, NodeStart(sb, ix) + 4 * k)
  }

  lemma NodeHeld(d: Disk, sb: Super, ix: nat)
    requires ix > 0 && NodeBlock(sb, ix) < |d|
    ensures HoldsNode(d, sb, ix, NodeAt(d, sb, ix))
  {
    hide NodeAt, Long;
    forall k | 0 <= k < 16 ensures NodeAt(d, sb, ix)[k] == Long(d, NodeStart(sb, ix) + 4 * k) {
      NodeOnDisk(d, sb, ix, k);
    }
  }

  /** The inode on disk is that of a new file: its mode in the low half of the first word, its one zone, and
      zeros elsewhere. */
  ghost predicate NewNode(d: Disk, sb: Super, ix: nat, mode: nat, z: nat)
    requires ix > 0
  {
    && Long(d, NodeStart(sb, ix)) == mode && Long(d, NodeStart(sb, ix) + 24) == z
    && forall k :: 1 <= k < 16 && k != 6 ==> Long(d, NodeStart(sb, ix) + 4 * k) == 0
  }

  lemma {:induction false} SetWordsBytes(b: Block, at: nat, n: Node, k: nat, j: nat)
    requires at + NODE_WORDS <= WORDS && k <= NODE_WORDS && j < BLOCK_SIZE && !(4 * at <= j < 4 * (at + k))
    ensures SetWords(b, at, n, k)[j] == b[j]
    decreases k
  {
    if k > 0 { SetWordsBytes(b, at, n, k - 1, j); }
  }

  /** The disks differ in the 64 bytes of inode `ix` at most. */
  ghost predicate OnlyNodeBytes(d: Disk, d': Disk, sb: Super, ix: nat)
    requires ix > 0
  {
    |Laid(d)| == |Laid(d')| && forall a :: 0 <= a < |Laid(d)| && !(NodeStart(sb, ix) <= a < NodeStart(sb, ix) + 64) ==>
      Laid(d')[a] == Laid(d)[a]
  }

  lemma ByteOutside(d: Disk, sb: Super, ix: nat, n: Node, a: nat)
    requires ix > 0 && NodeBlock(sb, ix) < |d| && a < 4096 * |d|
    requires !(NodeStart(sb, ix) <= a < NodeStart(sb, ix) + 64)
    ensures var d' := WithNode(d, sb, ix, n); a < |Laid(d)| == |Laid(d')| && Laid(d')[a] == Laid(d)[a]
  {
    hide SetWords, Words;
    var d' := WithNode(d, sb, ix, n);
    LaidAt(d, a / 4096, a % 4096);
    LaidAt(d', a / 4096, a % 4096);
    assert 64 * (ix - 1) == 4096 * ((ix - 1) / 64) + 64 * ((ix - 1) % 64);
    if a / 4096 == NodeBlock(sb, ix) {
      SetWordsBytes(d[a / 4096], NodeWord(ix), n, NODE_WORDS, a % 4096);
    }
  }

  /** Writing an inode puts its words in the 64 bytes of that inode and changes no other byte of the disk. */
  lemma NodeBytesOnly(d: Disk, sb: Super, ix: nat, n: Node)
    requires ix > 0 && NodeBlock(sb, ix) < |d|
    ensures HoldsNode(WithNode(d, sb, ix, n), sb, ix, n) && OnlyNodeBytes(d, WithNode(d, sb, ix, n), sb, ix)
  {
    hide HoldsNode, WithNode, Laid, NodeAt, NodeStart;
    var d' := WithNode(d, sb, ix, n);
    NodeRoundTrip(d, sb, ix, n, ix);
    NodeHeld(d', sb, ix);
    LaidAt(d, 0, 0);
    LaidAt(d', 0, 0);
    forall a | 0 <= a < |Laid(d)| && !(NodeStart(sb, ix) <= a < NodeStart(sb, ix) + 64)
      ensures Laid(d')[a] == Laid(d)[a]
    {
      ByteOutside(d, sb, ix, n, a);
    }
  }

  // ----- the blocks of a file

  /** Entry `i` of the index block in zone `p`, 0 if there is no index block. */
  ghost function Through(d: Disk, p: nat, i: nat): nat {
    if p == 0 then 0 else Long(d, 4096 * p + 4 * i)
  }

  /** The zone of a block of the file, by the bytes of the disk: seven numbers at byte 24 of the inode, then
      those of the index block named at byte 52, then those of the index blocks named in the one at byte 56. */
  ghost function ZoneOnDisk(d: Disk, sb: Super, ix: nat, block: nat): nat
    requires ix > 0
  {
    var node := NodeStart(sb, ix);
    if block < 7 then Long(d, node + 24 + 4 * block)
    else if block < 7 + 1024 then Through(d, Long(d, node + 52), block - 7)
    else
      var b := block - 7 - 1024;
      Through(d, Through(d, Long(d, node + 56), b / 1024), b % 1024)
  }

  lemma WalkOnDisk(d: Disk, sb: Super, ix: nat, block: nat)
    requires ix > 0 && NodeBlock(sb, ix) < |d| && block < MAX_BLOCKS
    ensures ZoneAt(d, NodeAt(d, sb, ix), Data(block)) == ZoneOnDisk(d, sb, ix, block)
  {
    hide NodeAt, Long, At;
    var n := NodeAt(d, sb, ix);
    if block < 7 {
      NodeOnDisk(d, sb, ix, 6 + block);
    } else if block < 7 + 1024 {
      NodeOnDisk(d, sb, ix, 13);
      assert ZoneAt(d, n, Indirect) == n[13];
      LongAt(d, n[13], block - 7);
    } else {
      var b := block - 7 - 1024;
      NodeOnDisk(d, sb, ix, 14);
      LongAt(d, n[14], b / 1024);
      assert ZoneAt(d, n, Double) == n[14];
      assert ZoneAt(d, n, Sub(b / 1024)) == Through(d, n[14], b / 1024);
      LongAt(d, ZoneAt(d, n, Sub(b / 1024)), b % 1024);
    }
  }

  lemma InStack(d: Disk, n: Node, zs: seq<nat>, r: nat)
    requires FileOk(d, n, zs) && r < |zs|
    ensures 0 < zs[r] < |d|
  {
  }

  /** The bytes of a file of the volume, read off the disk: the size is at byte 8 of the inode, and byte `i`
      is in the zone of block `i / 4096`. */
  lemma FileOnDisk(d: Disk, sb: Super, files: map<nat, seq<nat>>, ix: nat, i: nat)
    requires VolOk(d, sb, files) && ix in files
    ensures ix > 0 && |FileBytes(d, sb, files, ix)| == Long(d, NodeStart(sb, ix) + 8)
    ensures i < |FileBytes(d, sb, files, ix)| ==>
              var z := ZoneOnDisk(d, sb, ix, i / 4096);
              0 < z < |d| && |Laid(d)| == 4096 * |d| && FileBytes(d, sb, files, ix)[i] == Laid(d)[4096 * z + i % 4096]
  {
    hide NodeAt, Rank, FileOk, VolOk, Long, ZoneOnDisk, ZoneAt;
    Open(d, sb, files, ix);
    var n, zs := NodeAt(d, sb, ix), files[ix];
    NodeOnDisk(d, sb, ix, 2);
    if i < SizeOf(n) {
      var b := i / 4096;
      Lookups(d, sb, files - {ix}, n, zs, SizeOf(n) / BLOCK_SIZE, b);
      WalkOnDisk(d, sb, ix, b);
      InStack(d, n, zs, Rank(Data(b)));
      LaidAt(d, zs[Rank(Data(b))], i % 4096);
    }
  }

  // ----- bitmaps

  /** Bit `i` counted from byte `a` of the disk, the low bit of each byte first. */
  ghost predicate BitFrom(d: Disk, a: nat, i: nat) {
    a + i / 8 < |Laid(d)| && Laid(d)[a + i / 8] / [1, 2, 4, 8, 16, 32, 64, 128][i % 8] % 2 == 1
  }

  lemma BitOnDisk(d: Disk, start: nat, i: nat)
    ensures GetBit(d, start, i) <==> BitFrom(d, 4096 * start, i)
  {
    var z, e := start + i / 8 / 4096, i / 8 % 4096;
    assert 4096 * start + i / 8 == 4096 * z + e;
    if z < |d| {
      LaidAt(d, z, e);
      BitValue(d[z][e], i % 8);
    } else if d != [] {
      LaidAt(d, 0, 0);
    }
  }

  /** The bitmaps on the disk: inode `ix` has bit `ix` of the map behind the superblock, and zone `z` is free
      when the bit of its place among the data zones, counted from 1, is clear in the map behind that. */
  lemma MapsOnDisk(d: Disk, sb: Super, ix: nat, z: nat)
    requires GoodLayout(sb, d)
    ensures GetBit(d, IMAP_START, ix) <==> BitFrom(d, 4096 * 2, ix)
    ensures z in FreeZones(d, sb) <==>
            && sb.firstDataZone <= z
            && z - sb.firstDataZone + 1 < sb.zones - sb.firstDataZone
            && z - sb.firstDataZone + 1 < 8 * 4096 * sb.zmapBlocks
            && !BitFrom(d, 4096 * (2 + sb.imapBlocks), z - sb.firstDataZone + 1)
  {
    hide GetBit, BitFrom;
    BitOnDisk(d, 2, ix);
    if sb.firstDataZone <= z { BitOnDisk(d, 2 + sb.imapBlocks, z - sb.firstDataZone + 1); }
  }

  lemma BitValue(x: Byte, b: nat)
    requires b < 8
    ensures TestBit(x, b) <==> x / [1, 2, 4, 8, 16, 32, 64, 128][b] % 2 == 1
  {
    var y := x;
    var c := b;
    while c > 0
      invariant 0 <= c <= b && TestBit(x, b) == TestBit(y, c)
      invariant y == x / [1, 2, 4, 8, 16, 32, 64, 128][b - c]
    {
      y, c := y / 2, c - 1;
    }
  }
}
