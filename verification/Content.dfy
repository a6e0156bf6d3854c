/** The bytes of a file, and what a disk write does to them. */
module Content {
  import opened Collections
  import opened Blocks
  import opened ZoneTree
  import opened Bitmap
  import opened Layout
  import opened Volume
  import opened Growth

  ghost function ByteAt(d: Disk, zs: seq<nat>, i: nat): Byte {
    var r := Rank(Data(i / BLOCK_SIZE));
    if r < |zs| && zs[r] < |d| then d[zs[r]][i % BLOCK_SIZE] else 0
  }

  /** The file as a byte sequence. */
  ghost function Bytes(d: Disk, zs: seq<nat>, size: nat): (s: seq<Byte>)
    ensures |s| == size && forall i :: 0 <= i < size ==> s[i] == ByteAt(d, zs, i)
    decreases size
  {
    if size == 0 then [] else Bytes(d, zs, size - 1) + [ByteAt(d, zs, size - 1)]
  }

  lemma SameBytes(d: Disk, d': Disk, zs: seq<nat>, zs': seq<nat>, size: nat)
    requires forall i :: 0 <= i < size ==> ByteAt(d', zs', i) == ByteAt(d, zs, i)
    ensures Bytes(d', zs', size) == Bytes(d, zs, size)
  {
  }

  /** A data block of a file is not one of its index blocks. */
  lemma DataNotIndex(zs: seq<nat>, b: nat)
    requires NoDup(zs) && b < MAX_BLOCKS && Rank(Data(b)) < |zs|
    ensures !IndexZone(zs, zs[Rank(Data(b))])
  {
    IndexRanks(Data(b));
  }

  /** Growing leaves every byte the file had where it was. */
  lemma GrewBytes(d: Disk, d': Disk, sb: Super, zs: seq<nat>, ys: seq<nat>, i: nat)
    requires Grew(d, d', sb, zs, ys) && NoDup(ys) && i / BLOCK_SIZE < MAX_BLOCKS
    requires Rank(Data(i / BLOCK_SIZE)) < |zs|
    requires forall z :: z in zs ==> sb.TableStart() <= z < |d|
    ensures ByteAt(d', ys, i) == ByteAt(d, zs, i)
  {
    hide Rank, FreeZones, IndexZone;
    var r := Rank(Data(i / BLOCK_SIZE));
    DataNotIndex(ys, i / BLOCK_SIZE);
    assert zs[r] in zs;
  }

  /** Shrinking leaves every byte below the new size where it was. */
  lemma ShrankBytes(d: Disk, d': Disk, sb: Super, ys: seq<nat>, zs: seq<nat>, i: nat)
    requires Shrank(d, d', sb, ys, zs) && NoDup(ys) && i / BLOCK_SIZE < MAX_BLOCKS
    requires Rank(Data(i / BLOCK_SIZE)) < |zs|
    requires forall z :: z in ys ==> sb.TableStart() <= z < |d|
    ensures ByteAt(d', zs, i) == ByteAt(d, ys, i)
  {
    hide Rank, FreeZones, IndexZone;
    var r := Rank(Data(i / BLOCK_SIZE));
    DataNotIndex(ys, i / BLOCK_SIZE);
    assert ys[r] in ys;
  }

  /** The disks differ in the zone bitmap and in blocks of the file only. */
  ghost predicate OnlyFile(d: Disk, d': Disk, sb: Super, zs: seq<nat>) {
    && |d'| == |d|
    && (forall k :: 0 <= k < sb.ZmapStart() && k < |d| ==> d'[k] == d[k])
    && (forall k :: sb.TableStart() <= k < |d| && k !in zs ==> d'[k] == d[k])
  }

  lemma OnlyIndexIsFile(d: Disk, d': Disk, sb: Super, zs: seq<nat>)
    requires OnlyIndex(d, d', sb, zs)
    ensures OnlyFile(d, d', sb, zs)
  {
    forall k | sb.TableStart() <= k < |d| && k !in zs ensures d'[k] == d[k] {
      assert !IndexZone(zs, k);
    }
  }

  lemma OnlyFileTrans(d0: Disk, d1: Disk, d2: Disk, sb: Super, zs: seq<nat>, ys: seq<nat>)
    requires OnlyFile(d0, d1, sb, zs) && OnlyFile(d1, d2, sb, ys) && forall z :: z in zs ==> z in ys
    ensures OnlyFile(d0, d2, sb, ys)
  {
  }

  /** Another file's bytes do not change. */
  lemma OtherBytes(d: Disk, d': Disk, sb: Super, zs: seq<nat>, other: seq<nat>, size: nat)
    requires OnlyFile(d, d', sb, zs) && Apart(zs, other) && forall z :: z in other ==> sb.TableStart() <= z
    ensures Bytes(d', other, size) == Bytes(d, other, size)
  {
    forall i | 0 <= i < size ensures ByteAt(d', other, i) == ByteAt(d, other, i) {
      var r := Rank(Data(i / BLOCK_SIZE));
      if r < |other| { assert other[r] in other; }
    }
  }

  // ----- writing one data block

  lemma DataFileOk(d: Disk, n: Node, zs: seq<nat>, b: nat, buf: Block)
    requires FileOk(d, n, zs) && b < MAX_BLOCKS && Rank(Data(b)) < |zs|
    ensures zs[Rank(Data(b))] < |d| && FileOk(d[zs[Rank(Data(b))] := buf], n, zs)
  {
    var z := zs[Rank(Data(b))];
    forall q | ValidSlot(q) && IsIndex(q) && Rank(q) < |zs| ensures zs[Rank(q)] != z {
      IndexRanks(q);
      IndexRanks(Data(b));
    }
    FileFrame(d, d[z := buf], n, zs);
  }

  /** Writing a data block of the working file keeps the volume and the supply of zones. */
  lemma DataWrite(d: Disk, sb: Super, rest: map<nat, seq<nat>>, n: Node, zs: seq<nat>, m: nat, b: nat, buf: Block)
    requires Growing(d, sb, rest, n, zs, m) && b < MAX_BLOCKS && Rank(Data(b)) < |zs|
    ensures var z := zs[Rank(Data(b))];
            && z in zs && sb.firstDataZone <= z < |d|
            && Growing(d[z := buf], sb, rest, n, zs, m) && FreeZones(d[z := buf], sb) == FreeZones(d, sb)
            && OnlyFile(d, d[z := buf], sb, zs)
  {
    hide FileOk, Rank, FileIn;
    var z := zs[Rank(Data(b))];
    assert z in zs;
    DataFileOk(d, n, zs, b, buf);
    ZoneInRange(sb, d, z);
    var d' := d[z := buf];
    FreeFrame(d, d', sb);
    HeldFrame(d, d', sb, zs);
    VolBlock(d, sb, rest, z, buf);
    CleanFrame(d, d', FreeZones(d, sb), |zs|, m);
  }

  /** The bytes of a file after one of its data blocks is written. */
  lemma DataBytes(d: Disk, n: Node, zs: seq<nat>, b: nat, buf: Block, i: nat)
    requires FileOk(d, n, zs) && b < MAX_BLOCKS && Rank(Data(b)) < |zs| && i / BLOCK_SIZE < MAX_BLOCKS
    requires zs[Rank(Data(b))] < |d|
    ensures ByteAt(d[zs[Rank(Data(b))] := buf], zs, i) ==
            if i / BLOCK_SIZE == b then buf[i % BLOCK_SIZE] else ByteAt(d, zs, i)
  {
    hide ZoneAt, Rank;
    if i / BLOCK_SIZE != b && Rank(Data(i / BLOCK_SIZE)) == Rank(Data(b)) {
      RankInjective(Data(i / BLOCK_SIZE), Data(b));
    }
  }

  // ----- the inode table

  /** A file of the volume, opened for work. */
  lemma Open(d: Disk, sb: Super, files: map<nat, seq<nat>>, ix: nat)
    requires VolOk(d, sb, files) && ix in files
    ensures ValidIndex(sb, ix) && NodeBlock(sb, ix) < |d|
    ensures Working(d, sb, files - {ix}, NodeAt(d, sb, ix), files[ix])
    ensures |files[ix]| == ZonesFor(SizeOf(NodeAt(d, sb, ix)) / BLOCK_SIZE)
  {
    hide FileOk, NodeAt;
    assert FileIn(d, sb, ix, files[ix]);
  }

  lemma WriteNodeFile(d: Disk, sb: Super, ix: nat, n: Node, jx: nat, zs: seq<nat>)
    requires GoodLayout(sb, d) && ValidIndex(sb, ix) && NodeBlock(sb, ix) < |d|
    requires FileIn(d, sb, jx, zs) && jx != ix
    ensures FileIn(WithNode(d, sb, ix, n), sb, jx, zs)
  {
    var d' := WithNode(d, sb, ix, n);
    NodeBelowZones(sb, d, ix);
    NodeBelowZones(sb, d, jx);
    NodeRoundTrip(d, sb, ix, n, jx);
    ImapFrame(d, d', sb, jx);
    hide FileOk, GetBit, NodeAt, Marked, WithNode;
    HeldFrame(d, d', sb, zs);
    FileInFrame(d, d', sb, jx, zs);
  }

  /** Writing the inode back closes the file again. */
  lemma Close(d: Disk, sb: Super, rest: map<nat, seq<nat>>, ix: nat, n: Node, zs: seq<nat>)
    requires Working(d, sb, rest, n, zs) && ix !in rest && ValidIndex(sb, ix) && ix < sb.InodeBits()
    requires NodeBlock(sb, ix) < |d| && GetBit(d, IMAP_START, ix)
    requires |zs| == ZonesFor(SizeOf(n) / BLOCK_SIZE)
    ensures VolOk(WithNode(d, sb, ix, n), sb, rest[ix := zs])
    ensures NodeAt(WithNode(d, sb, ix, n), sb, ix) == n
    ensures FreeZones(WithNode(d, sb, ix, n), sb) == FreeZones(d, sb)
  {
    hide FileOk, NodeAt, Rank;
    var d' := WithNode(d, sb, ix, n);
    NodeBelowZones(sb, d, ix);
    NodeRoundTrip(d, sb, ix, n, ix);
    FreeFrame(d, d', sb);
    HeldFrame(d, d', sb, zs);
    ZonesFileOk(d, d', sb, n, zs);
    BitFrame(d, d', IMAP_START, 0);
    BitFrame(d, d', sb.ZmapStart(), 0);
    ImapFrame(d, d', sb, ix);
    forall jx | jx in rest ensures FileIn(d', sb, jx, rest[jx]) { WriteNodeFile(d, sb, ix, n, jx, rest[jx]); }
    hide FileIn, GetBit, WithNode;
    assert FileIn(d', sb, ix, zs) by { CloseFile(d', sb, ix, n, zs); }
  }

  lemma CloseFile(d: Disk, sb: Super, ix: nat, n: Node, zs: seq<nat>)
    requires ValidIndex(sb, ix) && ix < sb.InodeBits() && GetBit(d, IMAP_START, ix) && NodeBlock(sb, ix) < |d|
    requires NodeAt(d, sb, ix) == n && FileOk(d, n, zs) && ZonesHeld(d, sb, zs)
    requires |zs| == ZonesFor(SizeOf(n) / BLOCK_SIZE)
    ensures FileIn(d, sb, ix, zs)
  {
  }

  lemma ZonesFileOk(d: Disk, d': Disk, sb: Super, n: Node, zs: seq<nat>)
    requires GoodLayout(sb, d) && |d'| == |d| && FileOk(d, n, zs) && ZonesHeld(d, sb, zs)
    requires forall k :: sb.firstDataZone <= k < |d| ==> d'[k] == d[k]
    ensures FileOk(d', n, zs)
  {
    forall q | ValidSlot(q) && IsIndex(q) && Rank(q) < |zs| ensures d'[zs[Rank(q)]] == d[zs[Rank(q)]] {
      assert zs[Rank(q)] in zs;
    }
    FileFrame(d, d', n, zs);
  }

  // ----- looking blocks up through an inode that is older than the tree

  /** Whether the pointers an inode had when the file held `c` zones lead to block `b` of the
      file as it is now: the inode itself holds the direct zones and the tops of the tree. */
  predicate Reach(c: nat, b: nat) {
    if b < DIRECT then b < c else if b < DOUBLE then Rank(Indirect) < c else Rank(Double) < c
  }

  ghost predicate OldNode(n: Node, zs: seq<nat>) {
    forall s :: ValidSlot(s) && InNode(s) ==> n[Entry(s)] == StackAt(zs, Rank(s))
  }

  lemma FileOldNode(d: Disk, n: Node, zs: seq<nat>)
    requires FileOk(d, n, zs)
    ensures OldNode(n, zs)
  {
    forall s | ValidSlot(s) && InNode(s) ensures n[Entry(s)] == StackAt(zs, Rank(s)) {
      assert ZoneAt(d, n, s) == StackAt(zs, Rank(s));
    }
  }

  /** `get_block` reads the inode from disk, so while a file grows it sees the old pointers. */
  lemma OldNodeReads(d: Disk, n0: Node, zs: seq<nat>, n: Node, ys: seq<nat>, s: Slot)
    requires OldNode(n0, zs) && FileOk(d, n, ys) && zs <= ys && ValidSlot(s) && |d| > 0
    ensures s.Data? ==> ZoneAt(d, n0, s) == if Reach(|zs|, s.b) then StackAt(ys, Rank(s)) else 0
    ensures s.Sub? ==> ZoneAt(d, n0, s) == if Rank(Double) < |zs| then StackAt(ys, Rank(s)) else 0
    ensures ZoneAt(d, n0, s) < |d|
    decreases Depth(s)
  {
    assert ZoneAt(d, n, s) == StackAt(ys, Rank(s));
    if InNode(s) {
      assert n0[Entry(s)] == StackAt(zs, Rank(s));
    } else {
      var p := Parent(s);
      ParentFirst(s);
      assert ZoneAt(d, n, p) == StackAt(ys, Rank(p));
      OldNodeReads(d, n0, zs, n, ys, p);
      if InNode(p) { assert n0[Entry(p)] == StackAt(zs, Rank(p)); }
    }
  }

  /** Growing a file through `inode_truncate` clears the new bytes through the old inode, so
      it works exactly when that inode already leads to every block being cleared. */
  predicate Extendable(last: nat, hi: nat) {
    hi <= last || (DIRECT <= last && (hi < DOUBLE || DOUBLE <= last))
  }

  lemma ExtendableReach(last: nat, hi: nat)
    ensures Extendable(last, hi) <==> forall b :: last <= b <= hi ==> Reach(ZonesFor(last), b)
  {
    if !Extendable(last, hi) {
      assert !Reach(ZonesFor(last), last + 1) || !Reach(ZonesFor(last), hi);
    }
  }

  // ----- patching part of a block

  /** The block with `data` copied in at offset `o`. */
  function Patch(buf: Block, o: nat, data: seq<Byte>): (r: Block)
    requires o + |data| <= BLOCK_SIZE
  {
    buf[..o] + data + buf[o + |data|..]
  }

  lemma PatchBytes(d: Disk, n: Node, zs: seq<nat>, b: nat, o: nat, data: seq<Byte>, i: nat)
    requires FileOk(d, n, zs) && b < MAX_BLOCKS && Rank(Data(b)) < |zs| && i / BLOCK_SIZE < MAX_BLOCKS
    requires zs[Rank(Data(b))] < |d| && o + |data| <= BLOCK_SIZE
    ensures var z, at := zs[Rank(Data(b))], b * BLOCK_SIZE + o;
            ByteAt(d[z := Patch(d[z], o, data)], zs, i) ==
            if at <= i < at + |data| then data[i - at] else ByteAt(d, zs, i)
  {
    hide FileOk, Rank;
    var z := zs[Rank(Data(b))];
    DataBytes(d, n, zs, b, Patch(d[z], o, data), i);
    if i / BLOCK_SIZE == b {
      assert i == b * BLOCK_SIZE + i % BLOCK_SIZE;
    }
  }

  /** `calculate_block_copy_size`: what fits the block that `start` falls in. */
  function CopySize(start: nat, size: nat): (copy: nat)
    ensures start % BLOCK_SIZE + copy <= BLOCK_SIZE && copy <= size
    ensures size > 0 ==> copy > 0
    ensures copy < size ==> (start + copy) % BLOCK_SIZE == 0 && (start + copy) / BLOCK_SIZE == start / BLOCK_SIZE + 1
  {
    var offset := start % BLOCK_SIZE;
    if offset + size > BLOCK_SIZE then BLOCK_SIZE - offset else size
  }

  function Zeros(k: nat): (r: seq<Byte>)
    ensures |r| == k && forall i :: 0 <= i < k ==> r[i] == 0
  {
    if k == 0 then [] else Zeros(k - 1) + [0]
  }

  // ----- whole volumes

  /** The bytes of file `ix` of the volume. */
  ghost function FileBytes(d: Disk, sb: Super, files: map<nat, seq<nat>>, ix: nat): seq<Byte>
    requires ix in files
  {
    if ix > 0 && NodeBlock(sb, ix) < |d| then Bytes(d, files[ix], SizeOf(NodeAt(d, sb, ix))) else []
  }

  /** Every file but `ix` has the same inode and the same bytes on both disks. */
  ghost predicate OthersSame(d: Disk, d': Disk, sb: Super, files: map<nat, seq<nat>>, ix: nat) {
    |d'| == |d| && forall jx :: jx in files && jx != ix && jx > 0 && NodeBlock(sb, jx) < |d| ==>
      NodeAt(d', sb, jx) == NodeAt(d, sb, jx) && FileBytes(d', sb, files, jx) == FileBytes(d, sb, files, jx)
  }

  lemma OthersSameTrans(d0: Disk, d1: Disk, d2: Disk, sb: Super, files: map<nat, seq<nat>>, files': map<nat, seq<nat>>,
                        ix: nat)
    requires OthersSame(d0, d1, sb, files, ix) && OthersSame(d1, d2, sb, files', ix)
    requires files'.Keys == files.Keys && forall jx <- files :: jx != ix ==> files'[jx] == files[jx]
    ensures OthersSame(d0, d2, sb, files, ix)
  {
    hide NodeAt, Bytes;
  }

  /** Changing blocks of one file only leaves the others as they are. */
  lemma OnlyFileOthers(d: Disk, d': Disk, sb: Super, files: map<nat, seq<nat>>, ix: nat, zs: seq<nat>)
    requires VolOk(d, sb, files - {ix}) && OnlyFile(d, d', sb, zs)
    requires forall z :: z in zs ==> sb.firstDataZone <= z
    requires forall jx <- files - {ix} :: Apart(zs, files[jx])
    ensures OthersSame(d, d', sb, files, ix)
  {
    hide NodeAt, Bytes, FileOk;
    forall jx | jx in files && jx != ix && jx > 0 && NodeBlock(sb, jx) < |d|
      ensures NodeAt(d', sb, jx) == NodeAt(d, sb, jx) && FileBytes(d', sb, files, jx) == FileBytes(d, sb, files, jx)
    {
      assert jx in files - {ix} && FileIn(d, sb, jx, files[jx]);
      NodeBelowZones(sb, d, jx);
      NodeFrame(d, d', sb, jx);
      OtherBytes(d, d', sb, zs, files[jx], SizeOf(NodeAt(d, sb, jx)));
    }
  }

  /** Writing the inode of one file leaves the others as they are. */
  lemma WriteNodeOthers(d: Disk, sb: Super, files: map<nat, seq<nat>>, ix: nat, n: Node)
    requires VolOk(d, sb, files - {ix}) && ValidIndex(sb, ix) && NodeBlock(sb, ix) < |d|
    ensures OthersSame(d, WithNode(d, sb, ix, n), sb, files, ix)
  {
    hide NodeAt, FileOk;
    var d' := WithNode(d, sb, ix, n);
    forall jx | jx in files && jx != ix && jx > 0 && NodeBlock(sb, jx) < |d|
      ensures NodeAt(d', sb, jx) == NodeAt(d, sb, jx) && FileBytes(d', sb, files, jx) == FileBytes(d, sb, files, jx)
    {
      assert jx in files - {ix} && FileIn(d, sb, jx, files[jx]);
      NodeRoundTrip(d, sb, ix, n, jx);
      NodeBytes(d, sb, ix, n, files[jx], SizeOf(NodeAt(d, sb, jx)));
    }
  }

  lemma NodeBytes(d: Disk, sb: Super, ix: nat, n: Node, zs: seq<nat>, size: nat)
    requires GoodLayout(sb, d) && ValidIndex(sb, ix) && NodeBlock(sb, ix) < |d|
    requires forall z :: z in zs ==> sb.firstDataZone <= z
    ensures Bytes(WithNode(d, sb, ix, n), zs, size) == Bytes(d, zs, size)
  {
    NodeBelowZones(sb, d, ix);
    var d' := WithNode(d, sb, ix, n);
    forall i | 0 <= i < size ensures ByteAt(d', zs, i) == ByteAt(d, zs, i) {
      var r := Rank(Data(i / BLOCK_SIZE));
      if r < |zs| { assert zs[r] in zs; }
    }
  }

  // ----- the size of a file is bounded by the size of the disk

  ghost function Interval(lo: nat, hi: nat): (r: set<nat>)
    requires lo <= hi
    ensures |r| == hi - lo && forall z :: z in r <==> lo <= z < hi
    decreases hi - lo
  {
    if lo == hi then {} else Interval(lo, hi - 1) + {hi - 1}
  }

  lemma DistinctBound(zs: seq<nat>, lo: nat, hi: nat)
    requires NoDup(zs) && (forall z :: z in zs ==> lo <= z < hi) && lo <= hi
    ensures |zs| <= hi - lo
  {
    DistinctCard(zs);
    SubsetCard(Elems(zs), Interval(lo, hi));
  }

  lemma {:induction false} DistinctCard(zs: seq<nat>)
    requires NoDup(zs)
    ensures |Elems(zs)| == |zs|
    decreases |zs|
  {
    if |zs| > 0 {
      var rest := zs[..|zs| - 1];
      DistinctCard(rest);
      assert Elems(zs) == Elems(rest) + {zs[|zs| - 1]};
      assert zs[|zs| - 1] !in rest;
    }
  }

  /** Block numbers of a file fit 16 bits, because its zones do. */
  lemma SizeFits(d: Disk, sb: Super, rest: map<nat, seq<nat>>, n: Node, zs: seq<nat>, last: nat)
    requires Working(d, sb, rest, n, zs) && |zs| == ZonesFor(last)
    ensures last + 1 < 0x1_0000
  {
    forall z | z in zs ensures sb.firstDataZone <= z < sb.zones { ZoneInRange(sb, d, z); }
    DistinctBound(zs, sb.firstDataZone, sb.zones);
  }

  /** A file whose inode on disk is up to date is part of the volume. */
  lemma Rejoin(d: Disk, sb: Super, files: map<nat, seq<nat>>, ix: nat)
    requires ix in files && ValidIndex(sb, ix) && ix < sb.InodeBits() && GetBit(d, IMAP_START, ix)
    requires NodeBlock(sb, ix) < |d| && |files[ix]| == ZonesFor(SizeOf(NodeAt(d, sb, ix)) / BLOCK_SIZE)
    requires Working(d, sb, files - {ix}, NodeAt(d, sb, ix), files[ix])
    ensures VolOk(d, sb, files)
  {
    hide FileOk, NodeAt, GetBit, Rank;
    CloseFile(d, sb, ix, NodeAt(d, sb, ix), files[ix]);
    var rest := files - {ix};
    forall jx | jx in files ensures FileIn(d, sb, jx, files[jx]) {
      if jx != ix { assert jx in rest; }
    }
    hide FileIn;
    forall a, b | a in files && b in files && a != b ensures Apart(files[a], files[b]) {
      if a == ix { assert b in rest; }
      else if b == ix { assert a in rest && Apart(files[ix], rest[a]); }
      else { assert a in rest && b in rest; }
    }
  }

  /** The bytes with `data` written over them at `start`, longer if need be. */
  ghost function Spliced(s: seq<Byte>, start: nat, data: seq<Byte>): (r: seq<Byte>)
    requires start <= |s|
  {
    s[..start] + data + if start + |data| < |s| then s[start + |data|..] else []
  }

  /** A byte sequence cut or filled up with zeros. */
  ghost function Resized(s: seq<Byte>, size: nat): (r: seq<Byte>) {
    if size <= |s| then s[..size] else s + Zeros(size - |s|)
  }

  /** Growing the file just enough first does not change what a write leaves. */
  lemma SpliceGrown(s: seq<Byte>, at: nat, piece: seq<Byte>)
    requires at <= |s| < at + |piece|
    ensures Spliced(Resized(s, at + |piece|), at, piece) == Spliced(s, at, piece)
  {
  }

  /** Writing piece after piece is writing all at once. */
  lemma SpliceNext(s: seq<Byte>, start: nat, done: seq<Byte>, more: seq<Byte>)
    requires start <= |s|
    ensures start + |done| <= |Spliced(s, start, done)|
    ensures Spliced(Spliced(s, start, done), start + |done|, more) == Spliced(s, start, done + more)
  {
  }

  /** The lookups a file of the volume needs stay on the disk and find its blocks. */
  lemma Lookups(d: Disk, sb: Super, rest: map<nat, seq<nat>>, n: Node, zs: seq<nat>, last: nat, b: nat)
    requires Working(d, sb, rest, n, zs) && |zs| == ZonesFor(last) && b <= last
    ensures forall s :: ValidSlot(s) && IsIndex(s) ==> ZoneAt(d, n, s) < |d|
    ensures b < 0x1_0000 && Rank(Data(b)) < |zs| && ZoneAt(d, n, Data(b)) == zs[Rank(Data(b))] != 0
  {
    SizeFits(d, sb, rest, n, zs, last);
    hide FileIn;
    MappedExactly(d, n, zs, last, b);
    forall s | ValidSlot(s) && IsIndex(s) ensures ZoneAt(d, n, s) < |d| {
      assert ZoneAt(d, n, s) == StackAt(zs, Rank(s));
    }
  }

  lemma SplicedBytes(d: Disk, d': Disk, zs: seq<nat>, size: nat, at: nat, data: seq<Byte>)
    requires at + |data| <= size
    requires forall i :: 0 <= i < size ==>
               ByteAt(d', zs, i) == if at <= i < at + |data| then data[i - at] else ByteAt(d, zs, i)
    ensures Bytes(d', zs, size) == Spliced(Bytes(d, zs, size), at, data)
  {
    hide ByteAt;
  }

  // ----- inodes come and go

  /** Writing an inode that is not one of the files leaves the volume as it is. */
  lemma VolNode(d: Disk, sb: Super, files: map<nat, seq<nat>>, ix: nat, n: Node)
    requires VolOk(d, sb, files) && ix !in files && ValidIndex(sb, ix) && NodeBlock(sb, ix) < |d|
    ensures VolOk(WithNode(d, sb, ix, n), sb, files)
    ensures FreeZones(WithNode(d, sb, ix, n), sb) == FreeZones(d, sb)
  {
    hide FileOk, NodeAt, Rank;
    var d' := WithNode(d, sb, ix, n);
    NodeBelowZones(sb, d, ix);
    FreeFrame(d, d', sb);
    BitFrame(d, d', IMAP_START, 0);
    BitFrame(d, d', sb.ZmapStart(), 0);
    forall jx | jx in files ensures FileIn(d', sb, jx, files[jx]) { WriteNodeFile(d, sb, ix, n, jx, files[jx]); }
  }

  /** The disks differ in the inode bitmap only. */
  ghost predicate OnlyImap(d: Disk, d': Disk, sb: Super) {
    |d'| == |d| && forall k :: 0 <= k < |d| && !(IMAP_START <= k < sb.ZmapStart()) ==> d'[k] == d[k]
  }

  lemma VolImapFile(d: Disk, d': Disk, sb: Super, ix: nat, zs: seq<nat>)
    requires GoodLayout(sb, d) && FileIn(d, sb, ix, zs) && OnlyImap(d, d', sb) && GetBit(d', IMAP_START, ix)
    ensures FileIn(d', sb, ix, zs)
  {
    NodeBelowZones(sb, d, ix);
    NodeFrame(d, d', sb, ix);
    hide FileOk, GetBit, NodeAt, Marked;
    HeldFrame(d, d', sb, zs);
    forall z | z in zs && z < |d| ensures d'[z] == d[z] { ZoneInRange(sb, d, z); }
    FileInFrame(d, d', sb, ix, zs);
  }

  lemma VolImap(d: Disk, d': Disk, sb: Super, files: map<nat, seq<nat>>)
    requires VolOk(d, sb, files) && OnlyImap(d, d', sb) && GetBit(d', IMAP_START, 0)
    requires forall ix <- files :: GetBit(d', IMAP_START, ix)
    ensures VolOk(d', sb, files) && FreeZones(d', sb) == FreeZones(d, sb)
  {
    hide GetBit, FileIn;
    forall ix | ix in files ensures FileIn(d', sb, ix, files[ix]) { VolImapFile(d, d', sb, ix, files[ix]); }
    BitFrame(d, d', sb.ZmapStart(), 0);
    FreeFrame(d, d', sb);
  }

  lemma OnlyImapOthers(d: Disk, d': Disk, sb: Super, files: map<nat, seq<nat>>, ix: nat)
    requires VolOk(d, sb, files - {ix}) && OnlyImap(d, d', sb)
    ensures OthersSame(d, d', sb, files, ix)
  {
    hide NodeAt, FileOk;
    forall jx | jx in files && jx != ix && jx > 0 && NodeBlock(sb, jx) < |d|
      ensures NodeAt(d', sb, jx) == NodeAt(d, sb, jx) && FileBytes(d', sb, files, jx) == FileBytes(d, sb, files, jx)
    {
      assert jx in files - {ix} && FileIn(d, sb, jx, files[jx]);
      NodeBelowZones(sb, d, jx);
      NodeFrame(d, d', sb, jx);
      forall i | 0 <= i < SizeOf(NodeAt(d, sb, jx)) ensures ByteAt(d', files[jx], i) == ByteAt(d, files[jx], i) {
        var r := Rank(Data(i / BLOCK_SIZE));
        if r < |files[jx]| { assert files[jx][r] in files[jx]; }
      }
      SameBytes(d, d', files[jx], files[jx], SizeOf(NodeAt(d, sb, jx)));
    }
  }

  lemma ImapBit(d: Disk, sb: Super, ix: nat)
    requires GoodLayout(sb, d) && ix < sb.InodeBits()
    ensures IMAP_START + ix / 8 / BLOCK_SIZE < sb.ZmapStart() <= |d|
    ensures OnlyImap(d, PutBit(d, IMAP_START, ix), sb) && OnlyImap(d, DropBit(d, IMAP_START, ix), sb)
    ensures forall jx :: GetBit(PutBit(d, IMAP_START, ix), IMAP_START, jx) == (jx == ix || GetBit(d, IMAP_START, jx))
    ensures forall jx :: GetBit(DropBit(d, IMAP_START, ix), IMAP_START, jx) == (jx != ix && GetBit(d, IMAP_START, jx))
  {
    hide GetBit, SetBit, ClearBit, TestBit;
    forall jx: nat
      ensures GetBit(PutBit(d, IMAP_START, ix), IMAP_START, jx) == (jx == ix || GetBit(d, IMAP_START, jx))
      ensures GetBit(DropBit(d, IMAP_START, ix), IMAP_START, jx) == (jx != ix && GetBit(d, IMAP_START, jx))
    {
      OneBit(d, IMAP_START, ix, jx);
    }
  }

  /** An inode of zeros is a file without zones. */
  lemma {:induction false} EmptyWalk(d: Disk, n: Node, t: Slot)
    requires ValidSlot(t) && forall i :: ZONE_WORD <= i < 16 ==> n[i] == 0
    ensures ZoneAt(d, n, t) == 0
    decreases Depth(t)
  {
    if !InNode(t) {
      ParentFirst(t);
      EmptyWalk(d, n, Parent(t));
    }
  }

  lemma EmptyFile(d: Disk, n: Node)
    requires forall i :: ZONE_WORD <= i < 16 ==> n[i] == 0
    ensures FileOk(d, n, [])
  {
    forall t | ValidSlot(t) ensures ZoneAt(d, n, t) == StackAt([], Rank(t)) { EmptyWalk(d, n, t); }
  }

  // ----- what belongs to no file

  /** Zones that are free on both disks hold the same. */
  ghost predicate FreeSame(d: Disk, d': Disk, sb: Super) {
    |d'| == |d| && forall z :: z in FreeZones(d, sb) && z in FreeZones(d', sb) && z < |d| ==> d'[z] == d[z]
  }

  /** The inode bitmap is the same on both disks. */
  ghost predicate ImapSame(d: Disk, d': Disk, sb: Super) {
    |d'| == |d| && forall k :: IMAP_START <= k < sb.ZmapStart() && k < |d| ==> d'[k] == d[k]
  }

  /** Nothing outside the files has changed but the zone bitmap. */
  ghost predicate Aside(d: Disk, d': Disk, sb: Super) {
    FreeSame(d, d', sb) && ImapSame(d, d', sb)
  }

  lemma AsideSame(d: Disk, sb: Super)
    ensures Aside(d, d, sb)
  {
  }

  lemma AsideTrans(d0: Disk, d1: Disk, d2: Disk, sb: Super)
    requires Aside(d0, d1, sb) && Aside(d1, d2, sb)
    requires FreeZones(d2, sb) <= FreeZones(d1, sb) || FreeZones(d0, sb) <= FreeZones(d1, sb)
    ensures Aside(d0, d2, sb)
  {
    hide FreeZones;
  }

  /** What happens in blocks of a file that are marked before or after leaves the rest alone. */
  lemma OnlyFileAside(d: Disk, d': Disk, sb: Super, zs: seq<nat>)
    requires GoodLayout(sb, d) && OnlyFile(d, d', sb, zs) && (ZonesHeld(d, sb, zs) || ZonesHeld(d', sb, zs))
    ensures Aside(d, d', sb)
  {
    hide Marked;
    forall z | z in FreeZones(d, sb) && z in FreeZones(d', sb) && z < |d| ensures d'[z] == d[z] {
      assert z !in zs;
    }
  }

  /** If every free zone reads as zeros, it still does when no zone was freed. */
  ghost predicate Zeroed(d: Disk, sb: Super) {
    forall z <- FreeZones(d, sb) :: z < |d| && ZeroBlock(d[z])
  }

  lemma StaysZeroed(d: Disk, d': Disk, sb: Super)
    requires Zeroed(d, sb) && FreeSame(d, d', sb) && FreeZones(d', sb) <= FreeZones(d, sb)
    ensures Zeroed(d', sb)
  {
    hide FreeZones, ZeroBlock;
  }
}
