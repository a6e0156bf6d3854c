/** Allocation bitmaps that span several disk blocks. */
module Bitmap {
  import opened Collections
  import opened Blocks
  import opened BlockCache

  const BITS := 8 * BLOCK_SIZE

  /** Bit `i` of the map that starts at block `start`. */
  predicate GetBit(d: Disk, start: nat, i: nat) {
    start + i / 8 / BLOCK_SIZE < |d| && TestBit(d[start + i / 8 / BLOCK_SIZE][i / 8 % BLOCK_SIZE], i % 8)
  }

  function WriteByte(d: Disk, k: nat, i: nat, x: Byte): (r: Disk)
    requires k < |d| && i < BLOCK_SIZE
    ensures |r| == |d|
  {
    d[k := d[k][i := x]]
  }

  function PutBit(d: Disk, start: nat, i: nat): (r: Disk)
    requires start + i / 8 / BLOCK_SIZE < |d|
    ensures |r| == |d|
  {
    var k, e := start + i / 8 / BLOCK_SIZE, i / 8 % BLOCK_SIZE;
    ByteBits(d[k][e], i % 8);
    WriteByte(d, k, e, SetBit(d[k][e], i % 8))
  }

  function DropBit(d: Disk, start: nat, i: nat): (r: Disk)
    requires start + i / 8 / BLOCK_SIZE < |d|
    ensures |r| == |d|
  {
    var k, e := start + i / 8 / BLOCK_SIZE, i / 8 % BLOCK_SIZE;
    ByteBits(d[k][e], i % 8);
    WriteByte(d, k, e, ClearBit(d[k][e], i % 8))
  }

  lemma BitPlace(i: nat, j: nat)
    requires i / 8 / BLOCK_SIZE == j / 8 / BLOCK_SIZE && i / 8 % BLOCK_SIZE == j / 8 % BLOCK_SIZE && i % 8 == j % 8
    ensures i == j
  {
  }

  /** Setting or clearing one bit changes that bit only. */
  lemma OneBit(d: Disk, start: nat, i: nat, j: nat)
    requires start + i / 8 / BLOCK_SIZE < |d|
    ensures GetBit(PutBit(d, start, i), start, j) == (i == j || GetBit(d, start, j))
    ensures GetBit(DropBit(d, start, i), start, j) == (i != j && GetBit(d, start, j))
  {
    hide TestBit, SetBit, ClearBit;
    var k, e := start + i / 8 / BLOCK_SIZE, i / 8 % BLOCK_SIZE;
    BitAfter(d[k][e], i % 8, j % 8);
    if i / 8 / BLOCK_SIZE == j / 8 / BLOCK_SIZE && e == j / 8 % BLOCK_SIZE && i % 8 == j % 8 { BitPlace(i, j); }
  }

  /** `unmark_map` is the exact inverse of taking a clear bit. */
  lemma UnmarkUndoesMark(d: Disk, start: nat, i: nat)
    requires start + i / 8 / BLOCK_SIZE < |d| && !GetBit(d, start, i)
    ensures DropBit(PutBit(d, start, i), start, i) == d
  {
    hide TestBit, SetBit, ClearBit;
    var k, e := start + i / 8 / BLOCK_SIZE, i / 8 % BLOCK_SIZE;
    ClearUndoesSet(d[k][e], i % 8);
    ByteBits(d[k][e], i % 8);
    assert d[k][e := SetBit(d[k][e], i % 8)][e := d[k][e]] == d[k];
  }

  ghost predicate AllSet(d: Disk, start: nat, n: nat) {
    forall j :: 0 <= j < n ==> GetBit(d, start, j)
  }

  /** What taking a bit below `n` does: the least clear bit, or nothing if all are set. */
  ghost predicate TookBit(d: Disk, d': Disk, start: nat, n: nat, index: nat) {
    if AllSet(d, start, n) then index == 0 && d' == d
    else
      && index < n && !GetBit(d, start, index) && AllSet(d, start, index)
      && start + index / 8 / BLOCK_SIZE < |d| && d' == PutBit(d, start, index)
  }

  /** `mark_map`: takes the least clear bit below `limit`. */
  method MarkMap(dev: Device, start: nat, end: nat, limit: nat) returns (index: nat)
    requires start <= end <= |dev.io.disk|
    modifies dev
    ensures TookBit(old(dev.io.disk), dev.io.disk, start, Least(limit, BITS * (end - start)), index)
  {
    hide GetBit, TestBit, PutBit;
    ghost var d := dev.io.disk;
    var block := start;
    index := 0;
    while block < end
      invariant start <= block <= end && index == BITS * (block - start)
      invariant dev.io.disk == d && AllSet(d, start, index)
    {
      var buf := dev.Load(block);
      var i := 0;
      while i < BLOCK_SIZE
        invariant 0 <= i <= BLOCK_SIZE && index == BITS * (block - start) + 8 * i
        invariant dev.io.disk == d && AllSet(d, start, index) && buf == d[block]
      {
        FullByte(buf[i]);
        if buf[i] == 0xff {
          FullByteSet(d, start, block, i, 8);
          index := index + 8;
          i := i + 1;
          continue;
        }
        index := MarkByte(dev, buf, start, block, i, index, limit);
        return;
      }
      block := block + 1;
    }
    return 0;
  }

  /** The scan of `mark_map` through a byte that is not full */
  method MarkByte(dev: Device, data: Block, ghost start: nat, block: nat, i: nat, index: nat, limit: nat)
    returns (r: nat)
    requires start <= block < |dev.io.disk| && i < BLOCK_SIZE && index == BITS * (block - start) + 8 * i
    requires data == dev.io.disk[block] && !Ones(data[i], 8) && AllSet(dev.io.disk, start, index)
    modifies dev
    ensures forall m :: m >= index + 8 ==> TookBit(old(dev.io.disk), dev.io.disk, start, Least(limit, m), r)
  {
    hide GetBit, TestBit, PutBit;
    ghost var d := dev.io.disk;
    var buf := data;
    var b := 0;
    while b < 8
      invariant 0 <= b <= 8 && Ones(buf[i], b) && dev.io.disk == d
    {
      FullByteSet(d, start, block, i, b);
      if index + b >= limit {
        return 0;
      }
      if !TestBit(buf[i], b) {
        ClearFound(d, start, block, i, b);
        ByteBits(buf[i], b);
        buf := buf[i := SetBit(buf[i], b)];
        dev.Save(block, buf);
        return index + b;
      }
      b := b + 1;
    }
  }

  /** `unmark_map` */
  method UnmarkMap(dev: Device, index: nat, start: nat)
    requires start + index / 8 / BLOCK_SIZE < |dev.io.disk|
    modifies dev
    ensures dev.io.disk == DropBit(old(dev.io.disk), start, index)
  {
    var block := start + index / 8 / BLOCK_SIZE;
    var buf := dev.Load(block);
    ByteBits(buf[index / 8 % BLOCK_SIZE], index % 8);
    buf := buf[index / 8 % BLOCK_SIZE := ClearBit(buf[index / 8 % BLOCK_SIZE], index % 8)];
    dev.Save(block, buf);
  }

  lemma FullByteSet(d: Disk, start: nat, block: nat, i: nat, b: nat)
    requires start <= block < |d| && i < BLOCK_SIZE && b <= 8
    requires Ones(d[block][i], b) && AllSet(d, start, BITS * (block - start) + 8 * i)
    ensures AllSet(d, start, BITS * (block - start) + 8 * i + b)
  {
    var low := BITS * (block - start) + 8 * i;
    forall j | 0 <= j < low + b ensures GetBit(d, start, j) {
      if j >= low {
        assert j / 8 == BLOCK_SIZE * (block - start) + i && j % 8 == j - low;
        assert j / 8 / BLOCK_SIZE == block - start && j / 8 % BLOCK_SIZE == i;
        assert TestBit(d[block][i], j % 8);
      }
    }
  }

  lemma ClearFound(d: Disk, start: nat, block: nat, i: nat, b: nat)
    requires start <= block < |d| && i < BLOCK_SIZE && b < 8 && !TestBit(d[block][i], b)
    ensures var index := BITS * (block - start) + 8 * i + b;
            && start + index / 8 / BLOCK_SIZE == block && !GetBit(d, start, index)
            && SetBit(d[block][i], b) < 256
            && PutBit(d, start, index) == d[block := d[block][i := SetBit(d[block][i], b)]]
  {
    var index := BITS * (block - start) + 8 * i + b;
    assert index / 8 == BLOCK_SIZE * (block - start) + i && index % 8 == b;
    assert index / 8 / BLOCK_SIZE == block - start && index / 8 % BLOCK_SIZE == i;
    ByteBits(d[block][i], b);
  }
}
