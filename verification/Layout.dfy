/** Where the bitmaps, the inode table and the data zones lie on the disk. */
module Layout {
  import opened Collections
  import opened Blocks
  import opened ZoneTree
  import opened Bitmap

  const IMAP_START := 2
  const INODES_PER_BLOCK := 64
  const NODE_WORDS := 16

  datatype Super = Super(imapBlocks: nat, zmapBlocks: nat, ninodes: nat, firstDataZone: nat, zones: nat) {
    function ZmapStart(): nat { IMAP_START + imapBlocks }
    function TableStart(): nat { IMAP_START + imapBlocks + zmapBlocks }
    function ZoneBits(): nat { Least(if zones < firstDataZone then 0 else zones - firstDataZone, BITS * zmapBlocks) }
    function InodeBits(): nat { Least(ninodes, BITS * imapBlocks) }
  }

  /** The regions follow each other, and block numbers fit the 16 bits of `block_index`. */
  ghost predicate GoodLayout(sb: Super, d: Disk) {
    && sb.TableStart() + (sb.ninodes + INODES_PER_BLOCK - 1) / INODES_PER_BLOCK <= sb.firstDataZone
    && sb.firstDataZone <= sb.zones <= |d| && sb.zones < 0x1_0000 && sb.imapBlocks > 0 && sb.zmapBlocks > 0
  }

  // ----- the inode table

  ghost predicate ValidIndex(sb: Super, ix: nat) {
    1 <= ix < sb.ninodes
  }

  function NodeBlock(sb: Super, ix: nat): nat
    requires ix > 0
  {
    sb.TableStart() + (ix - 1) / INODES_PER_BLOCK
  }

  function NodeWord(ix: nat): (r: nat)
    requires ix > 0
    ensures r + NODE_WORDS <= WORDS
  {
    (ix - 1) % INODES_PER_BLOCK * NODE_WORDS
  }

  function Words(b: Block, at: nat, k: nat): (r: seq<Word>)
    requires at + k <= WORDS
    ensures |r| == k && forall j :: 0 <= j < k ==> r[j] == GetWord(b, at + j)
  {
    if k == 0 then [] else Words(b, at, k - 1) + [GetWord(b, at + k - 1)]
  }

  /** `read_inode` */
  function NodeAt(d: Disk, sb: Super, ix: nat): (n: Node)
    requires ix > 0 && NodeBlock(sb, ix) < |d|
  {
    Words(d[NodeBlock(sb, ix)], NodeWord(ix), NODE_WORDS)
  }

  function SetWords(b: Block, at: nat, n: Node, k: nat): (r: Block)
    requires at + NODE_WORDS <= WORDS && k <= NODE_WORDS
  {
    if k == 0 then b else SetWord(SetWords(b, at, n, k - 1), at + k - 1, n[k - 1])
  }

  lemma {:induction false} SetWordsReads(b: Block, at: nat, n: Node, k: nat, j: nat)
    requires at + NODE_WORDS <= WORDS && k <= NODE_WORDS && j < WORDS
    ensures GetWord(SetWords(b, at, n, k), j) == if at <= j < at + k then n[j - at] else GetWord(b, j)
    decreases k
  {
    hide GetWord, SetWord;
    if k > 0 {
      SetWordsReads(b, at, n, k - 1, j);
      WordRoundTrip(SetWords(b, at, n, k - 1), at + k - 1, n[k - 1], j);
    }
  }

  /** `write_inode` */
  function WithNode(d: Disk, sb: Super, ix: nat, n: Node): (r: Disk)
    requires ix > 0 && NodeBlock(sb, ix) < |d|
    ensures |r| == |d|
  {
    d[NodeBlock(sb, ix) := SetWords(d[NodeBlock(sb, ix)], NodeWord(ix), n, NODE_WORDS)]
  }

  /** Writing one inode changes that inode only. */
  lemma NodeRoundTrip(d: Disk, sb: Super, ix: nat, n: Node, jx: nat)
    requires ix > 0 && NodeBlock(sb, ix) < |d| && jx > 0 && NodeBlock(sb, jx) < |d|
    ensures NodeAt(WithNode(d, sb, ix, n), sb, jx) == if ix == jx then n else NodeAt(d, sb, jx)
  {
    hide GetWord, SetWords, Words;
    var d' := WithNode(d, sb, ix, n);
    forall k | 0 <= k < NODE_WORDS
      ensures NodeAt(d', sb, jx)[k] == if ix == jx then n[k] else NodeAt(d, sb, jx)[k]
    {
      SetWordsReads(d[NodeBlock(sb, ix)], NodeWord(ix), n, NODE_WORDS, NodeWord(jx) + k);
    }
  }

  lemma NodeBelowZones(sb: Super, d: Disk, ix: nat)
    requires GoodLayout(sb, d) && ValidIndex(sb, ix)
    ensures sb.TableStart() <= NodeBlock(sb, ix) < sb.firstDataZone <= |d|
  {
  }

  // ----- zones and their bits

  ghost predicate ZoneOk(sb: Super, z: nat) {
    sb.firstDataZone <= z && z - sb.firstDataZone + 1 < sb.ZoneBits()
  }

  lemma ZoneInRange(sb: Super, d: Disk, z: nat)
    requires GoodLayout(sb, d) && ZoneOk(sb, z)
    ensures sb.firstDataZone <= z < sb.zones <= |d|
    ensures sb.ZmapStart() + (z - sb.firstDataZone + 1) / 8 / BLOCK_SIZE < sb.TableStart()
  {
  }

  ghost predicate Marked(d: Disk, sb: Super, z: nat)
    requires sb.firstDataZone <= z
  {
    GetBit(d, sb.ZmapStart(), z - sb.firstDataZone + 1)
  }

  /** The zones `mark_zmap` can still take. */
  ghost function FreeZones(d: Disk, sb: Super): set<nat> {
    set z | sb.firstDataZone <= z < sb.firstDataZone + sb.ZoneBits() && ZoneOk(sb, z) && !Marked(d, sb, z)
  }
}
