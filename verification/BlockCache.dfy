/** The write-through block cache over the card. */
module BlockCache {
  import opened Blocks

  const BLOCKS_PER_PAGE := 0x1000 / BLOCK_SIZE

  /** A cached block: its number and the buffer that holds it. */
  datatype Cached = Cached(index: nat, buffer: nat)

  /** Used entries have different numbers and different buffers, and each buffer is what the card holds. */
  ghost predicate Coherent(card: seq<Block>, buffers: seq<Block>, used: seq<Cached>) {
    && (forall k :: 0 <= k < |used| ==> used[k].index < |card| && used[k].buffer < |buffers|)
    && (forall k :: 0 <= k < |used| ==> buffers[used[k].buffer] == card[used[k].index])
    && (forall j, k :: 0 <= j < k < |used| ==> used[j].index != used[k].index && used[j].buffer != used[k].buffer)
  }

  /** Free buffers are different and none of them is in use. */
  ghost predicate Spare(buffers: seq<Block>, used: seq<Cached>, free: seq<nat>) {
    && (forall k :: 0 <= k < |free| ==> free[k] < |buffers|)
    && (forall j, k :: 0 <= j < k < |free| ==> free[j] != free[k])
    && (forall j, k :: 0 <= j < |used| && 0 <= k < |free| ==> used[j].buffer != free[k])
  }

  lemma Filled(card: seq<Block>, buffers: seq<Block>, used: seq<Cached>, free: seq<nat>, index: nat)
    requires Coherent(card, buffers, used) && Spare(buffers, used, free) && free != [] && index < |card|
    requires forall k :: 0 <= k < |used| ==> used[k].index != index
    ensures Coherent(card, buffers[free[0] := card[index]], [Cached(index, free[0])] + used)
    ensures Spare(buffers[free[0] := card[index]], [Cached(index, free[0])] + used, free[1..])
  {
  }

  /** Writing a block in its buffer and through to the card keeps every other entry right. */
  lemma Written(card: seq<Block>, buffers: seq<Block>, used: seq<Cached>, k: nat, data: Block)
    requires Coherent(card, buffers, used) && k < |used|
    ensures Coherent(card[used[k].index := data], buffers[used[k].buffer := data], used)
  {
    forall j | 0 <= j < |used|
      ensures buffers[used[k].buffer := data][used[j].buffer] == card[used[k].index := data][used[j].index]
    {
      if j < k { assert used[j].index != used[k].index; } else if k < j { assert used[k].index != used[j].index; }
    }
  }

  /** The card, the buffers in memory, which of them hold which block, and which are free. */
  datatype State = State(disk: Disk, buffers: seq<Block>, used: seq<Cached>, free: seq<nat>)

  ghost predicate Good(s: State) {
    Coherent(s.disk, s.buffers, s.used) && Spare(s.buffers, s.used, s.free)
  }

  type Cache = s: State | Good(s) witness State([], [], [], [])

  /** The card behind its cache. */
  class Device {
    /** What is on the card and in the cache. */
    var io: Cache

    /** `block_init` */
    constructor (blocks: Disk)
      ensures io.disk == blocks
    {
      io := State(blocks, [], [], []);
    }

    /** `prepare_blocks`: the buffers of a new page, whose contents are arbitrary. */
    method Prepare()
      modifies this
      ensures io.disk == old(io.disk) && io.used == old(io.used)
      ensures |io.free| == |old(io.free)| + BLOCKS_PER_PAGE
    {
      var i := 0;
      while i < BLOCKS_PER_PAGE
        invariant 0 <= i <= BLOCKS_PER_PAGE && io.disk == old(io.disk) && io.used == old(io.used)
        invariant |io.free| == |old(io.free)| + i
      {
        var page: Block := *;
        io := io.(free := [|io.buffers|] + io.free, buffers := io.buffers + [page]);
        i := i + 1;
      }
    }

    /** `get_block` */
    method GetBlock(index: nat) returns (k: nat)
      requires index < |io.disk|
      modifies this
      ensures io.disk == old(io.disk) && k < |io.used| && io.used[k].index == index
      ensures io.used[k].buffer < |io.buffers| && io.buffers[io.used[k].buffer] == io.disk[index]
    {
      hide Coherent, Spare;
      k := 0;
      while k < |io.used|
        invariant 0 <= k <= |io.used| && forall j :: 0 <= j < k ==> io.used[j].index != index
      {
        if io.used[k].index == index {
          Holding(io.disk, io.buffers, io.used, k);
          return;
        }
        k := k + 1;
      }
      if io.free == [] {
        Prepare();
      }
      Filled(io.disk, io.buffers, io.used, io.free, index);
      SpareInRange(io.buffers, io.used, io.free);
      var b := io.free[0];
      io := State(io.disk, io.buffers[b := io.disk[index]], [Cached(index, b)] + io.used, io.free[1..]);
      k := 0;
    }

    /** `block_read`: what the card holds. */
    method Load(index: nat) returns (data: Block)
      requires index < |io.disk|
      modifies this
      ensures io.disk == old(io.disk) && data == io.disk[index]
    {
      var k := GetBlock(index);
      data := io.buffers[io.used[k].buffer];
    }

    /** `block_write`: the card changes in that block alone. */
    method Save(index: nat, data: Block)
      requires index < |io.disk|
      modifies this
      ensures io.disk == old(io.disk)[index := data]
    {
      var k := GetBlock(index);
      Written(io.disk, io.buffers, io.used, k, data);
      var buffers := io.buffers[io.used[k].buffer := data];
      SpareOver(io.buffers, io.used, io.free, io.used[k].buffer, data);
      io := io.(buffers := buffers, disk := io.disk[index := buffers[io.used[k].buffer]]);
    }
  }

  lemma SpareOver(buffers: seq<Block>, used: seq<Cached>, free: seq<nat>, b: nat, data: Block)
    requires Spare(buffers, used, free) && b < |buffers|
    ensures Spare(buffers[b := data], used, free)
  {
  }

  lemma Holding(card: seq<Block>, buffers: seq<Block>, used: seq<Cached>, k: nat)
    requires Coherent(card, buffers, used) && k < |used|
    ensures used[k].buffer < |buffers| && used[k].index < |card| && buffers[used[k].buffer] == card[used[k].index]
  {
  }

  lemma SpareInRange(buffers: seq<Block>, used: seq<Cached>, free: seq<nat>)
    requires Spare(buffers, used, free) && free != []
    ensures free[0] < |buffers|
  {
  }
}
