/**
 The zone tree of a file: seven direct zones, an indirect zone and a double-indirect
 zone. Zones are taken in one fixed order, so a file's zones form a stack: `extend_zone`
 pushes and `shrink_zone` pops.
 */
module ZoneTree {
  import opened Collections
  import opened Blocks

  const DIRECT := 7
  const DOUBLE := DIRECT + WORDS
  const MAX_BLOCKS := DOUBLE + WORDS * WORDS

  /** An on-disk inode as its sixteen words: word 2 is `i_size`, words 6 to 15 are `i_zone`. */
  type Node = n: seq<Word> | |n| == 16 witness seq(16, i => 0)
  const SIZE_WORD := 2
  const ZONE_WORD := 6

  /** A place that can hold a zone number: a data block of the file, the indirect block, the
      double-indirect block, or an index block below the double-indirect one. */
  datatype Slot = Data(b: nat) | Indirect | Double | Sub(k: nat)

  predicate ValidSlot(s: Slot) {
    match s
    case Data(b) => b < MAX_BLOCKS
    case Sub(k) => k < WORDS
    case _ => true
  }

  predicate IsIndex(s: Slot) {
    !s.Data?
  }

  /** The zone number of the slot is kept in the inode itself. */
  predicate InNode(s: Slot) {
    match s
    case Data(b) => b < DIRECT
    case Sub(_) => false
    case _ => true
  }

  function Parent(s: Slot): (p: Slot)
    requires !InNode(s)
    ensures IsIndex(p)
  {
    match s
    case Data(b) => if b < DOUBLE then Indirect else Sub((b - DOUBLE) / WORDS)
    case Sub(_) => Double
  }

  /** Where the slot's zone number is kept: a word of the inode or of the parent's block. */
  function Entry(s: Slot): (e: nat)
    requires ValidSlot(s)
    ensures if InNode(s) then e < 16 else e < WORDS
  {
    match s
    case Data(b) =>
      if b < DIRECT then ZONE_WORD + b else if b < DOUBLE then b - DIRECT else (b - DOUBLE) % WORDS
    case Indirect => ZONE_WORD + 7
    case Double => ZONE_WORD + 8
    case Sub(k) => k
  }

  function Depth(s: Slot): nat {
    match s
    case Data(b) => if b < DIRECT then 0 else if b < DOUBLE then 1 else 2
    case Sub(_) => 1
    case _ => 0
  }

  function At(d: Disk, z: nat, i: nat): Word {
    if z < |d| && i < WORDS then GetWord(d[z], i) else 0
  }

  /** The zone a slot holds, 0 if none: the walk of `get_block`. */
  function ZoneAt(d: Disk, n: Node, s: Slot): Word
    requires ValidSlot(s)
    decreases Depth(s)
  {
    if InNode(s) then n[Entry(s)] else
      var p := ZoneAt(d, n, Parent(s));
      if p == 0 then 0 else At(d, p, Entry(s))
  }

  /** The position of a slot in the order in which zones are taken. */
  function Rank(s: Slot): nat {
    match s
    case Data(b) => if b < DIRECT then b else if b < DOUBLE then b + 1 else b + 3 + (b - DOUBLE) / WORDS
    case Indirect => DIRECT
    case Double => DOUBLE + 1
    case Sub(k) => DOUBLE + 2 + (WORDS + 1) * k
  }

  lemma RankInjective(s: Slot, t: Slot)
    requires ValidSlot(s) && ValidSlot(t) && Rank(s) == Rank(t)
    ensures s == t
  {
  }

  lemma ParentFirst(s: Slot)
    requires ValidSlot(s) && !InNode(s)
    ensures ValidSlot(Parent(s)) && Rank(Parent(s)) < Rank(s)
  {
  }

  lemma PlaceInjective(s: Slot, t: Slot)
    requires ValidSlot(s) && ValidSlot(t) && InNode(s) == InNode(t) && Entry(s) == Entry(t)
    requires !InNode(s) ==> Parent(s) == Parent(t)
    ensures s == t
  {
  }

  /** The zones in use when blocks 0 to `last` are mapped. */
  function ZonesFor(last: nat): nat {
    Rank(Data(last)) + 1
  }

  // ----- a file as a stack of zones

  ghost function StackAt(zs: seq<nat>, r: nat): nat {
    if r < |zs| then zs[r] else 0
  }

  /** Every slot holds the zone the stack has at the slot's rank, and nothing beyond the top. */
  ghost predicate FileOk(d: Disk, n: Node, zs: seq<nat>) {
    && (forall r :: 0 <= r < |zs| ==> 0 < zs[r] < |d|)
    && NoDup(zs)
    && (forall s :: ValidSlot(s) ==> ZoneAt(d, n, s) == StackAt(zs, Rank(s)))
  }

  /** Storing a zone number in a slot whose parent is present. */
  function Store(d: Disk, n: Node, s: Slot, z: Word): (r: (Disk, Node))
    requires ValidSlot(s)
    ensures |r.0| == |d|
  {
    if InNode(s) then (d, n[Entry(s) := z]) else
      var p := ZoneAt(d, n, Parent(s));
      if p < |d| then (d[p := SetWord(d[p], Entry(s), z)], n) else (d, n)
  }

  /** The block that `Store` changes holds the parent's index entries. */
  lemma ParentZone(d: Disk, n: Node, zs: seq<nat>, s: Slot)
    requires FileOk(d, n, zs) && ValidSlot(s) && !InNode(s) && Rank(s) <= |zs|
    ensures Rank(Parent(s)) < |zs| && ValidSlot(Parent(s))
    ensures ZoneAt(d, n, Parent(s)) == zs[Rank(Parent(s))] && 0 < zs[Rank(Parent(s))] < |d|
  {
    ParentFirst(s);
  }

  /** What a word of an index block reads after a store. */
  lemma StoreWord(d: Disk, n: Node, zs: seq<nat>, s: Slot, z: Word, t: Slot)
    requires FileOk(d, n, zs) && ValidSlot(s) && ValidSlot(t) && !InNode(t)
    requires Rank(s) <= |zs| && Rank(Parent(t)) < |zs|
    ensures var p := zs[Rank(Parent(t))];
            At(Store(d, n, s, z).0, p, Entry(t)) == if s == t then z else At(d, p, Entry(t))
  {
    hide Entry, ZoneAt, Rank, IsIndex;
    ParentFirst(t);
    var p := zs[Rank(Parent(t))];
    if !InNode(s) {
      ParentZone(d, n, zs, s);
      var q := zs[Rank(Parent(s))];
      WordRoundTrip(d[q], Entry(s), z, Entry(t));
      if p == q {
        assert Rank(Parent(s)) == Rank(Parent(t));
        RankInjective(Parent(s), Parent(t));
        if Entry(s) == Entry(t) { PlaceInjective(s, t); }
      }
    }
  }

  /** Walking to any slot after a zone was stored on top of the stack. */
  lemma {:induction false} PushWalk(d: Disk, n: Node, zs: seq<nat>, s: Slot, z: Word, t: Slot)
    requires FileOk(d, n, zs) && ValidSlot(s) && ValidSlot(t) && Rank(s) == |zs|
    requires 0 < z < |d| && z !in zs && (IsIndex(s) ==> ZeroBlock(d[z]))
    ensures var (d', n') := Store(d, n, s, z); ZoneAt(d', n', t) == StackAt(zs + [z], Rank(t))
    decreases Depth(t)
  {
    var (d', n') := Store(d, n, s, z);
    if Rank(s) == Rank(t) { RankInjective(s, t); }
    if InNode(t) {
      if InNode(s) && Entry(s) == Entry(t) { PlaceInjective(s, t); }
      assert ZoneAt(d, n, t) == StackAt(zs, Rank(t));
    } else {
      ParentFirst(t);
      PushWalk(d, n, zs, s, z, Parent(t));
      PushStep(d, n, zs, s, z, t);
    }
  }

  lemma PushStep(d: Disk, n: Node, zs: seq<nat>, s: Slot, z: Word, t: Slot)
    requires FileOk(d, n, zs) && ValidSlot(s) && ValidSlot(t) && Rank(s) == |zs| && !InNode(t)
    requires 0 < z < |d| && z !in zs && (IsIndex(s) ==> ZeroBlock(d[z]))
    requires Rank(Parent(t)) < Rank(t) && ValidSlot(Parent(t))
    requires var (d', n') := Store(d, n, s, z);
             ZoneAt(d', n', Parent(t)) == StackAt(zs + [z], Rank(Parent(t)))
    ensures var (d', n') := Store(d, n, s, z); ZoneAt(d', n', t) == StackAt(zs + [z], Rank(t))
  {
    var q := Parent(t);
    if Rank(q) < |zs| {
      StoreWord(d, n, zs, s, z, t);
      assert ZoneAt(d, n, t) == StackAt(zs, Rank(t)) && ZoneAt(d, n, q) == StackAt(zs, Rank(q));
      if Rank(s) == Rank(t) { RankInjective(s, t); }
    } else if Rank(q) == |zs| {
      RankInjective(s, q);
      FreshUnchanged(d, n, zs, s, z);
    }
  }

  lemma FreshUnchanged(d: Disk, n: Node, zs: seq<nat>, s: Slot, z: Word)
    requires FileOk(d, n, zs) && ValidSlot(s) && Rank(s) == |zs| && z < |d| && z !in zs
    ensures Store(d, n, s, z).0[z] == d[z]
  {
    if !InNode(s) { ParentZone(d, n, zs, s); }
  }

  /** `extend_zone` stores the next zone: one more slot is mapped and no other changes. A zone
      that becomes an index block must read as zeros, and that is all the code needs. */
  lemma PushKeepsFile(d: Disk, n: Node, zs: seq<nat>, s: Slot, z: Word)
    requires FileOk(d, n, zs) && ValidSlot(s) && Rank(s) == |zs| && 0 < z < |d| && z !in zs
    ensures var (d', n') := Store(d, n, s, z);
            FileOk(d', n', zs + [z]) <==> (IsIndex(s) ==> ZeroBlock(d[z]))
  {
    hide ZoneAt, Store, IsIndex, ZeroBlock, Rank;
    var (d', n') := Store(d, n, s, z);
    if IsIndex(s) ==> ZeroBlock(d[z]) {
      forall t | ValidSlot(t) ensures ZoneAt(d', n', t) == StackAt(zs + [z], Rank(t)) {
        PushWalk(d, n, zs, s, z, t);
      }
    }
    if IsIndex(s) && FileOk(d', n', zs + [z]) {
      PushNeedsZeros(d, n, zs, s, z);
    }
  }

  /** The slot whose zone number is word `e` of the block an index slot holds. */
  function Child(s: Slot, e: nat): (t: Slot)
    requires IsIndex(s) && ValidSlot(s) && e < WORDS
    ensures ValidSlot(t) && !InNode(t) && Parent(t) == s && Entry(t) == e
  {
    match s
    case Indirect => Data(DIRECT + e)
    case Double => Sub(e)
    case Sub(k) => Data(DOUBLE + k * WORDS + e)
  }

  lemma PushNeedsZeros(d: Disk, n: Node, zs: seq<nat>, s: Slot, z: Word)
    requires FileOk(d, n, zs) && ValidSlot(s) && Rank(s) == |zs| && 0 < z < |d| && z !in zs
    requires IsIndex(s) && FileOk(Store(d, n, s, z).0, Store(d, n, s, z).1, zs + [z])
    ensures ZeroBlock(d[z])
  {
    var (d', n') := Store(d, n, s, z);
    FreshUnchanged(d, n, zs, s, z);
    forall e | 0 <= e < WORDS ensures GetWord(d[z], e) == 0 {
      var t := Child(s, e);
      ParentFirst(t);
      assert ZoneAt(d', n', s) == StackAt(zs + [z], Rank(s)) == z;
      assert ZoneAt(d', n', t) == StackAt(zs + [z], Rank(t)) == 0;
      assert At(d', z, e) == 0;
    }
  }

  // ----- taking the top zone back

  lemma {:induction false} PopWalk(d: Disk, n: Node, zs: seq<nat>, s: Slot, t: Slot)
    requires FileOk(d, n, zs) && ValidSlot(s) && ValidSlot(t) && |zs| > 0 && Rank(s) == |zs| - 1
    ensures var (d', n') := Store(d, n, s, 0); ZoneAt(d', n', t) == StackAt(zs[..|zs| - 1], Rank(t))
    decreases Depth(t)
  {
    if Rank(s) == Rank(t) { RankInjective(s, t); }
    if InNode(t) {
      if InNode(s) && Entry(s) == Entry(t) { PlaceInjective(s, t); }
      assert ZoneAt(d, n, t) == StackAt(zs, Rank(t));
    } else {
      ParentFirst(t);
      PopWalk(d, n, zs, s, Parent(t));
      PopStep(d, n, zs, s, t);
    }
  }

  lemma PopStep(d: Disk, n: Node, zs: seq<nat>, s: Slot, t: Slot)
    requires FileOk(d, n, zs) && ValidSlot(s) && ValidSlot(t) && |zs| > 0 && Rank(s) == |zs| - 1 && !InNode(t)
    requires Rank(Parent(t)) < Rank(t) && ValidSlot(Parent(t))
    requires var (d', n') := Store(d, n, s, 0);
             ZoneAt(d', n', Parent(t)) == StackAt(zs[..|zs| - 1], Rank(Parent(t)))
    ensures var (d', n') := Store(d, n, s, 0); ZoneAt(d', n', t) == StackAt(zs[..|zs| - 1], Rank(t))
  {
    var q := Parent(t);
    if Rank(q) < |zs| - 1 {
      StoreWord(d, n, zs, s, 0, t);
      assert ZoneAt(d, n, t) == StackAt(zs, Rank(t)) && ZoneAt(d, n, q) == StackAt(zs, Rank(q));
      if Rank(s) == Rank(t) { RankInjective(s, t); }
    }
  }

  /** `shrink_zone` clears the last slot: the file keeps all other zones. */
  lemma PopKeepsFile(d: Disk, n: Node, zs: seq<nat>, s: Slot)
    requires FileOk(d, n, zs) && ValidSlot(s) && |zs| > 0 && Rank(s) == |zs| - 1
    ensures var (d', n') := Store(d, n, s, 0); FileOk(d', n', zs[..|zs| - 1])
  {
    hide ZoneAt, Store, Rank;
    var (d', n') := Store(d, n, s, 0);
    forall t | ValidSlot(t) ensures ZoneAt(d', n', t) == StackAt(zs[..|zs| - 1], Rank(t)) {
      PopWalk(d, n, zs, s, t);
    }
  }

  // ----- what a file does not depend on

  lemma {:induction false} FrameWalk(d: Disk, d': Disk, n: Node, zs: seq<nat>, t: Slot)
    requires FileOk(d, n, zs) && ValidSlot(t) && |d'| == |d|
    requires forall q :: ValidSlot(q) && IsIndex(q) && Rank(q) < |zs| ==> d'[zs[Rank(q)]] == d[zs[Rank(q)]]
    ensures ZoneAt(d', n, t) == ZoneAt(d, n, t)
    decreases Depth(t)
  {
    if !InNode(t) {
      ParentFirst(t);
      FrameWalk(d, d', n, zs, Parent(t));
      assert ZoneAt(d, n, Parent(t)) == StackAt(zs, Rank(Parent(t)));
    }
  }

  /** Only the file's own index blocks matter for where its blocks are. */
  lemma FileFrame(d: Disk, d': Disk, n: Node, zs: seq<nat>)
    requires FileOk(d, n, zs) && |d'| == |d|
    requires forall q :: ValidSlot(q) && IsIndex(q) && Rank(q) < |zs| ==> d'[zs[Rank(q)]] == d[zs[Rank(q)]]
    ensures FileOk(d', n, zs)
  {
    forall t | ValidSlot(t) ensures ZoneAt(d', n, t) == StackAt(zs, Rank(t)) {
      FrameWalk(d, d', n, zs, t);
    }
  }

  lemma {:induction false} AttributeWalk(d: Disk, n: Node, n': Node, t: Slot)
    requires ValidSlot(t) && forall i :: ZONE_WORD <= i < 16 ==> n'[i] == n[i]
    ensures ZoneAt(d, n', t) == ZoneAt(d, n, t)
    decreases Depth(t)
  {
    if !InNode(t) {
      ParentFirst(t);
      AttributeWalk(d, n, n', Parent(t));
    }
  }

  /** Where a file's blocks are does not depend on the size or the other attributes. */
  lemma AttributeFrame(d: Disk, n: Node, n': Node, zs: seq<nat>)
    requires FileOk(d, n, zs) && forall i :: ZONE_WORD <= i < 16 ==> n'[i] == n[i]
    ensures FileOk(d, n', zs)
  {
    forall t | ValidSlot(t) ensures ZoneAt(d, n', t) == StackAt(zs, Rank(t)) {
      AttributeWalk(d, n, n', t);
    }
  }

  lemma MoreBlocksMoreZones(a: nat, b: nat)
    requires a < b
    ensures ZonesFor(a) < ZonesFor(b)
  {
  }

  /** `get_block` maps exactly the blocks 0 to `last` of a file one block ahead of its size. */
  lemma MappedExactly(d: Disk, n: Node, zs: seq<nat>, last: nat, b: nat)
    requires FileOk(d, n, zs) && |zs| == ZonesFor(last) && b < MAX_BLOCKS
    ensures ZoneAt(d, n, Data(b)) != 0 <==> b <= last
    ensures b <= last ==> Rank(Data(b)) < |zs| && ZoneAt(d, n, Data(b)) == zs[Rank(Data(b))]
  {
    if b < last { MoreBlocksMoreZones(b, last); }
    if last < b { MoreBlocksMoreZones(last, b); }
    assert ZoneAt(d, n, Data(b)) == StackAt(zs, Rank(Data(b)));
  }
}
