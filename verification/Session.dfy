/**
 Runs of file operations from a volume whose free zones read as zeros: every
 operation finds the zeroed index blocks it relies on and leaves them for the next.
 */
module Session {
  import opened Blocks
  import opened ZoneTree
  import opened Bitmap
  import opened Layout
  import opened Volume
  import opened Growth
  import opened Content
  import opened Inode
  import Image

  /** An operation that does not give zones back. */
  datatype Op = Make(mode: Word) | Store(ix: nat, data: seq<Byte>, start: nat) | Stretch(ix: nat, size: Word)

  lemma ZeroedGrowth(d: Disk, sb: Super, c: nat, m: nat)
    requires Zeroed(d, sb)
    ensures Clean(d, FreeZones(d, sb), c, m)
  {
    hide FreeZones, Clean, ZeroBlock;
    ZeroedIsClean(d, FreeZones(d, sb), c, m);
  }

  lemma VolumeKeptTwice(d0: Disk, d1: Disk, d2: Disk, sb: Super, files0: map<nat, seq<nat>>, files1: map<nat, seq<nat>>,
                        files2: map<nat, seq<nat>>)
    requires VolumeKept(d0, d1, sb, files0, files1) && VolumeKept(d1, d2, sb, files1, files2)
    ensures VolumeKept(d0, d2, sb, files0, files2)
  {
    hide FreeZones, UsedZones, FreeInodes;
  }

  lemma VolumeKeptSame(d: Disk, sb: Super, files: map<nat, seq<nat>>)
    ensures VolumeKept(d, d, sb, files, files)
  {
  }

  // ----- a file store without disk

  /** What a caller sees: the bytes of every file, which files are open, how many zones and which
      inodes are free. */
  datatype Shelf = Shelf(bytes: map<nat, seq<Byte>>, open: set<nat>, zones: nat, inodes: set<nat>)

  /** The zones a file takes when it goes from one size to a larger one. */
  function Cost(from: nat, to: nat): int {
    ZonesFor(to / BLOCK_SIZE) - ZonesFor(from / BLOCK_SIZE)
  }

  /** The operation applies and the free zones and inodes suffice for it. */
  predicate Applies(f: Shelf, op: Op) {
    match op
    case Make(mode) => f.inodes != {} && f.zones > 0
    case Store(ix, data, start) =>
      && ix in f.open && ix in f.bytes && start <= |f.bytes[ix]| && (start + |data|) / BLOCK_SIZE + 1 < 0x1_0000
      && Cost(|f.bytes[ix]|, Max(|f.bytes[ix]|, start + |data|)) <= f.zones
    case Stretch(ix, size) =>
      && ix in f.open && ix in f.bytes && |f.bytes[ix]| <= size && size / BLOCK_SIZE + 1 < 0x1_0000
      && (size == |f.bytes[ix]|
          || (Cost(|f.bytes[ix]|, size) <= f.zones
              && Extendable(|f.bytes[ix]| / BLOCK_SIZE, (size - 1) / BLOCK_SIZE)))
  }

  /** What the operation makes of the shelf; a new file gets one of the free inodes. */
  ghost predicate Applied(f: Shelf, op: Op, f': Shelf) {
    && Applies(f, op)
    && match op
       case Make(mode) =>
         exists ix :: ix in f.inodes && ix !in f.bytes
                      && f' == Shelf(f.bytes[ix := []], f.open + {ix}, f.zones - 1, f.inodes - {ix})
       case Store(ix, data, start) =>
         f' == f.(bytes := f.bytes[ix := Spliced(f.bytes[ix], start, data)],
                  zones := f.zones - Cost(|f.bytes[ix]|, Max(|f.bytes[ix]|, start + |data|)))
       case Stretch(ix, size) =>
         f' == f.(bytes := f.bytes[ix := Resized(f.bytes[ix], size)],
                  zones := f.zones - Cost(|f.bytes[ix]|, size))
  }

  ghost function AllBytes(d: Disk, sb: Super, files: map<nat, seq<nat>>): map<nat, seq<Byte>> {
    map ix <- files :: FileBytes(d, sb, files, ix)
  }

  /** What the volume shows. */
  ghost function Shown(d: Disk, sb: Super, files: map<nat, seq<nat>>, sizes: map<nat, nat>): Shelf {
    Shelf(AllBytes(d, sb, files), sizes.Keys, |FreeZones(d, sb)|, FreeInodes(d, sb))
  }

  lemma BytesOfSame(d: Disk, sb: Super, files: map<nat, seq<nat>>, files': map<nat, seq<nat>>, ix: nat)
    requires ix in files && ix in files' && files'[ix] == files[ix]
    ensures FileBytes(d, sb, files', ix) == FileBytes(d, sb, files, ix)
  {
  }

  /** Only file `ix` has other bytes. */
  lemma BytesElsewhere(d: Disk, d': Disk, sb: Super, files: map<nat, seq<nat>>, files': map<nat, seq<nat>>, ix: nat)
    requires VolOk(d, sb, files) && OthersSame(d, d', sb, files, ix)
    requires ix in files' && files' == files[ix := files'[ix]]
    ensures AllBytes(d', sb, files') == AllBytes(d, sb, files)[ix := FileBytes(d', sb, files', ix)]
  {
    hide FileBytes, VolOk, OthersSame;
    forall jx | jx in files && jx != ix ensures FileBytes(d', sb, files', jx) == FileBytes(d, sb, files, jx) {
      ElsewhereSame(d, d', sb, files, ix, jx);
      BytesOfSame(d', sb, files, files', jx);
    }
  }

  lemma ElsewhereSame(d: Disk, d': Disk, sb: Super, files: map<nat, seq<nat>>, ix: nat, jx: nat)
    requires VolOk(d, sb, files) && OthersSame(d, d', sb, files, ix) && jx in files && jx != ix
    ensures FileBytes(d', sb, files, jx) == FileBytes(d, sb, files, jx)
  {
    hide FileBytes, NodeAt, FileOk;
    assert FileIn(d, sb, jx, files[jx]);
  }

  /** With the same files the same inodes are free. */
  lemma InodesSame(d: Disk, d': Disk, sb: Super, files: map<nat, seq<nat>>, files': map<nat, seq<nat>>)
    requires VolumeKept(d, d', sb, files, files') && files'.Keys == files.Keys
    requires VolOk(d, sb, files) && VolOk(d', sb, files')
    ensures FreeInodes(d', sb) == FreeInodes(d, sb)
  {
    hide VolOk, FreeZones, UsedZones, FreeInodes;
    FreeOrUsed(d, sb, files);
    FreeOrUsed(d', sb, files');
    Remaining(FreeInodes(d, sb), FreeInodes(d', sb), files.Keys);
  }

  lemma ShownSize(d: Disk, sb: Super, files: map<nat, seq<nat>>, sizes: map<nat, nat>, ix: nat)
    requires VolOk(d, sb, files) && Cached(d, sb, files, sizes) && ix in sizes
    ensures ix in files && |files[ix]| == ZonesFor(sizes[ix] / BLOCK_SIZE)
    ensures ix in AllBytes(d, sb, files) && |AllBytes(d, sb, files)[ix]| == sizes[ix]
    ensures AllBytes(d, sb, files)[ix] == FileBytes(d, sb, files, ix)
  {
    hide VolOk, Cached, FileBytes;
    OpenCached(d, sb, files, sizes, ix);
  }

  lemma NoneLeft(d: Disk, sb: Super)
    ensures AllSet(d, IMAP_START, sb.InodeBits()) <==> FreeInodes(d, sb) == {}
  {
    hide GetBit;
    if FreeInodes(d, sb) == {} {
      forall j | 0 <= j < sb.InodeBits() ensures GetBit(d, IMAP_START, j) { assert j !in FreeInodes(d, sb); }
    }
  }

  /** A write on the disk is the write on the shelf. */
  lemma StoreShown(d: Disk, d': Disk, sb: Super, files: map<nat, seq<nat>>, files': map<nat, seq<nat>>,
                   sizes: map<nat, nat>, sizes': map<nat, nat>, ix: nat, data: seq<Byte>, start: nat)
    requires VolOk(d, sb, files) && Cached(d, sb, files, sizes) && VolOk(d', sb, files') && ix in sizes
    requires Wrote(d, d', sb, files, files', sizes, sizes', ix, start, data)
    requires VolumeKept(d, d', sb, files, files')
    requires Applies(Shown(d, sb, files, sizes), Store(ix, data, start))
    ensures Applied(Shown(d, sb, files, sizes), Store(ix, data, start), Shown(d', sb, files', sizes'))
  {
    hide VolOk, Cached, FileBytes, FreeZones, FreeInodes, UsedZones, ZonesFor, Spliced, OthersSame, AllBytes, Applies;
    ShownSize(d, sb, files, sizes, ix);
    BytesElsewhere(d, d', sb, files, files', ix);
    InodesSame(d, d', sb, files, files');
  }

  /** So is a growth. */
  lemma StretchShown(d: Disk, d': Disk, sb: Super, files: map<nat, seq<nat>>, files': map<nat, seq<nat>>,
                     sizes: map<nat, nat>, sizes': map<nat, nat>, ix: nat, size: Word)
    requires VolOk(d, sb, files) && Cached(d, sb, files, sizes) && VolOk(d', sb, files') && ix in sizes && ix in files
    requires ix in files' && files' == files[ix := files'[ix]] && sizes' == sizes[ix := size] && sizes[ix] <= size
    requires |files'[ix]| == ZonesFor(size / BLOCK_SIZE) && OthersSame(d, d', sb, files, ix)
    requires FileBytes(d', sb, files', ix) == Resized(FileBytes(d, sb, files, ix), size)
    requires if size > sizes[ix] then GrewZones(d, d', sb, files[ix], files'[ix])
             else ShrankZones(d, d', sb, files[ix], files'[ix])
    requires VolumeKept(d, d', sb, files, files')
    requires Applies(Shown(d, sb, files, sizes), Stretch(ix, size))
    ensures Applied(Shown(d, sb, files, sizes), Stretch(ix, size), Shown(d', sb, files', sizes'))
  {
    hide VolOk, Cached, FileBytes, FreeZones, FreeInodes, UsedZones, ZonesFor, Resized, OthersSame, AllBytes, Applies;
    ShownSize(d, sb, files, sizes, ix);
    BytesElsewhere(d, d', sb, files, files', ix);
    InodesSame(d, d', sb, files, files');
    if size == sizes[ix] {
      assert files[ix][|files'[ix]|..] == [];
    }
  }

  /** So is a creation. */
  lemma MakeShown(d: Disk, d': Disk, sb: Super, files: map<nat, seq<nat>>, files': map<nat, seq<nat>>,
                  sizes: map<nat, nat>, sizes': map<nat, nat>, ix: nat, z: nat, mode: Word)
    requires VolOk(d, sb, files) && ix !in files && files' == files[ix := [z]] && sizes' == sizes[ix := 0]
    requires FileBytes(d', sb, files', ix) == [] && OthersSame(d, d', sb, files, ix)
    requires z in FreeZones(d, sb) && FreeZones(d', sb) == FreeZones(d, sb) - {z}
    requires ix < sb.InodeBits() && !GetBit(d, IMAP_START, ix) && InodeTaken(d, d', sb, ix)
    requires Applies(Shown(d, sb, files, sizes), Make(mode))
    ensures Applied(Shown(d, sb, files, sizes), Make(mode), Shown(d', sb, files', sizes'))
  {
    hide VolOk, FileBytes, FreeZones, OthersSame, AllBytes, Applies, GetBit;
    BytesElsewhere(d, d', sb, files, files', ix);
    assert ix in FreeInodes(d, sb) && FreeInodes(d', sb) == FreeInodes(d, sb) - {ix};
    hide FreeInodes, InodeTaken;
    var f, f' := Shown(d, sb, files, sizes), Shown(d', sb, files', sizes');
    Named(d, sb, files);
    assert f' == Shelf(f.bytes[ix := []], f.open + {ix}, f.zones - 1, f.inodes - {ix});
  }

  lemma FileNumber(d: Disk, sb: Super, files: map<nat, seq<nat>>, ix: nat)
    requires VolOk(d, sb, files) && ix in files
    ensures ix < sb.InodeBits()
  {
    assert FileIn(d, sb, ix, files[ix]);
  }

  lemma Named(d: Disk, sb: Super, files: map<nat, seq<nat>>)
    ensures AllBytes(d, sb, files).Keys == files.Keys
  {
  }

  // ----- the disk does what the shelf does

  /** One operation; it may fail, or not apply to the volume as it is. */
  method Step(fs: FileSystem, op: Op) returns (ok: bool)
    requires fs.Valid() && Zeroed(fs.dev.io.disk, fs.sb)
    modifies fs, fs.dev
    ensures Zeroed(fs.dev.io.disk, fs.sb)
    ensures ok <==> Applies(Shown(old(fs.dev.io.disk), fs.sb, old(fs.files), old(fs.sizes)), op)
    ensures ok ==>
              && fs.Valid() && VolumeKept(old(fs.dev.io.disk), fs.dev.io.disk, fs.sb, old(fs.files), fs.files)
              && Applied(Shown(old(fs.dev.io.disk), fs.sb, old(fs.files), old(fs.sizes)), op,
                         Shown(fs.dev.io.disk, fs.sb, fs.files, fs.sizes))
  {
    match op {
      case Make(mode) => ok := StepMake(fs, mode);
      case Store(ix, data, start) => ok := StepStore(fs, ix, data, start);
      case Stretch(ix, size) => ok := StepStretch(fs, ix, size);
    }
  }

  method StepMake(fs: FileSystem, mode: Word) returns (ok: bool)
    requires fs.Valid() && Zeroed(fs.dev.io.disk, fs.sb)
    modifies fs, fs.dev
    ensures Zeroed(fs.dev.io.disk, fs.sb)
    ensures ok <==> Applies(Shown(old(fs.dev.io.disk), fs.sb, old(fs.files), old(fs.sizes)), Make(mode))
    ensures ok ==>
              && fs.Valid() && VolumeKept(old(fs.dev.io.disk), fs.dev.io.disk, fs.sb, old(fs.files), fs.files)
              && Applied(Shown(old(fs.dev.io.disk), fs.sb, old(fs.files), old(fs.sizes)), Make(mode),
                         Shown(fs.dev.io.disk, fs.sb, fs.files, fs.sizes))
  {
    hide VolOk, Cached, Zeroed, VolumeKept, FreeZones, OthersSame, FileBytes, FreeSame, InodeTaken, AllSet, GetBit,
         NodeAt, Applied, AllBytes, FreeInodes, Image.NewNode;
    ghost var d, sb, files, sizes := fs.dev.io.disk, fs.sb, fs.files, fs.sizes;
    NoneLeft(d, sb);
    var ix := fs.Create(mode);
    ok := ix != 0;
    if ok {
      FileNumber(fs.dev.io.disk, sb, fs.files, ix);
      MakeShown(d, fs.dev.io.disk, sb, files, fs.files, sizes, fs.sizes, ix, MinOf(FreeZones(d, sb)), mode);
    }
  }

  method StepStore(fs: FileSystem, ix: nat, data: seq<Byte>, start: nat) returns (ok: bool)
    requires fs.Valid() && Zeroed(fs.dev.io.disk, fs.sb)
    modifies fs, fs.dev
    ensures Zeroed(fs.dev.io.disk, fs.sb)
    ensures ok <==> Applies(Shown(old(fs.dev.io.disk), fs.sb, old(fs.files), old(fs.sizes)), Store(ix, data, start))
    ensures ok ==>
              && fs.Valid() && VolumeKept(old(fs.dev.io.disk), fs.dev.io.disk, fs.sb, old(fs.files), fs.files)
              && Applied(Shown(old(fs.dev.io.disk), fs.sb, old(fs.files), old(fs.sizes)), Store(ix, data, start),
                         Shown(fs.dev.io.disk, fs.sb, fs.files, fs.sizes))
  {
    hide VolOk, Cached, Zeroed, VolumeKept, FreeZones, Clean, OthersSame, Aside, Wrote, Put, GrewZones, FileBytes,
         Found, AttributesKept, NodeAt, Applied, AllBytes, FreeInodes;
    ok := false;
    ghost var d, sb, files, sizes := fs.dev.io.disk, fs.sb, fs.files, fs.sizes;
    if ix in fs.sizes {
      ShownSize(d, sb, files, sizes, ix);
      if start <= fs.sizes[ix] && (start + |data|) / BLOCK_SIZE + 1 < 0x1_0000 {
        ZeroedGrowth(d, sb, |files[ix]|, ZonesFor((start + |data|) / BLOCK_SIZE));
        var r := fs.Write(ix, data, start);
        ok := r == |data|;
        if ok {
          StoreShown(d, fs.dev.io.disk, sb, files, fs.files, sizes, fs.sizes, ix, data, start);
        }
      }
    }
  }

  method StepStretch(fs: FileSystem, ix: nat, size: Word) returns (ok: bool)
    requires fs.Valid() && Zeroed(fs.dev.io.disk, fs.sb)
    modifies fs, fs.dev
    ensures Zeroed(fs.dev.io.disk, fs.sb)
    ensures ok <==> Applies(Shown(old(fs.dev.io.disk), fs.sb, old(fs.files), old(fs.sizes)), Stretch(ix, size))
    ensures ok ==>
              && fs.Valid() && VolumeKept(old(fs.dev.io.disk), fs.dev.io.disk, fs.sb, old(fs.files), fs.files)
              && Applied(Shown(old(fs.dev.io.disk), fs.sb, old(fs.files), old(fs.sizes)), Stretch(ix, size),
                         Shown(fs.dev.io.disk, fs.sb, fs.files, fs.sizes))
  {
    hide VolOk, Cached, Zeroed, VolumeKept, FreeZones, Clean, OthersSame, Aside, GrewZones, ShrankZones, FileBytes,
         Intact, AttributesKept, NodeAt, Applied, AllBytes, FreeInodes;
    ok := false;
    ghost var d, sb, files, sizes := fs.dev.io.disk, fs.sb, fs.files, fs.sizes;
    if ix in fs.sizes {
      ShownSize(d, sb, files, sizes, ix);
      if fs.sizes[ix] <= size && size / BLOCK_SIZE + 1 < 0x1_0000 {
        ZeroedGrowth(d, sb, |files[ix]|, ZonesFor(size / BLOCK_SIZE));
        ok := fs.Truncate(ix, size, ZonesFor(size / BLOCK_SIZE));
        if ok {
          StretchShown(d, fs.dev.io.disk, sb, files, fs.files, sizes, fs.sizes, ix, size);
        }
      }
    }
  }

  /** Any run of such operations on any files: it goes on as long as they apply to the shelf, and what
      the volume shows in the end is what they make of the shelf. */
  method Run(fs: FileSystem, ops: seq<Op>) returns (done: nat, ghost shelves: seq<Shelf>)
    requires fs.Valid() && Zeroed(fs.dev.io.disk, fs.sb)
    modifies fs, fs.dev
    ensures done <= |ops| && Zeroed(fs.dev.io.disk, fs.sb)
    ensures |shelves| == done + 1 && shelves[0] == Shown(old(fs.dev.io.disk), fs.sb, old(fs.files), old(fs.sizes))
    ensures forall i :: 0 <= i < done ==> Applied(shelves[i], ops[i], shelves[i + 1])
    ensures done < |ops| ==> !Applies(shelves[done], ops[done])
    ensures done == |ops| ==>
              && fs.Valid() && VolumeKept(old(fs.dev.io.disk), fs.dev.io.disk, fs.sb, old(fs.files), fs.files)
              && shelves[done] == Shown(fs.dev.io.disk, fs.sb, fs.files, fs.sizes)
  {
    hide VolOk, Cached, Zeroed, VolumeKept, Applied, Applies, Shown;
    done := 0;
    shelves := [Shown(fs.dev.io.disk, fs.sb, fs.files, fs.sizes)];
    VolumeKeptSame(fs.dev.io.disk, fs.sb, fs.files);
    while done < |ops|
      invariant done <= |ops| && fs.Valid() && Zeroed(fs.dev.io.disk, fs.sb)
      invariant VolumeKept(old(fs.dev.io.disk), fs.dev.io.disk, fs.sb, old(fs.files), fs.files)
      invariant |shelves| == done + 1 && shelves[0] == Shown(old(fs.dev.io.disk), fs.sb, old(fs.files), old(fs.sizes))
      invariant shelves[done] == Shown(fs.dev.io.disk, fs.sb, fs.files, fs.sizes)
      invariant forall i :: 0 <= i < done ==> Applied(shelves[i], ops[i], shelves[i + 1])
    {
      ghost var d, files := fs.dev.io.disk, fs.files;
      var ok := Step(fs, ops[done]);
      if !ok {
        return;
      }
      VolumeKeptTwice(old(fs.dev.io.disk), d, fs.dev.io.disk, fs.sb, old(fs.files), files, fs.files);
      shelves := shelves + [Shown(fs.dev.io.disk, fs.sb, fs.files, fs.sizes)];
      done := done + 1;
    }
  }

  lemma SameFilesSameFree(d: Disk, d': Disk, sb: Super, files: map<nat, seq<nat>>)
    requires VolumeKept(d, d', sb, files, files) && VolOk(d, sb, files) && VolOk(d', sb, files)
    ensures FreeZones(d', sb) == FreeZones(d, sb) && FreeInodes(d', sb) == FreeInodes(d, sb)
  {
    hide VolumeKept, VolOk, FreeZones, FreeInodes;
    NothingLost([Moment(d, files), Moment(d', files)], sb);
  }

  lemma LifeOthers(d: Disk, d1: Disk, d2: Disk, d3: Disk, sb: Super, files: map<nat, seq<nat>>,
                   files1: map<nat, seq<nat>>, files2: map<nat, seq<nat>>, ix: nat)
    requires ix !in files
    requires forall jx <- files :: jx in files1 && jx in files2 && files1[jx] == files2[jx] == files[jx]
    requires OthersSame(d, d1, sb, files, ix) && OthersSame(d1, d2, sb, files1, ix)
             && OthersSame(d2, d3, sb, files2, ix)
    ensures OthersSame(d, d3, sb, files, 0)
  {
    hide NodeAt, Bytes;
  }

  /**
   * A whole life on a volume with zeroed free zones: a file made, written, read
   * and destroyed. What is read is what was written, and afterwards the volume has
   * the same files, the same free zones and the same free inodes as before.
   */
  method Lifetime(fs: FileSystem, mode: Word, data: seq<Byte>) returns (ok: bool, back: seq<Byte>)
    requires fs.Valid() && Zeroed(fs.dev.io.disk, fs.sb)
    requires |data| / BLOCK_SIZE + 1 < 0x1_0000
    modifies fs, fs.dev
    ensures ok <==> && !AllSet(old(fs.dev.io.disk), IMAP_START, fs.sb.InodeBits())
                    && ZonesFor(|data| / BLOCK_SIZE) <= |FreeZones(old(fs.dev.io.disk), fs.sb)|
    ensures ok ==>
              && back == data && fs.Valid() && fs.files == old(fs.files)
              && FreeZones(fs.dev.io.disk, fs.sb) == FreeZones(old(fs.dev.io.disk), fs.sb)
              && FreeInodes(fs.dev.io.disk, fs.sb) == FreeInodes(old(fs.dev.io.disk), fs.sb)
              && OthersSame(old(fs.dev.io.disk), fs.dev.io.disk, fs.sb, old(fs.files), 0)
  {
    hide VolOk, Cached, Zeroed, VolumeKept, FreeZones, Clean, OthersSame, Aside, GrewZones, FreeInodes, FileBytes, Rank;
    hide ShrankZones, Found, Intact, AttributesKept, FreeSame, InodeTaken, InodeGiven, AllSet, GetBit, NodeAt, Slice,
         Spliced, Image.NewNode;
    ok, back := false, [];
    ghost var d, files, sb := fs.dev.io.disk, fs.files, fs.sb;
    var ix := fs.Create(mode);
    if ix == 0 {
      return;
    }
    ghost var d1, files1 := fs.dev.io.disk, fs.files;
    ZeroedGrowth(d1, sb, 1, ZonesFor(|data| / BLOCK_SIZE));
    var r := fs.Write(ix, data, 0);
    if r != |data| {
      return;
    }
    ghost var d2, files2 := fs.dev.io.disk, fs.files;
    back := fs.Read(ix, |data|, 0);
    ReadBack([], 0, data, 0);
    fs.Destroy(ix);
    assert fs.files == files;
    VolumeKeptTwice(d, d1, d2, sb, files, files1, files2);
    VolumeKeptTwice(d, d2, fs.dev.io.disk, sb, files, files2, files);
    SameFilesSameFree(d, fs.dev.io.disk, sb, files);
    LifeOthers(d, d1, d2, fs.dev.io.disk, sb, files, files1, files2, ix);
    ok := true;
  }
}
