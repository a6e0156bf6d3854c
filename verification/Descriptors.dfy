/** Descriptor tables of all processes, open files and pipes, and their reference counts. */
module Descriptors {
  import opened Collections

  const MAX_FD := 32
  const EMFILE := 24
  const EBADF := 9
  const EINVAL := 22

  datatype Kind = Unused | Tty | Regular | PipeEnd(pipe: nat, writing: bool)

  datatype File = File(kind: Kind, count: nat)

  datatype Ends = Ends(readers: nat, writers: nat)

  /** A descriptor: a process and a slot of its table. */
  type Key = (nat, nat)

  /** A descriptor and the end of a pipe it refers to. */
  datatype Spot = Spot(key: Key, pipe: nat, writing: bool)

  datatype Tables = Tables(slots: map<Key, nat>, files: map<nat, File>, pipes: map<nat, Ends>)

  ghost function Holders(t: Tables, f: nat): set<Key> {
    set k | k in t.slots && t.slots[k] == f
  }

  ghost predicate IsEnd(t: Tables, f: nat, q: nat, writing: bool) {
    f in t.files && t.files[f].kind == PipeEnd(q, writing)
  }

  ghost function EndHolders(t: Tables, q: nat, writing: bool): set<Key> {
    set k | k in t.slots && IsEnd(t, t.slots[k], q, writing)
  }

  ghost predicate FilesCounted(t: Tables) {
    && (forall k <- t.slots :: t.slots[k] in t.files)
    && (forall f <- t.files :: 0 < t.files[f].count == |Holders(t, f)|)
  }

  ghost predicate PipesCounted(t: Tables) {
    && (forall f <- t.files :: t.files[f].kind.PipeEnd? ==> t.files[f].kind.pipe in t.pipes)
    && (forall q <- t.pipes :: t.pipes[q] == Ends(|EndHolders(t, q, false)|, |EndHolders(t, q, true)|))
    && (forall q <- t.pipes :: t.pipes[q].readers + t.pipes[q].writers > 0)
  }

  /** Every count is the number of descriptors that refer to the object, and no object is kept
      without one. */
  ghost predicate Counted(t: Tables) {
    FilesCounted(t) && PipesCounted(t)
  }

  // ----- one more and one fewer descriptor

  /** `pipe_countup` and `pipe_release`, on the counts */
  function EndsUp(e: Ends, writing: bool): Ends {
    if writing then e.(writers := e.writers + 1) else e.(readers := e.readers + 1)
  }

  function EndsDown(e: Ends, writing: bool): Ends
    requires if writing then e.writers > 0 else e.readers > 0
  {
    if writing then e.(writers := e.writers - 1) else e.(readers := e.readers - 1)
  }

  /** A free slot `k` comes to refer to file `f`: `countup_file` and the store. */
  function Add(t: Tables, k: Key, f: nat): Tables
    requires f in t.files && (t.files[f].kind.PipeEnd? ==> t.files[f].kind.pipe in t.pipes)
  {
    var file := t.files[f];
    Tables(t.slots[k := f], t.files[f := file.(count := file.count + 1)],
           if file.kind.PipeEnd? then t.pipes[file.kind.pipe := EndsUp(t.pipes[file.kind.pipe], file.kind.writing)]
           else t.pipes)
  }

  /** The end the kind names, if any, has somebody on it. */
  predicate EndHeld(pipes: map<nat, Ends>, kind: Kind) {
    if !kind.PipeEnd? then true
    else kind.pipe in pipes && if kind.writing then pipes[kind.pipe].writers > 0 else pipes[kind.pipe].readers > 0
  }

  predicate CanDrop(t: Tables, k: Key) {
    && k in t.slots && t.slots[k] in t.files && t.files[t.slots[k]].count > 0
    && EndHeld(t.pipes, t.files[t.slots[k]].kind)
  }

  function DropPipe(pipes: map<nat, Ends>, kind: Kind): map<nat, Ends>
    requires EndHeld(pipes, kind)
  {
    if !kind.PipeEnd? then pipes
    else
      var e := EndsDown(pipes[kind.pipe], kind.writing);
      if e.readers == 0 && e.writers == 0 then pipes - {kind.pipe} else pipes[kind.pipe := e]
  }

  /** Slot `k` is cleared: `release_file` and the store of NULL. */
  function Drop(t: Tables, k: Key): Tables
    requires CanDrop(t, k)
  {
    var f := t.slots[k];
    var file := t.files[f];
    Tables(t.slots - {k},
           if file.count == 1 then t.files - {f} else t.files[f := file.(count := file.count - 1)],
           DropPipe(t.pipes, file.kind))
  }

  lemma AddHolders(t: Tables, k: Key, f: nat, g: nat)
    requires k !in t.slots && f in t.files && (t.files[f].kind.PipeEnd? ==> t.files[f].kind.pipe in t.pipes)
    ensures Holders(Add(t, k, f), g) == if g == f then Holders(t, g) + {k} else Holders(t, g)
    ensures k !in Holders(t, g)
  {
  }

  lemma AddEnds(t: Tables, k: Key, f: nat, q: nat, w: bool)
    requires k !in t.slots && f in t.files && (t.files[f].kind.PipeEnd? ==> t.files[f].kind.pipe in t.pipes)
    ensures EndHolders(Add(t, k, f), q, w) ==
            if t.files[f].kind == PipeEnd(q, w) then EndHolders(t, q, w) + {k} else EndHolders(t, q, w)
    ensures k !in EndHolders(t, q, w)
  {
  }

  lemma AddPipe(t: Tables, k: Key, f: nat, q: nat)
    requires Counted(t) && k !in t.slots && f in t.files && q in t.pipes
    ensures Add(t, k, f).pipes[q] == Ends(|EndHolders(Add(t, k, f), q, false)|, |EndHolders(Add(t, k, f), q, true)|)
  {
    hide FilesCounted, EndHolders;
    AddEnds(t, k, f, q, false);
    AddEnds(t, k, f, q, true);
  }

  lemma AddKeeps(t: Tables, k: Key, f: nat)
    requires Counted(t) && k !in t.slots && f in t.files
    ensures Counted(Add(t, k, f))
  {
    hide Holders, EndHolders;
    var u := Add(t, k, f);
    forall g | g in u.files ensures 0 < u.files[g].count == |Holders(u, g)| { AddHolders(t, k, f, g); }
    forall q | q in u.pipes
      ensures u.pipes[q] == Ends(|EndHolders(u, q, false)|, |EndHolders(u, q, true)|)
    {
      AddPipe(t, k, f, q);
    }
  }

  lemma DropReady(t: Tables, k: Key)
    requires Counted(t) && k in t.slots
    ensures CanDrop(t, k)
  {
    var kind := t.files[t.slots[k]].kind;
    if kind.PipeEnd? {
      assert k in EndHolders(t, kind.pipe, kind.writing);
    }
  }

  lemma DropHolders(t: Tables, k: Key, g: nat)
    requires CanDrop(t, k)
    ensures Holders(Drop(t, k), g) == Holders(t, g) - {k}
    ensures k in Holders(t, g) <==> g == t.slots[k]
  {
  }

  lemma DropEnds(t: Tables, k: Key, q: nat, w: bool)
    requires CanDrop(t, k) && FilesCounted(t)
    ensures EndHolders(Drop(t, k), q, w) == EndHolders(t, q, w) - {k}
    ensures k in EndHolders(t, q, w) <==> t.files[t.slots[k]].kind == PipeEnd(q, w)
  {
    var u, f := Drop(t, k), t.slots[k];
    if t.files[f].count == 1 {
      forall x | x in t.slots && x != k ensures t.slots[x] != f { OnlyHolder(t, k, x); }
    }
  }

  lemma OnlyHolder(t: Tables, k: Key, x: Key)
    requires FilesCounted(t) && k in t.slots && x in t.slots && x != k && t.files[t.slots[k]].count == 1
    ensures t.slots[x] != t.slots[k]
  {
    if t.slots[x] == t.slots[k] {
      var h := Holders(t, t.slots[k]);
      assert {k, x} <= h;
      SubsetCard({k, x}, h);
    }
  }

  lemma DropKeeps(t: Tables, k: Key)
    requires Counted(t) && k in t.slots
    ensures CanDrop(t, k) && Counted(Drop(t, k))
  {
    DropReady(t, k);
    DropKeepsFiles(t, k);
    DropKeepsPipes(t, k);
  }

  lemma DropKeepsFiles(t: Tables, k: Key)
    requires Counted(t) && CanDrop(t, k)
    ensures FilesCounted(Drop(t, k))
  {
    var u, f := Drop(t, k), t.slots[k];
    forall x | x in u.slots ensures u.slots[x] in u.files {
      if t.files[f].count == 1 { OnlyHolder(t, k, x); }
    }
    forall g | g in u.files ensures 0 < u.files[g].count == |Holders(u, g)| { DropHolders(t, k, g); }
  }

  lemma DropPipeCount(t: Tables, k: Key, q: nat)
    requires Counted(t) && CanDrop(t, k) && q in Drop(t, k).pipes
    ensures var u := Drop(t, k); u.pipes[q] == Ends(|EndHolders(u, q, false)|, |EndHolders(u, q, true)|)
  {
    hide EndHolders, Holders, FilesCounted;
    assert t.pipes[q] == Ends(|EndHolders(t, q, false)|, |EndHolders(t, q, true)|);
    hide PipesCounted;
    DropEnds(t, k, q, false);
    DropEnds(t, k, q, true);
  }

  lemma DropKeepsPipes(t: Tables, k: Key)
    requires Counted(t) && CanDrop(t, k)
    ensures PipesCounted(Drop(t, k))
  {
    hide EndHolders, Holders;
    var u := Drop(t, k);
    forall q | q in u.pipes ensures u.pipes[q] == Ends(|EndHolders(u, q, false)|, |EndHolders(u, q, true)|) {
      DropPipeCount(t, k, q);
    }
    forall g | g in u.files && u.files[g].kind.PipeEnd? ensures u.files[g].kind.pipe in u.pipes {
      PipeStays(t, k, g);
    }
  }

  /** A pipe that an open file still refers to is not freed. */
  lemma PipeStays(t: Tables, k: Key, g: nat)
    requires Counted(t) && CanDrop(t, k) && g in Drop(t, k).files && Drop(t, k).files[g].kind.PipeEnd?
    ensures Drop(t, k).files[g].kind.pipe in Drop(t, k).pipes
  {
    hide FilesCounted;
    var kind := t.files[g].kind;
    var x := AnotherHolder(t, k, g);
    EndsHeld(t, k, x);
  }

  /** The ends two slots share are counted twice. */
  lemma EndsHeld(t: Tables, k: Key, x: Key)
    requires PipesCounted(t) && k in t.slots && x in t.slots && k != x
    requires t.slots[k] in t.files && t.slots[x] in t.files && t.files[t.slots[x]].kind.PipeEnd?
    ensures var kind := t.files[t.slots[x]].kind;
            && kind.pipe in t.pipes
            && (if kind.writing then t.pipes[kind.pipe].writers else t.pipes[kind.pipe].readers)
               >= if t.files[t.slots[k]].kind == kind then 2 else 1
  {
    var kind := t.files[t.slots[x]].kind;
    var ends := EndHolders(t, kind.pipe, kind.writing);
    var some := if t.files[t.slots[k]].kind == kind then {k, x} else {x};
    assert some <= ends;
    SubsetCard(some, ends);
  }

  lemma AnotherHolder(t: Tables, k: Key, g: nat) returns (x: Key)
    requires Counted(t) && CanDrop(t, k) && g in Drop(t, k).files
    ensures x in t.slots && x != k && t.slots[x] == g
  {
    hide PipesCounted;
    DropKeepsFiles(t, k);
    assert Holders(Drop(t, k), g) != {};
    x :| x in Holders(Drop(t, k), g);
  }

  /** When the last descriptor is gone nothing is left over. */
  lemma NoLeaks(t: Tables)
    requires Counted(t) && t.slots == map[]
    ensures t.files == map[] && t.pipes == map[]
  {
    forall f: nat ensures Holders(t, f) == {} { }
    forall q: nat, w ensures EndHolders(t, q, w) == {} { }
  }

  // ----- new files and pipes

  /** A free slot `k` comes to refer to a new file `f`: `alloc_file`. */
  function New(t: Tables, k: Key, f: nat): Tables {
    Tables(t.slots[k := f], t.files[f := File(Unused, 1)], t.pipes)
  }

  lemma NewHolders(t: Tables, k: Key, f: nat, g: nat)
    requires FilesCounted(t) && k !in t.slots && f !in t.files
    ensures Holders(New(t, k, f), g) == if g == f then {k} else Holders(t, g)
  {
  }

  lemma NewEnds(t: Tables, k: Key, f: nat, q: nat, w: bool)
    requires FilesCounted(t) && k !in t.slots && f !in t.files
    ensures EndHolders(New(t, k, f), q, w) == EndHolders(t, q, w)
  {
  }

  lemma NewKeeps(t: Tables, k: Key, f: nat)
    requires Counted(t) && k !in t.slots && f !in t.files
    ensures Counted(New(t, k, f))
  {
    hide Holders, EndHolders;
    var u := New(t, k, f);
    forall g | g in u.files ensures 0 < u.files[g].count == |Holders(u, g)| { NewHolders(t, k, f, g); }
    forall q, w ensures EndHolders(u, q, w) == EndHolders(t, q, w) { NewEnds(t, k, f, q, w); }
  }

  /** The kind of a file that is not a pipe end changes. */
  function Retyped(t: Tables, f: nat, kind: Kind): Tables
    requires f in t.files
  {
    t.(files := t.files[f := t.files[f].(kind := kind)])
  }

  lemma RetypedKeeps(t: Tables, f: nat, kind: Kind)
    requires Counted(t) && f in t.files && !t.files[f].kind.PipeEnd? && !kind.PipeEnd?
    ensures Counted(Retyped(t, f, kind))
  {
    var u := Retyped(t, f, kind);
    forall g ensures Holders(u, g) == Holders(t, g) { }
    forall q, w ensures EndHolders(u, q, w) == EndHolders(t, q, w) { }
  }

  /** Two new files become the ends of a new pipe: the end of `process_pipe2`. */
  function Paired(t: Tables, f: nat, g: nat, q: nat): Tables
    requires f in t.files && g in t.files && f != g
  {
    Tables(t.slots, t.files[f := t.files[f].(kind := PipeEnd(q, false))][g := t.files[g].(kind := PipeEnd(q, true))],
           t.pipes[q := Ends(1, 1)])
  }

  lemma PairedEnds(t: Tables, f: nat, g: nat, q: nat, x: nat, w: bool)
    requires Counted(t) && f in t.files && g in t.files && f != g && q !in t.pipes
    requires t.files[f] == File(Unused, 1) && t.files[g] == File(Unused, 1)
    ensures EndHolders(Paired(t, f, g, q), x, w) ==
            if x == q then Holders(t, if w then g else f) else EndHolders(t, x, w)
  {
  }

  lemma PairedKeeps(t: Tables, f: nat, g: nat, q: nat)
    requires Counted(t) && f in t.files && g in t.files && f != g && q !in t.pipes
    requires t.files[f] == File(Unused, 1) && t.files[g] == File(Unused, 1)
    ensures Counted(Paired(t, f, g, q))
  {
    hide EndHolders;
    var u := Paired(t, f, g, q);
    forall x ensures Holders(u, x) == Holders(t, x) { }
    forall x | x in u.pipes ensures u.pipes[x] == Ends(|EndHolders(u, x, false)|, |EndHolders(u, x, true)|) {
      PairedEnds(t, f, g, q, x, false);
      PairedEnds(t, f, g, q, x, true);
    }
  }

  // ----- the system calls

  /** The same files of the same kinds. */
  ghost predicate SameKinds(t: Tables, t': Tables) {
    t'.files.Keys == t.files.Keys && forall f <- t.files :: t'.files[f].kind == t.files[f].kind
  }

  /** No file but of those there were, of the same kind. */
  ghost predicate KindsLeft(t: Tables, t': Tables) {
    forall f <- t'.files :: f in t.files && t'.files[f].kind == t.files[f].kind
  }

  ghost predicate NoneFree(t: Tables, p: nat) {
    forall i :: 0 <= i < MAX_FD ==> (p, i) in t.slots
  }

  /** The lowest free descriptor of a process. */
  ghost predicate Lowest(t: Tables, p: nat, fd: nat) {
    fd < MAX_FD && (p, fd) !in t.slots && forall i :: 0 <= i < fd ==> (p, i) in t.slots
  }

  /** The close-on-exec flags after a descriptor was allocated, if one was free, and closed again. */
  ghost predicate Retracted(t: Tables, p: nat, cloexec: set<Key>, cloexec': set<Key>) {
    if NoneFree(t, p) then cloexec' == cloexec
    else exists i :: Lowest(t, p, i) && cloexec' == cloexec - {(p, i)}
  }

  class Processes {
    var t: Tables
    var cloexec: set<Key>
    /** Addresses not yet used for files and pipes. */
    var nextFile: nat
    var nextPipe: nat
    /** Where a process is asleep inside a read or a write of a pipe; its suspended stack knows. */
    var asleep: map<nat, Spot>

    ghost predicate Valid()
      reads this
    {
      && Counted(t)
      && (forall k <- t.slots :: k.1 < MAX_FD)
      && (forall f <- t.files :: f < nextFile) && (forall q <- t.pipes :: q < nextPipe)
      && (forall p <- asleep :: asleep[p].key.0 == p && OnPipe(t, asleep[p]))
    }

    constructor ()
      ensures Valid() && t == Tables(map[], map[], map[]) && asleep == map[]
    {
      t, cloexec, nextFile, nextPipe, asleep := Tables(map[], map[], map[]), {}, 0, 0, map[];
      new;
      forall f: nat ensures Holders(t, f) == {} { }
    }

    /** `alloc_file`: the lowest free descriptor, or -EMFILE. */
    method AllocFile(p: nat) returns (fd: int)
      requires Valid() && p !in asleep
      modifies this`t, this`nextFile
      ensures Valid() && nextFile >= old(nextFile)
      ensures fd == -EMFILE <==> forall i :: 0 <= i < MAX_FD ==> (p, i) in old(t).slots
      ensures fd == -EMFILE ==> t == old(t)
      ensures fd != -EMFILE ==>
                && 0 <= fd < MAX_FD && (p, fd) !in old(t).slots && (forall i :: 0 <= i < fd ==> (p, i) in old(t).slots)
                && old(nextFile) !in old(t).files && t == New(old(t), (p, fd), old(nextFile))
    {
      hide Counted;
      fd := 0;
      while fd < MAX_FD
        invariant 0 <= fd <= MAX_FD && forall i :: 0 <= i < fd ==> (p, i) in t.slots
      {
        if (p, fd) !in t.slots {
          NewKeeps(t, (p, fd), nextFile);
          t := New(t, (p, fd), nextFile);
          nextFile := nextFile + 1;
          return;
        }
        fd := fd + 1;
      }
      fd := -EMFILE;
    }

    /** `process_close` */
    method Close(p: nat, fd: int) returns (r: int)
      requires Valid() && p !in asleep
      modifies this`t, this`cloexec
      ensures Valid()
      ensures r == if HasFile(old(t), p, fd) then 0 else -EBADF
      ensures r == 0 ==> CanDrop(old(t), (p, fd)) && t == Drop(old(t), (p, fd)) && cloexec == old(cloexec) - {(p, fd)}
      ensures r != 0 ==> t == old(t) && cloexec == old(cloexec)
    {
      hide Counted;
      if !HasFile(t, p, fd) {
        return -EBADF;
      }
      Release((p, fd));
      cloexec := cloexec - {(p, fd)};
      r := 0;
    }

    /** `release_file` and the store of NULL into the slot */
    method Release(k: Key)
      requires Valid() && k in t.slots && k.0 !in asleep
      modifies this`t
      ensures Valid() && CanDrop(old(t), k) && t == Drop(old(t), k)
    {
      hide Counted;
      DropKeeps(t, k);
      DropOthers(t, k, asleep);
      t := Drop(t, k);
    }

    /** `countup_file` and the store into a free slot */
    method Attach(k: Key, f: nat)
      requires Valid() && k !in t.slots && k.1 < MAX_FD && f in t.files
      modifies this`t
      ensures Valid() && (old(t).files[f].kind.PipeEnd? ==> old(t).files[f].kind.pipe in old(t).pipes)
      ensures t == Add(old(t), k, f)
    {
      hide Counted;
      PipeIsThere(t, f);
      AddKeeps(t, k, f);
      AddOthers(t, k, f, asleep);
      t := Add(t, k, f);
    }

    /** `process_open`; `outcome` is 0 or the error of creating or looking up the path. */
    method Open(p: nat, outcome: int, closing: bool) returns (fd: int)
      requires Valid() && p !in asleep && outcome <= 0
      modifies this`t, this`cloexec, this`nextFile
      ensures Valid() && t.pipes == old(t).pipes
      ensures fd >= 0 <==> outcome == 0 && exists i :: 0 <= i < MAX_FD && (p, i) !in old(t).slots
      ensures fd >= 0 ==>
                && (p, fd) !in old(t).slots && old(nextFile) !in old(t).files
                && t.slots == old(t).slots[(p, fd) := old(nextFile)]
                && t.files == old(t).files[old(nextFile) := File(Regular, 1)]
                && cloexec == if closing then old(cloexec) + {(p, fd)} else old(cloexec)
      ensures fd < 0 ==>
                && t.slots == old(t).slots
                && fd == if forall i :: 0 <= i < MAX_FD ==> (p, i) in old(t).slots then -EMFILE else outcome
      ensures fd >= 0 ==> Lowest(old(t), p, fd)
      ensures fd < 0 ==> Retracted(old(t), p, old(cloexec), cloexec) && KindsLeft(old(t), t)
    {
      hide Counted, CanDrop;
      fd := AllocFile(p);
      if fd < 0 {
        return;
      }
      assert Lowest(old(t), p, fd);
      if outcome < 0 {
        var r := Close(p, fd);
        return outcome;
      }
      var f := t.slots[(p, fd)];
      RetypedKeeps(t, f, Regular);
      t := Retyped(t, f, Regular);
      if closing {
        cloexec := cloexec + {(p, fd)};
      }
    }

    /** The terminal a process made by `process_create` starts with, on its first three descriptors. */
    method OpenTerminal(p: nat)
      requires Valid() && p !in asleep && forall i :: 0 <= i < MAX_FD ==> (p, i) !in t.slots
      modifies this`t, this`nextFile
      ensures Valid() && old(nextFile) !in old(t).files && t.pipes == old(t).pipes
      ensures t.slots == old(t).slots[(p, 0) := old(nextFile)][(p, 1) := old(nextFile)][(p, 2) := old(nextFile)]
      ensures t.files == old(t).files[old(nextFile) := File(Tty, 3)]
    {
      hide Counted;
      var fd := AllocFile(p);
      var f := t.slots[(p, 0)];
      RetypedKeeps(t, f, Tty);
      t := Retyped(t, f, Tty);
      Attach((p, 1), f);
      Attach((p, 2), f);
    }

    /** `process_pipe2`; `known` says whether it knows all the flags. */
    method Pipe2(p: nat, known: bool, closing: bool) returns (r: int, rfd: int, wfd: int)
      requires Valid() && p !in asleep
      modifies this`t, this`cloexec, this`nextFile, this`nextPipe
      ensures Valid() && (r == 0 || r == -EMFILE || r == -EINVAL) && (r == -EINVAL <==> !known)
      ensures known ==> (r == 0 <==> TwoFree(old(t), p))
      ensures nextPipe == if r == 0 then old(nextPipe) + 1 else old(nextPipe)
      ensures r != 0 ==> t.slots == old(t).slots && t.pipes == old(t).pipes
      ensures r == 0 ==>
                && 0 <= rfd < wfd < MAX_FD && (p, rfd) !in old(t).slots && (p, wfd) !in old(t).slots
                && old(nextPipe) !in old(t).pipes && t.pipes == old(t).pipes[old(nextPipe) := Ends(1, 1)]
                && t.slots.Keys == old(t).slots.Keys + {(p, rfd), (p, wfd)}
                && IsEnd(t, t.slots[(p, rfd)], old(nextPipe), false) && IsEnd(t, t.slots[(p, wfd)], old(nextPipe), true)
                && (forall k <- old(t).slots :: t.slots[k] == old(t).slots[k])
                && cloexec == (if closing then old(cloexec) + {(p, rfd), (p, wfd)} else old(cloexec))
                && Lowest(old(t), p, rfd) && (forall i :: rfd < i < wfd ==> (p, i) in old(t).slots)
      ensures r != 0 ==> KindsLeft(old(t), t)
      ensures r == -EINVAL ==> cloexec == old(cloexec)
      ensures r == -EMFILE ==> Retracted(old(t), p, old(cloexec), cloexec)
    {
      hide Counted, TwoFree, Retracted;
      rfd, wfd := -1, -1;
      if !known {
        return -EINVAL, rfd, wfd;
      }
      rfd, wfd := AllocTwo(p);
      if wfd < 0 {
        return -EMFILE, rfd, wfd;
      }
      Pair(t.slots[(p, rfd)], t.slots[(p, wfd)]);
      if closing {
        cloexec := cloexec + {(p, rfd), (p, wfd)};
      }
      r := 0;
    }

    /** The two descriptors of `process_pipe2`, or none. */
    method AllocTwo(p: nat) returns (rfd: int, wfd: int)
      requires Valid() && p !in asleep
      modifies this`t, this`cloexec, this`nextFile
      ensures Valid() && t.pipes == old(t).pipes && (wfd >= 0 <==> TwoFree(old(t), p))
      ensures wfd < 0 ==> t.slots == old(t).slots && KindsLeft(old(t), t) && Retracted(old(t), p, old(cloexec), cloexec)
      ensures wfd >= 0 ==> 0 <= rfd && Lowest(old(t), p, rfd) && forall i :: rfd < i < wfd ==> (p, i) in old(t).slots
      ensures wfd >= 0 ==>
                && 0 <= rfd < wfd < MAX_FD && (p, rfd) !in old(t).slots && (p, wfd) !in old(t).slots
                && cloexec == old(cloexec) && old(nextFile) !in old(t).files
                && var f := old(nextFile);
                   exists g :: g !in New(old(t), (p, rfd), f).files && t == New(New(old(t), (p, rfd), f), (p, wfd), g)
    {
      hide Counted, TwoFree;
      wfd := -1;
      rfd := AllocFile(p);
      if rfd < 0 {
        OneFree(t, p, 0);
        return;
      }
      assert Lowest(old(t), p, rfd);
      wfd := AllocFile(p);
      if wfd < 0 {
        OneFree(old(t), p, rfd);
        var c := Close(p, rfd);
      } else {
        BothFree(old(t), p, rfd, wfd);
      }
    }

    /** The two files of `process_pipe2` become the ends of a new pipe. */
    method Pair(f: nat, g: nat)
      requires Valid() && f in t.files && g in t.files && f != g
      requires t.files[f] == File(Unused, 1) && t.files[g] == File(Unused, 1)
      modifies this`t, this`nextPipe
      ensures Valid() && old(nextPipe) !in old(t).pipes && nextPipe == old(nextPipe) + 1
      ensures t == Paired(old(t), f, g, old(nextPipe))
    {
      hide Counted;
      var q := nextPipe;
      PairedKeeps(t, f, g, q);
      SleepersNotNew(t, f, g, q, asleep);
      t := Paired(t, f, g, q);
      nextPipe := nextPipe + 1;
    }

    /** A read or a write through a descriptor goes to sleep on its pipe. */
    method SleepOn(p: nat, s: Spot)
      requires Valid() && p !in asleep && s.key.0 == p && OnPipe(t, s)
      modifies this`asleep
      ensures Valid() && asleep == old(asleep)[p := s]
    {
      asleep := asleep[p := s];
    }

    method WakeUp(p: nat)
      requires Valid() && p in asleep
      modifies this`asleep
      ensures Valid() && asleep == old(asleep) - {p}
    {
      asleep := asleep - {p};
    }
  }

  /** Two descriptors of `p` are free. */
  ghost predicate TwoFree(t: Tables, p: nat) {
    exists i, j :: 0 <= i < j < MAX_FD && (p, i) !in t.slots && (p, j) !in t.slots
  }

  lemma OneFree(t: Tables, p: nat, fd: nat)
    requires forall i :: 0 <= i < MAX_FD && i != fd ==> (p, i) in t.slots
    ensures !TwoFree(t, p)
  {
  }

  lemma BothFree(t: Tables, p: nat, i: nat, j: nat)
    requires i < j < MAX_FD && (p, i) !in t.slots && (p, j) !in t.slots
    ensures TwoFree(t, p)
  {
  }

  /** `get_file` finds a file. */
  predicate HasFile(t: Tables, p: nat, fd: int) {
    0 <= fd < MAX_FD && (p, fd) in t.slots
  }

  /** What `get_file` finds. */
  function Target(t: Tables, p: nat, fd: int): (r: Option<Kind>) {
    if HasFile(t, p, fd) && t.slots[(p, fd)] in t.files then Some(t.files[t.slots[(p, fd)]].kind) else None
  }

  lemma TargetFound(t: Tables, p: nat, fd: int)
    requires Counted(t)
    ensures Target(t, p, fd) == None <==> !HasFile(t, p, fd)
    ensures Target(t, p, fd).Some? && Target(t, p, fd).value.PipeEnd? ==>
              OnPipe(t, Spot((p, fd), Target(t, p, fd).value.pipe, Target(t, p, fd).value.writing))
  {
  }

  ghost predicate OnPipe(t: Tables, s: Spot) {
    s.key in t.slots && IsEnd(t, t.slots[s.key], s.pipe, s.writing)
  }

  /** A pipe somebody sleeps on is not freed, and counts the end they sleep on as open. */
  lemma SleepersPipe(t: Tables, s: Spot)
    requires Counted(t) && OnPipe(t, s)
    ensures s.pipe in t.pipes && if s.writing then t.pipes[s.pipe].writers > 0 else t.pipes[s.pipe].readers > 0
  {
    assert s.key in EndHolders(t, s.pipe, s.writing);
  }

  lemma DropOthers(t: Tables, k: Key, asleep: map<nat, Spot>)
    requires Counted(t) && CanDrop(t, k) && k.0 !in asleep
    requires forall p <- asleep :: asleep[p].key.0 == p && OnPipe(t, asleep[p])
    ensures forall p <- asleep :: OnPipe(Drop(t, k), asleep[p])
  {
    hide PipesCounted;
    forall p | p in asleep ensures OnPipe(Drop(t, k), asleep[p]) {
      assert asleep[p].key != k;
      if t.files[t.slots[k]].count == 1 { OnlyHolder(t, k, asleep[p].key); }
    }
  }

  lemma SlotHasFile(t: Tables, k: Key)
    requires Counted(t) && k in t.slots
    ensures t.slots[k] in t.files
  {
  }

  lemma SleepersNotNew(t: Tables, f: nat, g: nat, q: nat, asleep: map<nat, Spot>)
    requires f in t.files && g in t.files && f != g && !t.files[f].kind.PipeEnd? && !t.files[g].kind.PipeEnd?
    requires forall p <- asleep :: OnPipe(t, asleep[p])
    ensures forall p <- asleep :: OnPipe(Paired(t, f, g, q), asleep[p])
  {
  }

  lemma PipeIsThere(t: Tables, f: nat)
    requires Counted(t) && f in t.files
    ensures t.files[f].kind.PipeEnd? ==> t.files[f].kind.pipe in t.pipes
  {
  }

  lemma AddOthers(t: Tables, k: Key, f: nat, asleep: map<nat, Spot>)
    requires k !in t.slots && f in t.files && (t.files[f].kind.PipeEnd? ==> t.files[f].kind.pipe in t.pipes)
    requires forall p <- asleep :: OnPipe(t, asleep[p])
    ensures forall p <- asleep :: OnPipe(Add(t, k, f), asleep[p])
  {
  }
}
