/** All pipes of the system, and what their ends and queues look like from outside. */
module PipeTable {
  import opened Collections
  import opened Pages
  import opened Blocks
  import opened Wakeups
  import Pipe

  ghost function ViewOf(p: Pipe.Pipe): View
    reads p
  {
    View(p.readers, p.writers, p.offset, p.length, p.readersQueue, p.writersQueue, p.sent, p.received)
  }

  /** What a stretch of `pipe_read` by `c` that ends with `stop` means for the pipe. */
  ghost predicate ReadDone(v: View, v': View, c: nat, size: nat, stop: Pipe.Stop, data: seq<Byte>, n: nat) {
    && v'.readers == v.readers && v'.writers == v.writers
    && v'.sent == v.sent && v'.received == v.received + data && v'.length + |data| == v.length
    && (stop == Pipe.Asleep <==> v.length == 0 && v.writers > 0)
    && (stop == Pipe.BugOn <==> size == 0 && v.length == PAGE_SIZE)
    && (stop != Pipe.BugOn ==>
         && Moved(v, v', false, n, c, stop == Pipe.Asleep) && ReadMoves(v, v', c, n > 0)
         && (stop == Pipe.Asleep ==> data == []) && (stop.Returned? ==> stop.count == |data| == Least(size, v.length))
         && (v.length > 0 && Least(size, v.length) <= PAGE_SIZE - v.offset ==> n == Least(1, |v.wq|)))
  }

  method ReadPipe(pipe: Pipe.Pipe, c: nat, size: nat) returns (stop: Pipe.Stop, data: seq<Byte>, n: nat)
    requires pipe.Valid()
    modifies pipe
    ensures pipe.Valid() && ReadDone(old(ViewOf(pipe)), ViewOf(pipe), c, size, stop, data, n)
  {
    hide Pipe.Conserved, Pipe.Ring, Pipe.Consumed, Pipe.NobodyStuck;
    var asleep := |pipe.writersQueue|;
    stop, data := pipe.Read(c, size);
    n := if |pipe.writersQueue| <= asleep then asleep - |pipe.writersQueue| else 0;
    ghost var v, v' := old(ViewOf(pipe)), ViewOf(pipe);
    assert stop != Pipe.BugOn && v.length > 0 && Least(size, v.length) <= PAGE_SIZE - v.offset ==>
        n == Least(1, |v.wq|);
    hide Pipe.Woken;
    assert stop != Pipe.BugOn ==> Moved(v, v', false, n, c, stop == Pipe.Asleep);
    hide Moved;
  }

  /** What a stretch of `pipe_write` by `c`, of the bytes of `data` from `from` on, means for the pipe. */
  ghost predicate WriteDone(v: View, v': View, c: nat, stop: Pipe.Stop, data: seq<Byte>, from: nat, written: nat,
                            n: nat) {
    && v'.readers == v.readers && v'.writers == v.writers && v'.received == v.received
    && from <= written <= |data| && v'.sent == v.sent + data[from..written]
    && v'.offset == v.offset && v'.length == v.length + written - from
    && Moved(v, v', true, n, c, stop == Pipe.Asleep) && WriteMoves(v, v', c, from < |data|, n > 0)
    && (stop == Pipe.Asleep <==> v.readers > 0 && !(v.length < PAGE_SIZE && v.length + |data| - from <= PAGE_SIZE))
    && (v.readers > 0 && v.length < PAGE_SIZE && v.offset + v.length + |data| - from <= PAGE_SIZE ==>
         n == Least(1, |v.rq|))
    && if stop == Pipe.Asleep
       then v.readers > 0 && (written < |data| || written == |data| == 0) && v'.length == PAGE_SIZE
       else if v.readers == 0 then stop == Pipe.Returned(-Pipe.EPIPE) && written == from
       else stop == Pipe.Returned(|data|) && written == |data|
  }

  method WritePipe(pipe: Pipe.Pipe, c: nat, data: seq<Byte>, from: nat)
    returns (stop: Pipe.Stop, written: nat, n: nat)
    requires pipe.Valid() && (from < |data| || from == |data| == 0)
    modifies pipe, pipe.page
    ensures pipe.Valid() && WriteDone(old(ViewOf(pipe)), ViewOf(pipe), c, stop, data, from, written, n)
  {
    hide Pipe.Conserved, Pipe.Ring, Pipe.NobodyStuck;
    var asleep := |pipe.readersQueue|;
    stop, written := pipe.Write(c, data, from);
    assert pipe.sent == old(pipe.sent) + data[from..written];
    hide Pipe.Extended;
    n := asleep - |pipe.readersQueue|;
    assert Moved(old(ViewOf(pipe)), ViewOf(pipe), true, n, c, stop == Pipe.Asleep);
  }

  /** Nobody sleeps on the pipe who could go on, and at most one process on each end. */
  ghost predicate Tight(v: View) {
    Pipe.NobodyStuck(v.rq, v.wq, v.length, v.readers, v.writers)
  }

  lemma TightRead(v: View, v': View, c: nat, size: nat, stop: Pipe.Stop, data: seq<Byte>, n: nat)
    requires ReadDone(v, v', c, size, stop, data, n) && stop != Pipe.BugOn
    ensures Tight(v) && v.rq == [] ==> Tight(v')
  {
  }

  lemma TightWrite(v: View, v': View, c: nat, stop: Pipe.Stop, data: seq<Byte>, from: nat, written: nat, n: nat)
    requires WriteDone(v, v', c, stop, data, from, written, n)
    ensures Tight(v) && v.wq == [] ==> Tight(v')
  {
  }

  /** Pipes that were tight are, and new ones are. */
  ghost predicate TightKept(views: map<nat, View>, views': map<nat, View>) {
    forall q <- views' :: (q in views ==> Tight(views[q])) ==> Tight(views'[q])
  }

  lemma TightSame(views: map<nat, View>)
    ensures TightKept(views, views)
  {
  }

  lemma TightTwice(views: map<nat, View>, mid: map<nat, View>, views': map<nat, View>)
    ensures TightKept(views, mid) && TightKept(mid, views') ==> TightKept(views, views')
  {
    hide Tight;
  }

  /** One more descriptor on an end. */
  ghost function Opened(v: View, writing: bool): View {
    if writing then v.(writers := v.writers + 1) else v.(readers := v.readers + 1)
  }

  /** One descriptor fewer on an end; with the last one go the sleepers of the other end. */
  ghost function Closed(v: View, writing: bool): View
    requires if writing then v.writers > 0 else v.readers > 0
  {
    if writing then
      if v.writers == 1 then v.(writers := 0, rq := []) else v.(writers := v.writers - 1)
    else
      if v.readers == 1 then v.(readers := 0, wq := []) else v.(readers := v.readers - 1)
  }

  lemma TightOpened(views: map<nat, View>, q: nat, writing: bool)
    requires q in views
    ensures TightKept(views, views[q := Opened(views[q], writing)])
  {
  }

  lemma TightClosed(views: map<nat, View>, q: nat, writing: bool)
    requires q in views && if writing then views[q].writers > 0 else views[q].readers > 0
    ensures TightKept(views, views[q := Closed(views[q], writing)]) && TightKept(views, views - {q})
  {
  }

  /** How many sleepers of the other end a release wakes. */
  ghost function Rescued(v: View, writing: bool): nat {
    if writing then if v.writers == 1 then |v.rq| else 0
    else if v.readers == 1 then |v.wq| else 0
  }

  method NewPipe() returns (pipe: Pipe.Pipe)
    ensures fresh(pipe) && fresh(pipe.page) && pipe.Valid() && ViewOf(pipe) == NewView()
  {
    hide Pipe.Conserved, Pipe.Ring;
    pipe := new Pipe.Pipe();
    assert pipe.length == |pipe.Contents()|;
  }

  method CountPipe(pipe: Pipe.Pipe, writing: bool)
    requires pipe.Valid()
    modifies pipe
    ensures pipe.Valid() && ViewOf(pipe) == Opened(old(ViewOf(pipe)), writing)
  {
    hide Pipe.Conserved, Pipe.Ring;
    pipe.CountUp(writing);
  }

  method ReleasePipe(pipe: Pipe.Pipe, writing: bool) returns (dead: bool, n: nat)
    requires pipe.Valid() && if writing then pipe.writers > 0 else pipe.readers > 0
    modifies pipe
    ensures pipe.Valid() && ViewOf(pipe) == Closed(old(ViewOf(pipe)), writing)
    ensures (dead <==> pipe.readers == 0 && pipe.writers == 0) && n == Rescued(old(ViewOf(pipe)), writing)
  {
    hide Pipe.Conserved, Pipe.Ring;
    var asleep := if writing then |pipe.readersQueue| else |pipe.writersQueue|;
    dead := pipe.Release(writing);
    n := asleep - if writing then |pipe.readersQueue| else |pipe.writersQueue|;
  }

  /** No two pipes share a record or a page. */
  ghost predicate Separate(pipes: map<nat, Pipe.Pipe>) {
    forall q <- pipes, x <- pipes :: q != x ==> pipes[q] != pipes[x] && pipes[q].page != pipes[x].page
  }

  lemma SeparateFrom(pipes: map<nat, Pipe.Pipe>, q: nat)
    requires Separate(pipes) && q in pipes
    ensures forall x <- pipes :: x != q ==> pipes[x] != pipes[q] && pipes[x].page != pipes[q].page
  {
  }

  lemma SeparateMore(pipes: map<nat, Pipe.Pipe>, q: nat, pipe: Pipe.Pipe)
    requires Separate(pipes) && forall x <- pipes :: pipes[x] != pipe && pipes[x].page != pipe.page
    ensures Separate(pipes[q := pipe])
  {
  }

  lemma SeparateLess(pipes: map<nat, Pipe.Pipe>, q: nat)
    requires Separate(pipes)
    ensures Separate(pipes - {q})
  {
  }

  class Table {
    var pipes: map<nat, Pipe.Pipe>
    ghost var views: map<nat, View>
    ghost var Repr: set<object>

    ghost predicate Valid()
      reads this, Repr
    {
      && this in Repr && views.Keys == pipes.Keys
      && (forall q <- pipes ::
           && pipes[q] in Repr && pipes[q].page in Repr
           && pipes[q].Valid() && views[q] == ViewOf(pipes[q]))
      && Separate(pipes)
    }

    constructor ()
      ensures Valid() && fresh(Repr) && views == map[]
    {
      pipes, views, Repr := map[], map[], {this};
    }

    /** What was read from a pipe is what was written to it, in order, but for what is still in it. */
    lemma InOrder(q: nat)
      requires Valid() && q in views
      ensures var v := views[q];
              && |v.sent| == |v.received| + v.length && v.received == v.sent[..|v.received|] && v.length <= PAGE_SIZE
    {
      hide Pipe.Ring;
      assert pipes[q].Valid() && Pipe.Conserved(pipes[q].sent, pipes[q].received, pipes[q].Contents());
      assert |pipes[q].Contents()| == pipes[q].length;
    }

    /** `pipe_create` at an address not in use */
    method Create(q: nat)
      requires Valid() && q !in views
      modifies this
      ensures Valid() && fresh(Repr - old(Repr)) && views == old(views)[q := NewView()]
    {
      hide Table.Valid, ViewOf;
      var pipe := NewPipe();
      Insert(q, pipe);
    }

    method Insert(q: nat, pipe: Pipe.Pipe)
      requires Valid() && q !in views && pipe.Valid() && pipe !in Repr && pipe.page !in Repr
      modifies this
      ensures Valid() && Repr == old(Repr) + {pipe, pipe.page} && views == old(views)[q := ViewOf(pipe)]
    {
      hide Pipe.Pipe.Valid, Separate, ViewOf;
      SeparateMore(pipes, q, pipe);
      pipes := pipes[q := pipe];
      views := views[q := ViewOf(pipe)];
      Repr := Repr + {pipe, pipe.page};
    }

    /** A stretch of `pipe_read` by `c`: `n` writers are woken. */
    method Read(q: nat, c: nat, size: nat) returns (stop: Pipe.Stop, data: seq<Byte>, n: nat)
      requires Valid() && q in views
      modifies Repr
      ensures Valid() && Repr == old(Repr) && q in views && views == old(views)[q := views[q]]
      ensures ReadDone(old(views)[q], views[q], c, size, stop, data, n)
    {
      hide Pipe.Pipe.Valid, Separate, ReadDone;
      SeparateFrom(pipes, q);
      stop, data, n := ReadPipe(pipes[q], c, size);
      views := views[q := ViewOf(pipes[q])];
    }

    /** A stretch of `pipe_write` by `c`: `n` readers are woken. */
    method Write(q: nat, c: nat, data: seq<Byte>, from: nat) returns (stop: Pipe.Stop, written: nat, n: nat)
      requires Valid() && q in views && (from < |data| || from == |data| == 0)
      modifies Repr
      ensures Valid() && Repr == old(Repr) && q in views && views == old(views)[q := views[q]]
      ensures WriteDone(old(views)[q], views[q], c, stop, data, from, written, n)
    {
      hide Pipe.Pipe.Valid, Separate, WriteDone;
      SeparateFrom(pipes, q);
      stop, written, n := WritePipe(pipes[q], c, data, from);
      views := views[q := ViewOf(pipes[q])];
    }

    /** `pipe_countup` */
    method CountUp(q: nat, writing: bool)
      requires Valid() && q in views
      modifies Repr
      ensures Valid() && Repr == old(Repr)
      ensures views == old(views)[q := Opened(old(views)[q], writing)]
    {
      hide Pipe.Pipe.Valid, Separate, Opened;
      SeparateFrom(pipes, q);
      CountPipe(pipes[q], writing);
      views := views[q := ViewOf(pipes[q])];
    }

    /** `pipe_release` up to the freeing of the pipe: `n` sleepers of the other end are woken. */
    method CloseEnd(q: nat, writing: bool) returns (dead: bool, n: nat)
      requires Valid() && q in views && if writing then views[q].writers > 0 else views[q].readers > 0
      modifies Repr
      ensures Valid() && Repr == old(Repr) && this in Repr && n == Rescued(old(views)[q], writing)
      ensures views == old(views)[q := Closed(old(views)[q], writing)]
      ensures dead <==> views[q].readers == 0 && views[q].writers == 0
    {
      hide Pipe.Pipe.Valid, Separate, Closed, Rescued;
      SeparateFrom(pipes, q);
      dead, n := ReleasePipe(pipes[q], writing);
      views := views[q := ViewOf(pipes[q])];
    }

    /** `pipe_release` */
    method Release(q: nat, writing: bool) returns (n: nat)
      requires Valid() && q in views && if writing then views[q].writers > 0 else views[q].readers > 0
      modifies Repr
      ensures Valid() && Repr == old(Repr) && n == Rescued(old(views)[q], writing)
      ensures var v := Closed(old(views)[q], writing);
              views == if v.readers == 0 && v.writers == 0 then old(views) - {q} else old(views)[q := v]
    {
      hide Table.Valid, Closed, Rescued;
      var dead;
      dead, n := CloseEnd(q, writing);
      if dead {
        Forget(q);
      }
    }

    /** The `slab_cache_free` of `pipe_release` */
    method Forget(q: nat)
      requires Valid() && q in views
      modifies this`pipes, this`views
      ensures Valid() && views == old(views) - {q}
    {
      hide Pipe.Pipe.Valid, Separate, ViewOf;
      SeparateLess(pipes, q);
      pipes := pipes - {q};
      views := views - {q};
    }
  }
}
