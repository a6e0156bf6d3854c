/**
 Processes, descriptors, pipes and the scheduler as one system: what a system call does to
 all four of them.
 */
module Machine {
  import opened Collections
  import opened Pages
  import opened Blocks
  import opened Scheduler
  import opened Descriptors
  import opened Wakeups
  import opened PipeTable
  import opened Effects
  import Pipe

  /** Every pipe counts the descriptors that refer to its ends. */
  ghost predicate Counts(ends: map<nat, Ends>, views: map<nat, View>) {
    && views.Keys == ends.Keys
    && forall q <- views :: views[q].readers == ends[q].readers && views[q].writers == ends[q].writers
  }

  /** A process is inside a call on a pipe exactly while it must not lose its descriptors. */
  ghost predicate Inside(calls: map<nat, Call>, asleep: map<nat, Spot>) {
    calls.Keys == asleep.Keys && forall p <- calls :: At(calls[p], asleep[p].pipe, asleep[p].writing)
  }

  /** Only living processes have descriptors. */
  ghost predicate Owned(slots: map<Key, nat>, state: map<nat, State>) {
    forall k <- slots :: k.0 in state && state[k.0] != Dead
  }

  ghost predicate Spare(queues: map<nat, seq<nat>>, nextPipe: nat) {
    forall q, w :: nextPipe <= q ==> QueueOf(q, w) !in queues
  }

  ghost predicate Benches(calls: map<nat, Call>, state: map<nat, State>, queues: map<nat, seq<nat>>,
                          views: map<nat, View>) {
    Shared(views, queues) && Seated(views, calls, state) && forall q <- views :: BothOpen(views[q])
  }

  ghost predicate Tied(t: Tables, asleep: map<nat, Spot>, nextPipe: nat, calls: map<nat, Call>,
                       state: map<nat, State>, queues: map<nat, seq<nat>>, views: map<nat, View>) {
    && Counts(t.pipes, views) && Inside(calls, asleep) && Owned(t.slots, state) && Spare(queues, nextPipe)
    && Benches(calls, state, queues, views)
  }

  class System {
    const kernel: Kernel
    const procs: Processes
    const table: Table
    /** The calls of processes that sleep on a pipe or were woken from one and have not run yet. */
    var calls: map<nat, Call>

    ghost function Footprint(): set<object>
      reads table
    {
      {this, kernel, procs, table} + table.Repr
    }

    ghost predicate Valid()
      reads this, kernel, procs, table, table.Repr
    {
      && kernel.Valid() && procs.Valid() && table.Valid() && Apart()
      && Tied(procs.t, procs.asleep, procs.nextPipe, calls, kernel.state, kernel.queues, table.views)
    }

    ghost predicate Apart()
      reads table
    {
      this !in table.Repr && kernel !in table.Repr && procs !in table.Repr
    }

    /** No pipe is stuck. */
    ghost predicate Flowing()
      reads this, kernel, table
    {
      AllLive(table.views, calls, kernel.state)
    }

    constructor ()
      ensures Valid() && Flowing() && fresh(Footprint()) && kernel.current == NOBODY && calls == map[]
      ensures kernel.all == kernel.run == [] && kernel.state == map[]
      ensures procs.t == Tables(map[], map[], map[]) && table.views == map[]
    {
      hide Kernel.Valid, Table.Valid, Processes.Valid, Tied;
      kernel := new Kernel();
      procs := new Processes();
      table := new Table();
      calls := map[];
      new;
      NothingTied(procs.nextPipe);
    }

    /** The calls of `process_wake` on one queue during a stretch. */
    method WakeMany(x: nat, n: nat)
      requires kernel.Valid() && x in kernel.queues && n <= |kernel.queues[x]|
      modifies kernel
      ensures kernel.Valid() && kernel.queues == old(kernel.queues)[x := old(kernel.queues)[x][n..]]
      ensures kernel.state == Awake(old(kernel.state), old(kernel.queues)[x][..n])
      ensures kernel.current == old(kernel.current) && Stays(old(kernel.Now()), kernel.Now())
      ensures kernel.all == old(kernel.all)
    {
      hide Awake, Queued, Parked, Fair;
      ghost var queue := kernel.queues[x];
      AwakeNobody(kernel.state);
      var i := 0;
      while i < n
        invariant 0 <= i <= n && kernel.Valid() && kernel.queues == old(kernel.queues)[x := queue[i..]]
        invariant kernel.state == Awake(old(kernel.state), queue[..i])
        invariant kernel.current == old(kernel.current) && Stays(old(kernel.Now()), kernel.Now())
        invariant kernel.all == old(kernel.all)
      {
        QueueKnown(kernel.state, kernel.queues, kernel.place, x);
        label L:
        var woken := kernel.Wake(x);
        AwakeOneMore(old(kernel.state), queue, i);
        StaysOn(old(kernel.Now()), old@L(kernel.Now()), kernel.Now());
        i := i + 1;
      }
    }

    /** The process's side of a stretch. */
    method Enter(c: nat, s: Spot, sleeps: bool, call: Call)
      requires procs.Valid() && Inside(calls, procs.asleep) && (c in calls ==> procs.asleep[c] == s)
      requires s.key.0 == c && OnPipe(procs.t, s) && At(call, s.pipe, s.writing)
      modifies this`calls, procs`asleep
      ensures procs.Valid() && Inside(calls, procs.asleep) && calls == CallsAfter(old(calls), c, sleeps, call)
    {
      hide Counted;
      if sleeps {
        if c !in calls {
          procs.SleepOn(c, s);
        }
        calls := calls[c := call];
      } else {
        if c in calls {
          procs.WakeUp(c);
        }
        calls := calls - {c};
      }
    }

    /** The scheduler's side of a stretch of a call. */
    method Park(q: nat, w: bool, n: nat, sleeps: bool)
      requires kernel.Valid() && kernel.Running() && QueueOf(q, w) in kernel.queues
      requires QueueOf(q, !w) in kernel.queues && n <= |kernel.queues[QueueOf(q, !w)]|
      modifies kernel
      ensures kernel.Valid() && kernel.current == old(kernel.current) >= 0
      ensures kernel.queues == QueuesAfter(old(kernel.queues), q, w, n, kernel.current, sleeps)
      ensures kernel.state
              == StateAfter(old(kernel.state), old(kernel.queues)[QueueOf(q, !w)][..n], kernel.current, sleeps)
      ensures Stays(old(kernel.Now()), kernel.Now()) && kernel.all == old(kernel.all)
    {
      hide Awake, Queued, Parked, Fair;
      WakeMany(QueueOf(q, !w), n);
      AwakeKeeps(old(kernel.state), old(kernel.queues)[QueueOf(q, !w)][..n], kernel.current);
      label L:
      if sleeps {
        kernel.Block(QueueOf(q, w));
        StaysOn(old(kernel.Now()), old@L(kernel.Now()), kernel.Now());
      }
    }

    lemma Invariants()
      requires kernel.Valid() && procs.Valid()
      ensures Parked(kernel.state, kernel.queues, kernel.place) && Counted(procs.t)
    {
      hide Parked, Queued, Fair, Counted;
    }

    /** After its pipe has moved from what `views` says, a call wakes, sleeps or returns. */
    method Settle(s: Spot, n: nat, sleeps: bool, call: Call, ghost views: map<nat, View>)
      requires kernel.Valid() && procs.Valid() && kernel.Running() && s.key.0 == kernel.current && OnPipe(procs.t, s)
      requires table.Valid() && Apart()
      requires Tied(procs.t, procs.asleep, procs.nextPipe, calls, kernel.state, kernel.queues, views)
      requires kernel.current in calls ==> kernel.current in procs.asleep && procs.asleep[kernel.current] == s
      requires s.pipe in table.views && s.pipe in views && table.views == views[s.pipe := table.views[s.pipe]]
      requires At(call, s.pipe, s.writing)
      requires call.Writing? ==> call.written < |call.data| || call.written == |call.data| == 0
      requires var v, v' := views[s.pipe], table.views[s.pipe];
               && Moved(v, v', s.writing, n, kernel.current, sleeps)
               && v'.readers == v.readers && v'.writers == v.writers
               && (sleeps ==> if s.writing then v.readers > 0 else v.writers > 0)
      modifies kernel, procs`asleep, this`calls
      ensures kernel.current == old(kernel.current) >= 0
      ensures Valid()
      ensures OthersOn(old(calls), old(kernel.state), calls, kernel.state, s.key.0)
      ensures n > 0 ==> Roused(calls, kernel.state, s.pipe, !s.writing)
      ensures Roused(calls, kernel.state, s.pipe, s.writing)
              <==> RousedBut(old(calls), old(kernel.state), s.pipe, s.writing, s.key.0)
      ensures calls == CallsAfter(old(calls), s.key.0, sleeps, call)
      ensures kernel.state == StateOver(old(kernel.state), views, table.views, s, s.key.0, sleeps)
      ensures Stays(old(kernel.Now()), kernel.Now()) && kernel.all == old(kernel.all)
      ensures Let(old(kernel.queues), kernel.queues)
    {
      hide Kernel.Valid, Table.Valid, Processes.Valid, Parked, Counted, Tied, OthersOn, Roused, RousedBut, Moved,
           StateAfter, StateOver, CallsAfter, QueuesAfter, Let;
      Invariants();
      var c, q := kernel.current, s.pipe;
      TiedParts(procs.t, procs.asleep, procs.nextPipe, calls, kernel.state, kernel.queues, views, q);
      StretchTied(procs.t, procs.asleep, procs.nextPipe, calls, kernel.state, kernel.queues, kernel.place, views, s, c,
                  table.views[q], n, sleeps, call);
      LetAfter(kernel.queues, q, s.writing, n, c, sleeps);
      Park(q, s.writing, n, sleeps);
      Enter(c, s, sleeps, call);
    }

    /** The pipe of an open descriptor is there. */
    lemma EndIsOpen(s: Spot)
      requires Valid() && OnPipe(procs.t, s)
      ensures s.pipe in table.views && BothOpen(table.views[s.pipe]) && Inside(calls, procs.asleep)
      ensures if s.writing then table.views[s.pipe].writers > 0 else table.views[s.pipe].readers > 0
    {
      hide Counted, Benches;
      TiedParts(procs.t, procs.asleep, procs.nextPipe, calls, kernel.state, kernel.queues, table.views, s.pipe);
      EndIsThere(procs.t, table.views, s);
    }

    /** The one process that holds an end is not asleep on it while it has control. */
    lemma SoloAwake(s: Spot, c: nat)
      requires Valid() && kernel.Running() && c == kernel.current && s.key.0 == c && OnPipe(procs.t, s)
      requires s.pipe in table.views
      ensures Solo(procs.t, s.pipe, s.writing) ==> Sleepers(table.views[s.pipe], s.writing) == []
    {
      hide Counted, Table.Valid, Queued, Fair;
      if Solo(procs.t, s.pipe, s.writing) {
        RunningIsFree(calls, kernel.state, kernel.queues, kernel.place, table.views, c);
        var queue := Sleepers(table.views[s.pipe], s.writing);
        assert s.key in EndHolders(procs.t, s.pipe, s.writing);
        forall p | p in queue ensures p == c {
          assert p in calls && procs.asleep[p].key in EndHolders(procs.t, s.pipe, s.writing);
        }
        HasMember(queue);
      }
    }

    /** `pipe_read` through a descriptor, from its start or from where it woke up. */
    method ReadOn(s: Spot, size: nat) returns (out: Outcome)
      requires Valid() && kernel.Running() && s.key.0 == kernel.current && OnPipe(procs.t, s) && !s.writing
      requires kernel.current in calls ==>
                 calls[kernel.current] == Reading(s.pipe, size) && procs.asleep[kernel.current] == s
      modifies Footprint()
      ensures kernel.current == old(kernel.current) >= 0
      ensures procs.t == old(procs.t) && table.Repr == old(table.Repr) && Stays(old(kernel.Now()), kernel.Now())
      ensures kernel.all == old(kernel.all)
      ensures out != Halted ==>
                && Valid() && (old(Flowing()) ==> Flowing())
                && TightStep(procs.t, old(table.views), table.views)
      ensures ReadChanges(old(Here()), Here(), s.pipe, size, out)
    {
      hide Kernel.Valid, Table.Valid, Processes.Valid, Tied, OthersOn, Roused, RousedBut, AllLive, Moved,
           ReadMoves, CallsAfter, StateAfter, ReadDone, Reads, TightStep, Gone, Let, Waiting, Solo,
           EndHolders, OnPipe, Stays;
      StaysSame(kernel.Now());
      var c, q := kernel.current, s.pipe;
      ghost var views := table.views;
      EndIsOpen(s);
      SoloAwake(s, c);
      var stop, data, n := table.Read(q, c, size);
      AboutRead(views[q], table.views[q], c, size, stop, data, n);
      if stop == Pipe.BugOn {
        return Halted;
      }
      TightAfterRead(procs.t, views, q, table.views[q], c, size, stop, data, n);
      Settle(s, n, stop == Pipe.Asleep, Reading(q, size), views);
      LetIs(old(kernel.queues), kernel.queues);
      ReadFlows(views, old(calls), old(kernel.state), q, table.views[q], calls, kernel.state, c, n > 0);
      out := if stop == Pipe.Asleep then Slept else Done(stop.count, data);
    }

    /** `pipe_write` through a descriptor, from its start or from where it woke up. */
    method WriteOn(s: Spot, data: seq<Byte>, from: nat) returns (out: Outcome)
      requires Valid() && kernel.Running() && s.key.0 == kernel.current && OnPipe(procs.t, s) && s.writing
      requires from < |data| || from == |data| == 0
      requires kernel.current in calls ==>
                 calls[kernel.current] == Writing(s.pipe, data, from) && procs.asleep[kernel.current] == s
      modifies Footprint()
      ensures kernel.current == old(kernel.current) >= 0
      ensures procs.t == old(procs.t) && table.Repr == old(table.Repr) && Stays(old(kernel.Now()), kernel.Now())
      ensures Valid() && kernel.all == old(kernel.all) && TightStep(procs.t, old(table.views), table.views)
      ensures old(Flowing()) ==>
                (Flowing() <==>
                   data != [] || !Strands(old(table.views), old(calls), old(kernel.state), s.pipe, s.key.0))
      ensures WriteChanges(old(Here()), Here(), s.pipe, data, from, out)
    {
      hide Kernel.Valid, Table.Valid, Processes.Valid, Tied, OthersOn, Roused, RousedBut, Strands, AllLive, WriteDone,
           Moved, WriteMoves, Writes, StateAfter, TightStep, Gone, Let, Waiting, Solo, EndHolders, OnPipe, Stays;
      var c, q := kernel.current, s.pipe;
      ghost var views := table.views;
      EndIsOpen(s);
      SoloAwake(s, c);
      var stop, written, n := table.Write(q, c, data, from);
      var call := Writing(q, data, if stop == Pipe.Asleep then written else from);
      AboutWrite(views[q], table.views[q], c, stop, data, from, written, n);
      TightAfterWrite(procs.t, views, q, table.views[q], c, stop, data, from, written, n);
      Settle(s, n, stop == Pipe.Asleep, call, views);
      LetIs(old(kernel.queues), kernel.queues);
      WriteFlows(views, old(calls), old(kernel.state), q, table.views[q], calls, kernel.state, c, from < |data|, n > 0);
      out := if stop == Pipe.Asleep then Slept else Done(stop.count, []);
    }

    /** `release_file` of a descriptor of the process in control, and the store of NULL */
    method Release(k: Key)
      requires Valid() && kernel.Running() && k.0 == kernel.current && k.0 !in calls && k in procs.t.slots
      modifies Footprint()
      ensures Valid() && (old(Flowing()) ==> Flowing()) && table.Repr == old(table.Repr) && calls == old(calls)
      ensures CanDrop(old(procs.t), k) && procs.t == Drop(old(procs.t), k) && procs.cloexec == old(procs.cloexec)
      ensures kernel.current == old(kernel.current) && kernel.Running() && Stays(old(kernel.Now()), kernel.Now())
      ensures kernel.all == old(kernel.all) && Let(old(kernel.queues), kernel.queues)
      ensures Thinned(procs.t, old(table.views), table.views) && TightKept(old(table.views), table.views)
      ensures Rouses(procs.t, calls, old(kernel.state), kernel.state)
      ensures Follows(old(Here()), Here()) && NoRevival(old(procs.t), procs.t)
    {
      hide Table.Valid, Queued, Fair, Parked, Counted, Tied, AllLive, Drop, CanDrop, Closed, Rescued, Awake, Stays,
           Thinned, TightKept, Rouses, Let, Follows, NoRevival, KindsLeft;
      TiedParts(procs.t, procs.asleep, procs.nextPipe, calls, kernel.state, kernel.queues, table.views, 0);
      SlotHasFile(procs.t, k);
      var kind := procs.t.files[procs.t.slots[k]].kind;
      ghost var t, views := procs.t, table.views;
      procs.Release(k);
      if kind.PipeEnd? {
        ReleaseTied(t, procs.asleep, procs.nextPipe, calls, kernel.state, kernel.queues, kernel.place, views, k,
                    kind.pipe, kind.writing);
        var n := table.Release(kind.pipe, kind.writing);
        AwakeKeeps(kernel.state, kernel.queues[QueueOf(kind.pipe, !kind.writing)][..n], k.0);
        LetPipe(kernel.queues, kind.pipe, !kind.writing, n);
        WakeMany(QueueOf(kind.pipe, !kind.writing), n);
      } else {
        StaysSame(kernel.Now());
        LetSame(kernel.queues);
        TightSame(views);
        DropTied(t, procs.asleep, procs.nextPipe, calls, kernel.state, kernel.queues, views, k);
      }
      Released(t, k);
      assert Waiting(kernel.queues) == old(Here()).waiting by { LetIs(old(kernel.queues), kernel.queues); }
      Follow(old(Here()));
    }

    /** `countup_file` and the store into a free slot of a living process */
    method Attach(k: Key, f: nat)
      requires Valid() && k !in procs.t.slots && k.1 < MAX_FD && f in procs.t.files
      requires k.0 in kernel.state && kernel.state[k.0] != Dead
      modifies Footprint()
      ensures Valid() && (old(Flowing()) ==> Flowing()) && table.Repr == old(table.Repr) && calls == old(calls)
      ensures procs.t.slots == old(procs.t).slots[k := f] && procs.cloexec == old(procs.cloexec)
      ensures forall q <- table.views :: q in old(table.views) && SameButEnds(old(table.views)[q], table.views[q])
      ensures SameKinds(old(procs.t), procs.t) && TightKept(old(table.views), table.views)
      ensures kernel.Now() == old(kernel.Now()) && kernel.queues == old(kernel.queues)
      ensures Follows(old(Here()), Here()) && (f in old(procs.t).slots.Values ==> NoRevival(old(procs.t), procs.t))
    {
      hide Table.Valid, Kernel.Valid, Counted, Tied, AllLive, TightKept, SameKinds, KindsLeft, Follows, NoRevival,
           Thinned, Rouses;
      ghost var t, views := procs.t, table.views;
      Facts();
      procs.Attach(k, f);
      AttachTied(t, procs.asleep, procs.nextPipe, calls, kernel.state, kernel.queues, views, k, f);
      var kind := procs.t.files[f].kind;
      AddKinds(t, k, f);
      TightSame(views);
      if kind.PipeEnd? {
        TightOpened(views, kind.pipe, kind.writing);
        table.CountUp(kind.pipe, kind.writing);
      }
      Attached(t, k, f);
      SameLeaves(t, procs.t);
      NothingReleased(procs.t, views, calls, kernel.state);
      EndsThin(procs.t, views, table.views);
      Follow(old(Here()));
    }

    /** `process_close` of the process in control */
    method Close(fd: int) returns (r: int)
      requires Valid() && kernel.Running() && kernel.current !in calls
      modifies Footprint()
      ensures Valid() && (old(Flowing()) ==> Flowing()) && table.Repr == old(table.Repr) && calls == old(calls)
      ensures kernel.current == old(kernel.current) >= 0 && kernel.Running() && Stays(old(kernel.Now()), kernel.Now())
      ensures kernel.all == old(kernel.all) && Let(old(kernel.queues), kernel.queues)
      ensures Thinned(procs.t, old(table.views), table.views) && TightKept(old(table.views), table.views)
      ensures Rouses(procs.t, calls, old(kernel.state), kernel.state)
      ensures r == if HasFile(old(procs.t), kernel.current, fd) then 0 else -EBADF
      ensures r == 0 ==> CanDrop(old(procs.t), (kernel.current, fd))
      ensures r == 0 ==> procs.t == Drop(old(procs.t), (kernel.current, fd))
      ensures r == 0 ==> procs.cloexec == old(procs.cloexec) - {(kernel.current, fd)}
      ensures r != 0 ==> procs.t == old(procs.t) && procs.cloexec == old(procs.cloexec)
      ensures Closes(old(Here()), Here(), fd, r) && NoRevival(old(procs.t), procs.t)
    {
      hide Table.Valid, Kernel.Valid, Counted, Tied, AllLive, Drop, CanDrop, Thinned, TightKept, Rouses, Let, Follows,
           NoRevival;
      var c := kernel.current;
      if !HasFile(procs.t, c, fd) {
        NothingReleased(procs.t, table.views, calls, kernel.state);
        LetSame(kernel.queues);
        NoneRevived(procs.t);
        return -EBADF;
      }
      Release((c, fd));
      DropSlots(old(procs.t), (c, fd));
      Reflagged(old(Here()), Here(), procs.cloexec - {(c, fd)});
      procs.cloexec := procs.cloexec - {(c, fd)};
      r := 0;
    }

    /** `process_switch` */
    method Switch()
      requires Valid()
      modifies kernel
      ensures Valid() && (old(Flowing()) <==> Flowing()) && (kernel.current == NOBODY || kernel.Running())
      ensures Switches(old(kernel.Now()), kernel.Now()) && Here() == old(Here()).(current := kernel.current)
    {
      hide Table.Valid, Queued, Fair, Parked, Counted, Tied, AllLive, Switches;
      kernel.Switch();
    }

    /** The sleep of `process_wait` while no child is dead */
    method AwaitChild()
      requires Valid() && kernel.Running() && kernel.current !in calls
      modifies kernel
      ensures Valid() && (old(Flowing()) ==> Flowing())
      ensures kernel.current == old(kernel.current) >= 0 && Stays(old(kernel.Now()), kernel.Now())
      ensures kernel.state == old(kernel.state)[kernel.current := Blocked]
      ensures Awaits(old(kernel.queues), kernel.queues, kernel.current)
      ensures Here() == old(Here()).(state := kernel.state, waiting := [kernel.current] + old(Here()).waiting)
    {
      hide Table.Valid, Queued, Fair, Parked, Counted, Tied, AllLive;
      var c := kernel.current;
      StoppedTied(procs.t, procs.asleep, procs.nextPipe, calls, kernel.state, kernel.queues, table.views, c,
                  kernel.state[c := Blocked], [c] + kernel.queues[CHILD_QUEUE]);
      kernel.Block(CHILD_QUEUE);
    }

    /** The `process_destroy` of `process_wait` */
    method Reap(p: nat)
      requires Valid() && p in kernel.state && kernel.state[p] == Dead && p != kernel.current
      modifies kernel
      ensures Valid() && (old(Flowing()) ==> Flowing()) && kernel.state == old(kernel.state) - {p}
      ensures kernel.current == old(kernel.current) && Stays(old(kernel.Now()), kernel.Now())
      ensures Here() == old(Here()).(state := kernel.state)
    {
      hide Table.Valid, Queued, Fair, Parked, Counted, Tied, AllLive;
      ReapedTied(procs.t, procs.asleep, procs.nextPipe, calls, kernel.state, kernel.queues, table.views, p);
      kernel.Destroy(p);
    }

    /** `process_exit`; that the process is dead is noted last here, and nothing looks at it before.
        `mid` are the states once the descriptors are released. */
    method Exit() returns (ghost mid: map<nat, State>)
      requires Valid() && kernel.Running() && kernel.current !in calls
      modifies Footprint()
      ensures Valid() && (old(Flowing()) ==> Flowing()) && table.Repr == old(table.Repr) && calls == old(calls)
      ensures kernel.current == old(kernel.current) >= 0 && Stays(old(kernel.Now()), kernel.Now())
      ensures forall k :: k in procs.t.slots <==> k in old(procs.t).slots && k.0 != kernel.current
      ensures forall k <- procs.t.slots :: procs.t.slots[k] == old(procs.t).slots[k]
      ensures kernel.all == old(kernel.all) && KindsLeft(old(procs.t), procs.t)
      ensures Thinned(procs.t, old(table.views), table.views) && TightKept(old(table.views), table.views)
      ensures Rouses(procs.t, calls, old(kernel.state), mid) && Served(procs.t, calls, mid)
      ensures kernel.state == Departed(mid, Waiting(old(kernel.queues)), kernel.current)
      ensures kernel.current in kernel.state && kernel.state[kernel.current] == Dead
      ensures Exits(old(Here()), Here())
    {
      hide Table.Valid, Queued, Fair, Parked, Counted, Tied, AllLive, Drop, CanDrop, Stays, Thinned, TightKept, Rouses,
           KindsLeft, Served, Follows, Exits;
      var c := kernel.current;
      ReleaseAll();
      label L:
      ghost var here := Here();
      mid := kernel.state;
      ghost var queues := kernel.queues;
      var woken := kernel.Exit();
      StoppedTied(procs.t, procs.asleep, procs.nextPipe, calls, mid, queues, table.views, c, kernel.state,
                  kernel.queues[CHILD_QUEUE]);
      assert kernel.queues == queues[CHILD_QUEUE := kernel.queues[CHILD_QUEUE]];
      StaysOn(old(kernel.Now()), old@L(kernel.Now()), kernel.Now());
      ExitIs(old(Here()), here, Here());
    }

    /** The loop of `process_exit` over the descriptors */
    method ReleaseAll()
      requires Valid() && kernel.Running() && kernel.current !in calls
      modifies Footprint()
      ensures Valid() && (old(Flowing()) ==> Flowing()) && table.Repr == old(table.Repr) && calls == old(calls)
      ensures kernel.current == old(kernel.current) && kernel.Running() && Stays(old(kernel.Now()), kernel.Now())
      ensures forall k :: k in procs.t.slots <==> k in old(procs.t).slots && k.0 != kernel.current
      ensures forall k <- procs.t.slots :: procs.t.slots[k] == old(procs.t).slots[k]
      ensures kernel.all == old(kernel.all) && Let(old(kernel.queues), kernel.queues)
      ensures KindsLeft(old(procs.t), procs.t)
      ensures Thinned(procs.t, old(table.views), table.views) && TightKept(old(table.views), table.views)
      ensures Rouses(procs.t, calls, old(kernel.state), kernel.state) && Served(procs.t, calls, kernel.state)
      ensures Follows(old(Here()), Here()) && procs.cloexec == old(procs.cloexec)
    {
      hide Table.Valid, Kernel.Valid, Counted, Tied, AllLive, CanDrop, Stays, Thinned, TightKept, Rouses, Let,
           KindsLeft, Served, Follows, NoRevival;
      var c := kernel.current;
      StaysSame(kernel.Now());
      FollowSelf();
      NothingReleased(procs.t, table.views, calls, kernel.state);
      LetSame(kernel.queues);
      AllLeft(procs.t);
      var i := 0;
      while i < MAX_FD
        invariant 0 <= i <= MAX_FD && Valid() && (old(Flowing()) ==> Flowing())
        invariant table.Repr == old(table.Repr) && calls == old(calls)
        invariant kernel.current == c && kernel.Running() && Stays(old(kernel.Now()), kernel.Now())
        invariant forall k :: k in procs.t.slots <==> k in old(procs.t).slots && !(k.0 == c && k.1 < i)
        invariant forall k <- procs.t.slots :: procs.t.slots[k] == old(procs.t).slots[k]
        invariant kernel.all == old(kernel.all) && Let(old(kernel.queues), kernel.queues)
        invariant KindsLeft(old(procs.t), procs.t)
        invariant Thinned(procs.t, old(table.views), table.views) && TightKept(old(table.views), table.views)
        invariant Rouses(procs.t, calls, old(kernel.state), kernel.state)
        invariant Follows(old(Here()), Here()) && procs.cloexec == old(procs.cloexec)
      {
        if (c, i) in procs.t.slots {
          ghost var t, views, state, queues, now := procs.t, table.views, kernel.state, kernel.queues, kernel.Now();
          ghost var here := Here();
          Release((c, i));
          FollowsOn(old(Here()), here, Here());
          StaysOn(old(kernel.Now()), now, kernel.Now());
          DropLeaves(old(procs.t), t, (c, i));
          LetOn(old(kernel.queues), queues, kernel.queues);
          ReleasedMore(t, (c, i), old(table.views), views, table.views, calls, old(kernel.state), state, kernel.state);
        }
        i := i + 1;
      }
      AllServed();
    }

    /** `process_read` */
    method Read(fd: int, size: nat) returns (out: Outcome)
      requires Valid() && kernel.Running() && kernel.current !in calls
      modifies Footprint()
      ensures kernel.current == old(kernel.current) >= 0
      ensures procs.t == old(procs.t) && table.Repr == old(table.Repr) && Stays(old(kernel.Now()), kernel.Now())
      ensures kernel.all == old(kernel.all)
      ensures out != Halted ==>
                Valid() && (old(Flowing()) ==> Flowing()) && (NoEmptyWrite(old(calls)) ==> NoEmptyWrite(calls))
      ensures out != Halted ==> TightStep(procs.t, old(table.views), table.views)
      ensures out != Halted ==> (kernel.current in calls <==> out == Slept)
      ensures match Target(procs.t, kernel.current, fd)
              case Some(PipeEnd(q, false)) => ReadChanges(old(Here()), Here(), q, size, out)
              case Some(PipeEnd(q, true)) => out == Done(-EBADF, []) && Here() == old(Here())
              case Some(_) => out == Elsewhere && Here() == old(Here())
              case None => out == Done(-EBADF, []) && Here() == old(Here())
    {
      hide Kernel.Valid, Table.Valid, Counted, Tied, AllLive, ReadChanges, Target, CallsAfter, NoEmptyWrite, TightKept,
           TightStep;
      var c := kernel.current;
      StaysSame(kernel.Now());
      TightSame(table.views);
      TightKeeps(procs.t, table.views, table.views);
      TargetFound(procs.t, c, fd);
      match Target(procs.t, c, fd)
      case Some(PipeEnd(q, writing)) =>
        if writing {
          return Done(-EBADF, []);
        }
        out := ReadOn(Spot((c, fd), q, false), size);
        if out != Halted {
          ReadCalls(old(Here()), Here(), q, size, out);
        }
      case Some(_) =>
        out := Elsewhere;
      case None =>
        out := Done(-EBADF, []);
    }

    /** `process_write` */
    method Write(fd: int, data: seq<Byte>) returns (out: Outcome)
      requires Valid() && kernel.Running() && kernel.current !in calls
      modifies Footprint()
      ensures kernel.current == old(kernel.current) >= 0
      ensures procs.t == old(procs.t) && table.Repr == old(table.Repr) && Stays(old(kernel.Now()), kernel.Now())
      ensures kernel.all == old(kernel.all)
      ensures Valid() && (old(Flowing()) ==> Flowing()) && TightStep(procs.t, old(table.views), table.views)
      ensures NoEmptyWrite(old(calls)) && data != [] ==> NoEmptyWrite(calls)
      ensures kernel.current in calls <==> out == Slept
      ensures match Target(procs.t, kernel.current, fd)
              case Some(PipeEnd(q, true)) => WriteChanges(old(Here()), Here(), q, data, 0, out)
              case Some(PipeEnd(q, false)) => out == Done(-EBADF, []) && Here() == old(Here())
              case Some(_) => out == Elsewhere && Here() == old(Here())
              case None => out == Done(-EBADF, []) && Here() == old(Here())
    {
      hide Kernel.Valid, Table.Valid, Counted, Tied, AllLive, WriteChanges, Target, Reached, Strands, CallsAfter,
           NoEmptyWrite, TightKept, TightStep;
      var c := kernel.current;
      StaysSame(kernel.Now());
      TightSame(table.views);
      TightKeeps(procs.t, table.views, table.views);
      TargetFound(procs.t, c, fd);
      match Target(procs.t, c, fd)
      case Some(PipeEnd(q, writing)) =>
        if !writing {
          return Done(-EBADF, []);
        }
        NewcomerStrandsNone(table.views, calls, kernel.state, q, c);
        out := WriteOn(Spot((c, fd), q, true), data, 0);
        WriteCalls(old(Here()), Here(), q, data, 0, out);
      case Some(_) =>
        out := Elsewhere;
      case None =>
        out := Done(-EBADF, []);
    }

    /** A process that was woken on a pipe goes on where it slept. */
    method Resume() returns (out: Outcome)
      requires Valid() && kernel.Running() && kernel.current in calls
      modifies Footprint()
      ensures kernel.current == old(kernel.current) >= 0
      ensures procs.t == old(procs.t) && table.Repr == old(table.Repr) && Stays(old(kernel.Now()), kernel.Now())
      ensures kernel.all == old(kernel.all)
      ensures out != Halted ==> Valid() && (NoEmptyWrite(old(calls)) ==> NoEmptyWrite(calls))
      ensures out != Halted && old(Flowing()) ==>
                (Flowing() <==> !Fails(old(table.views), old(calls), old(kernel.state), kernel.current))
      ensures out != Halted ==> TightStep(procs.t, old(table.views), table.views)
      ensures out != Halted ==> (kernel.current in calls <==> out == Slept)
      ensures match old(calls)[kernel.current]
              case Reading(q, size) => ReadChanges(old(Here()), Here(), q, size, out)
              case Writing(q, data, from) => WriteChanges(old(Here()), Here(), q, data, from, out)
    {
      hide Kernel.Valid, Table.Valid, Counted, Tied, AllLive, ReadChanges, WriteChanges, Reached, CallsAfter,
           NoEmptyWrite, Strands, TightStep;
      var c := kernel.current;
      TiedParts(procs.t, procs.asleep, procs.nextPipe, calls, kernel.state, kernel.queues, table.views, 0);
      match calls[c]
      case Reading(q, size) =>
        out := ReadOn(procs.asleep[c], size);
        if out != Halted {
          ReadCalls(old(Here()), Here(), q, size, out);
        }
      case Writing(q, data, written) =>
        SeatWrites(calls, kernel.state, kernel.queues, table.views, c);
        NotEmptyWrite(calls, c);
        out := WriteOn(procs.asleep[c], data, written);
        WriteCalls(old(Here()), Here(), q, data, written, out);
    }

    /** `pipe_create` with its two queues */
    method Create(q: nat)
      requires kernel.Valid() && table.Valid() && Apart() && q !in table.views
      requires QueueOf(q, false) !in kernel.queues && QueueOf(q, true) !in kernel.queues
      modifies table, kernel`queues
      ensures kernel.Valid() && table.Valid() && Apart() && fresh(table.Repr - old(table.Repr))
      ensures table.views == old(table.views)[q := NewView()]
      ensures kernel.queues == old(kernel.queues)[QueueOf(q, false) := []][QueueOf(q, true) := []]
    {
      hide Kernel.Valid, Table.Valid;
      table.Create(q);
      kernel.NewQueue(QueueOf(q, false));
      kernel.NewQueue(QueueOf(q, true));
    }

    /** `process_pipe2` */
    method Pipe2(known: bool, closing: bool) returns (r: int, rfd: int, wfd: int)
      requires Valid() && kernel.Running() && kernel.current !in calls
      modifies Footprint()
      ensures Valid() && (old(Flowing()) ==> Flowing()) && fresh(table.Repr - old(table.Repr)) && calls == old(calls)
      ensures kernel.current == old(kernel.current) >= 0 && kernel.Now() == old(kernel.Now())
      ensures r == if !known then -EINVAL else if TwoFree(old(procs.t), kernel.current) then 0 else -EMFILE
      ensures TightKept(old(table.views), table.views)
      ensures r == 0 ==>
                && old(procs.nextPipe) !in old(table.views)
                && table.views == old(table.views)[old(procs.nextPipe) := NewView()]
                && Connected(procs.t, kernel.current, rfd, wfd, old(procs.nextPipe))
                && procs.t.slots.Keys == old(procs.t).slots.Keys + {(kernel.current, rfd), (kernel.current, wfd)}
                && (forall k <- old(procs.t).slots :: procs.t.slots[k] == old(procs.t).slots[k])
                && procs.cloexec
                   == (if closing then old(procs.cloexec) + {(kernel.current, rfd), (kernel.current, wfd)}
                       else old(procs.cloexec))
      ensures r != 0 ==> procs.t.slots == old(procs.t).slots && table.views == old(table.views)
      ensures Pipes(old(Here()), Here(), known, closing, r)
    {
      hide Kernel.Valid, Table.Valid, Counted, Tied, AllLive, TwoFree, Connected, TightKept, KindsLeft, Lowest,
           Retracted, Waiting;
      ghost var t, views := procs.t, table.views;
      TiedParts(procs.t, procs.asleep, procs.nextPipe, calls, kernel.state, kernel.queues, table.views, 0);
      var q := procs.nextPipe;
      TightSame(views);
      TightNew(views, q);
      r, rfd, wfd := procs.Pipe2(kernel.current, known, closing);
      if r == 0 {
        AreConnected(procs.t, kernel.current, rfd, wfd, q);
        PipeTied(t, procs.t, procs.asleep, q, calls, kernel.state, kernel.queues, views, kernel.current);
        LetNew(kernel.queues, q);
        Create(q);
        assert PipeOn(old(Here()), Here(), closing, rfd, wfd, q);
      } else {
        SameTied(t, procs.t, procs.asleep, procs.nextPipe, calls, kernel.state, kernel.queues, views);
      }
      Facts();
    }

    /** `process_alloc`: a process without descriptors */
    method NewProcess() returns (p: nat)
      requires Valid()
      modifies kernel, procs`cloexec
      ensures Valid() && (old(Flowing()) ==> Flowing())
      ensures p !in old(kernel.state) && kernel.state == old(kernel.state)[p := Ready]
      ensures p !in calls && p !in procs.asleep && forall k <- procs.t.slots :: k.0 != p
      ensures kernel.current == old(kernel.current) && Stays(old(kernel.Now()), kernel.Now())
      ensures kernel.all == [p] + old(kernel.all) && kernel.queues == old(kernel.queues)
      ensures procs.cloexec == set k | k in old(procs.cloexec) && k.0 != p
    {
      hide Table.Valid, Queued, Fair, Parked, Counted, Tied, AllLive, Stays;
      ghost var state := kernel.state;
      p := kernel.Alloc();
      procs.cloexec := set k | k in procs.cloexec && k.0 != p;
      NewTied(procs.t, procs.asleep, procs.nextPipe, calls, state, kernel.queues, table.views, p);
    }

    /** `process_create` and `create_tty` */
    method Start() returns (p: nat)
      requires Valid()
      modifies kernel, procs`t, procs`nextFile, procs`cloexec
      ensures Valid() && (old(Flowing()) ==> Flowing())
      ensures p !in old(kernel.state) && kernel.state == old(kernel.state)[p := Ready] && p !in calls
      ensures kernel.current == old(kernel.current) && Stays(old(kernel.Now()), kernel.Now())
      ensures kernel.all == [p] + old(kernel.all) && procs.cloexec == set k | k in old(procs.cloexec) && k.0 != p
      ensures old(procs.nextFile) !in old(procs.t).files && procs.t.pipes == old(procs.t).pipes
      ensures procs.t.files == old(procs.t).files[old(procs.nextFile) := File(Tty, 3)]
      ensures var f := old(procs.nextFile);
              procs.t.slots == old(procs.t).slots[(p, 0) := f][(p, 1) := f][(p, 2) := f]
    {
      hide Kernel.Valid, Table.Valid, Counted, Tied, AllLive, Stays;
      p := NewProcess();
      ghost var t := procs.t;
      procs.OpenTerminal(p);
      MoreTied(t, procs.t, procs.asleep, procs.nextPipe, calls, kernel.state, kernel.queues, table.views, p);
    }

    /** `process_fork`: the child gets every descriptor of its parent. */
    method Fork() returns (child: nat)
      requires Valid() && kernel.Running() && kernel.current !in calls
      modifies Footprint()
      ensures Valid() && (old(Flowing()) ==> Flowing()) && table.Repr == old(table.Repr) && calls == old(calls)
      ensures kernel.current == old(kernel.current) >= 0 && kernel.Running() && Stays(old(kernel.Now()), kernel.Now())
      ensures child !in old(kernel.state) && kernel.state == old(kernel.state)[child := Ready] && child !in calls
      ensures kernel.all == [child] + old(kernel.all) && SameKinds(old(procs.t), procs.t)
      ensures forall k <- old(procs.t).slots :: k.0 != child
      ensures procs.cloexec == set k | k in old(procs.cloexec) && k.0 != child
      ensures forall q <- table.views ::
                q in old(table.views) && SameButEnds(old(table.views)[q], table.views[q])
      ensures TightKept(old(table.views), table.views)
      ensures forall k :: k in procs.t.slots <==>
                k in old(procs.t).slots || (k.0 == child && (kernel.current, k.1) in old(procs.t).slots)
      ensures forall k <- procs.t.slots ::
                procs.t.slots[k]
                == if k.0 == child then old(procs.t).slots[(kernel.current, k.1)] else old(procs.t).slots[k]
      ensures Forks(old(Here()), Here(), child)
    {
      hide Table.Valid, Kernel.Valid, Counted, Tied, AllLive, Stays, TightKept, SameKinds, SameButEnds, Follows, Forks;
      child := NewProcess();
      ghost var here := Here();
      Inherit(kernel.current, child);
      ForkIs(old(Here()), here, Here(), child);
    }

    /** The loop of `process_fork` over the descriptors */
    method Inherit(c: nat, child: nat)
      requires Valid() && c != child && child in kernel.state && kernel.state[child] != Dead
      requires forall k <- procs.t.slots :: k.0 != child
      modifies Footprint()
      ensures Valid() && (old(Flowing()) ==> Flowing()) && table.Repr == old(table.Repr) && calls == old(calls)
      ensures kernel.Now() == old(kernel.Now()) && kernel.queues == old(kernel.queues)
      ensures procs.cloexec == old(procs.cloexec)
      ensures SameKinds(old(procs.t), procs.t) && TightKept(old(table.views), table.views)
      ensures forall q <- table.views :: q in old(table.views) && SameButEnds(old(table.views)[q], table.views[q])
      ensures forall k :: k in procs.t.slots <==>
                k in old(procs.t).slots || (k.0 == child && (c, k.1) in old(procs.t).slots)
      ensures forall k <- procs.t.slots ::
                procs.t.slots[k] == if k.0 == child then old(procs.t).slots[(c, k.1)] else old(procs.t).slots[k]
      ensures Follows(old(Here()), Here())
    {
      hide Table.Valid, Kernel.Valid, Counted, Tied, AllLive, TightKept, SameKinds, SameButEnds, Follows, NoRevival;
      TightSame(table.views);
      KindsSame(procs.t);
      FollowSelf();
      EndsSame(table.views);
      SlotsLow();
      var i := 0;
      while i < MAX_FD
        invariant 0 <= i <= MAX_FD && Valid() && (old(Flowing()) ==> Flowing())
        invariant table.Repr == old(table.Repr) && calls == old(calls)
        invariant kernel.Now() == old(kernel.Now()) && kernel.queues == old(kernel.queues)
        invariant TightKept(old(table.views), table.views) && SameKinds(old(procs.t), procs.t)
        invariant procs.cloexec == old(procs.cloexec) && Follows(old(Here()), Here())
        invariant forall q <- table.views :: q in old(table.views) && SameButEnds(old(table.views)[q], table.views[q])
        invariant forall k :: k in procs.t.slots <==>
                    k in old(procs.t).slots || (k.0 == child && k.1 < i && (c, k.1) in old(procs.t).slots)
        invariant forall k <- procs.t.slots ::
                    procs.t.slots[k] == if k.0 == child then old(procs.t).slots[(c, k.1)] else old(procs.t).slots[k]
      {
        if (c, i) in procs.t.slots {
          ghost var t, views, here := procs.t, table.views, Here();
          Facts();
          SlotHasFile(procs.t, (c, i));
          assert procs.t.slots[(c, i)] in procs.t.slots.Values;
          Attach((child, i), procs.t.slots[(c, i)]);
          TightTwice(old(table.views), views, table.views);
          KindsTwice(old(procs.t), t, procs.t);
          EndsTwice(old(table.views), views, table.views);
          FollowsOn(old(Here()), here, Here());
        }
        i := i + 1;
      }
    }

    lemma SlotsLow()
      requires Valid()
      ensures forall k <- procs.t.slots :: k.1 < MAX_FD
    {
      hide Counted, Tied, Kernel.Valid, Table.Valid;
    }

    /** `process_open`; `outcome` is 0 or the error of creating or looking up the path. */
    method Open(outcome: int, closing: bool) returns (fd: int)
      requires Valid() && kernel.Running() && kernel.current !in calls && outcome <= 0
      modifies procs`t, procs`cloexec, procs`nextFile
      ensures Valid() && (old(Flowing()) ==> Flowing())
      ensures fd >= 0 <==>
                outcome == 0 && exists i :: 0 <= i < MAX_FD && (kernel.current, i) !in old(procs.t).slots
      ensures fd >= 0 ==>
                && (kernel.current, fd) !in old(procs.t).slots && old(procs.nextFile) !in old(procs.t).files
                && procs.t.slots == old(procs.t).slots[(kernel.current, fd) := old(procs.nextFile)]
                && procs.t.files == old(procs.t).files[old(procs.nextFile) := File(Regular, 1)]
                && procs.cloexec
                   == (if closing then old(procs.cloexec) + {(kernel.current, fd)} else old(procs.cloexec))
      ensures fd < 0 ==>
                && procs.t.slots == old(procs.t).slots
                && fd == if forall i :: 0 <= i < MAX_FD ==> (kernel.current, i) in old(procs.t).slots then -EMFILE
                         else outcome
      ensures Opens(old(Here()), Here(), outcome, closing, fd)
    {
      hide Table.Valid, Kernel.Valid, Counted, Tied, AllLive, KindsLeft, Lowest, Retracted;
      TiedParts(procs.t, procs.asleep, procs.nextPipe, calls, kernel.state, kernel.queues, table.views, 0);
      ghost var t := procs.t;
      fd := procs.Open(kernel.current, outcome, closing);
      MoreTied(t, procs.t, procs.asleep, procs.nextPipe, calls, kernel.state, kernel.queues, table.views,
               kernel.current);
      Facts();
    }

    /** `process_dupfd`: the lowest free descriptor from `from` on. */
    method DupFd(fd: int, from: int, closing: bool) returns (r: int)
      requires Valid() && kernel.Running() && kernel.current !in calls
      modifies Footprint()
      ensures Valid() && (old(Flowing()) ==> Flowing()) && table.Repr == old(table.Repr) && calls == old(calls)
      ensures TightKept(old(table.views), table.views)
      ensures kernel.current == old(kernel.current) >= 0 && kernel.Now() == old(kernel.Now())
      ensures r < 0 ==> procs.t == old(procs.t) && procs.cloexec == old(procs.cloexec)
      ensures r >= 0 ==>
                && HasFile(old(procs.t), kernel.current, fd) && 0 <= from <= r < MAX_FD
                && (forall i :: from <= i <= r ==> ((kernel.current, i) in old(procs.t).slots <==> i < r))
                && procs.t.slots == old(procs.t).slots[(kernel.current, r) := old(procs.t).slots[(kernel.current, fd)]]
                && procs.cloexec == if closing then old(procs.cloexec) + {(kernel.current, r)} else old(procs.cloexec)
      ensures r < 0 ==> r == if !HasFile(old(procs.t), kernel.current, fd) then -EBADF
                             else if !(0 <= from < MAX_FD) then -EINVAL else -EMFILE
      ensures r == -EMFILE ==> forall i :: from <= i < MAX_FD ==> (kernel.current, i) in old(procs.t).slots
      ensures Dups(old(Here()), Here(), fd, from, closing, r)
    {
      hide Table.Valid, Kernel.Valid, Counted, Tied, AllLive, TightKept, Follows, NoRevival, SameKinds, SameButEnds;
      var c := kernel.current;
      TightSame(table.views);
      if !HasFile(procs.t, c, fd) {
        return -EBADF;
      }
      if !(0 <= from < MAX_FD) {
        return -EINVAL;
      }
      r := from;
      while r < MAX_FD
        invariant from <= r <= MAX_FD && forall i :: from <= i < r ==> (c, i) in procs.t.slots
      {
        if (c, r) !in procs.t.slots {
          SlotHasFile(procs.t, (c, fd));
          Attach((c, r), procs.t.slots[(c, fd)]);
          if closing {
            Reflagged(old(Here()), Here(), procs.cloexec + {(c, r)});
            procs.cloexec := procs.cloexec + {(c, r)};
          }
          return;
        }
        r := r + 1;
      }
      r := -EMFILE;
    }

    /** The common end of `process_dup2` and `process_dup3` on two different descriptors */
    method Replace(oldfd: nat, newfd: nat)
      requires Valid() && kernel.Running() && kernel.current !in calls
      requires HasFile(procs.t, kernel.current, oldfd) && newfd < MAX_FD && oldfd != newfd
      modifies Footprint()
      ensures Valid() && (old(Flowing()) ==> Flowing()) && table.Repr == old(table.Repr) && calls == old(calls)
      ensures TightKept(old(table.views), table.views)
      ensures kernel.current == old(kernel.current) >= 0 && Stays(old(kernel.Now()), kernel.Now())
      ensures procs.t.slots
              == old(procs.t).slots[(kernel.current, newfd) := old(procs.t).slots[(kernel.current, oldfd)]]
      ensures procs.cloexec == if (kernel.current, newfd) in old(procs.t).slots
                               then old(procs.cloexec) - {(kernel.current, newfd)} else old(procs.cloexec)
      ensures Replaces(old(Here()), Here(), oldfd, newfd)
    {
      hide Table.Valid, Kernel.Valid, Counted, Tied, AllLive, TightKept, CanDrop, Stays, Follows, NoRevival, SameKinds,
           SameButEnds, Thinned, Rouses, Let, Drop;
      var c := kernel.current;
      StaysSame(kernel.Now());
      TightSame(table.views);
      var f := procs.t.slots[(c, oldfd)];
      FollowSelf();
      if (c, newfd) in procs.t.slots {
        var closed := Close(newfd);
      }
      ghost var views, here := table.views, Here();
      SlotHasFile(procs.t, (c, oldfd));
      Attach((c, newfd), f);
      TightTwice(old(table.views), views, table.views);
      FollowsOn(old(Here()), here, Here());
    }

    /** `process_dup2` */
    method Dup2(oldfd: int, newfd: int) returns (r: int)
      requires Valid() && kernel.Running() && kernel.current !in calls
      modifies Footprint()
      ensures Valid() && (old(Flowing()) ==> Flowing()) && table.Repr == old(table.Repr) && calls == old(calls)
      ensures TightKept(old(table.views), table.views)
      ensures kernel.current == old(kernel.current) >= 0 && Stays(old(kernel.Now()), kernel.Now())
      ensures r == if HasFile(old(procs.t), kernel.current, oldfd) && 0 <= newfd < MAX_FD then newfd else -EBADF
      ensures r < 0 || oldfd == newfd ==> procs.t == old(procs.t) && procs.cloexec == old(procs.cloexec)
      ensures r >= 0 ==>
                procs.t.slots
                == old(procs.t).slots[(kernel.current, newfd) := old(procs.t).slots[(kernel.current, oldfd)]]
      ensures r >= 0 && oldfd != newfd ==>
                procs.cloexec == if (kernel.current, newfd) in old(procs.t).slots
                                 then old(procs.cloexec) - {(kernel.current, newfd)} else old(procs.cloexec)
      ensures Dups2(old(Here()), Here(), oldfd, newfd, r)
    {
      hide Table.Valid, Kernel.Valid, Counted, Tied, AllLive, TightKept, Stays, Replaces;
      StaysSame(kernel.Now());
      TightSame(table.views);
      if !HasFile(procs.t, kernel.current, oldfd) || !(0 <= newfd < MAX_FD) {
        return -EBADF;
      }
      if oldfd != newfd {
        Replace(oldfd, newfd);
      }
      r := newfd;
    }

    /** `process_dup3` */
    method Dup3(oldfd: int, newfd: int, closing: bool) returns (r: int)
      requires Valid() && kernel.Running() && kernel.current !in calls
      modifies Footprint()
      ensures Valid() && (old(Flowing()) ==> Flowing()) && table.Repr == old(table.Repr) && calls == old(calls)
      ensures TightKept(old(table.views), table.views)
      ensures kernel.current == old(kernel.current) >= 0 && Stays(old(kernel.Now()), kernel.Now())
      ensures r == if !HasFile(old(procs.t), kernel.current, oldfd) || !(0 <= newfd < MAX_FD) then -EBADF
                   else if oldfd == newfd then -EINVAL else newfd
      ensures r < 0 ==> procs.t == old(procs.t) && procs.cloexec == old(procs.cloexec)
      ensures r >= 0 ==>
                && procs.t.slots
                   == old(procs.t).slots[(kernel.current, newfd) := old(procs.t).slots[(kernel.current, oldfd)]]
                && procs.cloexec == if closing then old(procs.cloexec) + {(kernel.current, newfd)}
                                    else if (kernel.current, newfd) in old(procs.t).slots
                                    then old(procs.cloexec) - {(kernel.current, newfd)} else old(procs.cloexec)
      ensures Dups3(old(Here()), Here(), oldfd, newfd, closing, r)
    {
      hide Table.Valid, Kernel.Valid, Counted, Tied, AllLive, TightKept, Stays, Replaces;
      StaysSame(kernel.Now());
      TightSame(table.views);
      if !HasFile(procs.t, kernel.current, oldfd) || !(0 <= newfd < MAX_FD) {
        return -EBADF;
      }
      if oldfd == newfd {
        return -EINVAL;
      }
      Replace(oldfd, newfd);
      if closing {
        ReplacesFlags(old(Here()), Here(), oldfd, newfd, procs.cloexec + {(kernel.current, newfd)});
        procs.cloexec := procs.cloexec + {(kernel.current, newfd)};
      }
      r := newfd;
    }

    /** The loop of `process_exec` over the descriptors */
    method CloseOnExec()
      requires Valid() && kernel.Running() && kernel.current !in calls
      modifies Footprint()
      ensures Valid() && (old(Flowing()) ==> Flowing()) && table.Repr == old(table.Repr) && calls == old(calls)
      ensures TightKept(old(table.views), table.views)
      ensures kernel.current == old(kernel.current) >= 0 && Stays(old(kernel.Now()), kernel.Now())
      ensures forall k :: k in procs.t.slots <==>
                k in old(procs.t).slots && !(k.0 == kernel.current && k in old(procs.cloexec))
      ensures forall k <- procs.t.slots :: procs.t.slots[k] == old(procs.t).slots[k]
      ensures forall k: Key :: k in procs.cloexec <==>
                k in old(procs.cloexec) && !(k.0 == kernel.current && k in old(procs.t).slots)
      ensures Execs(old(Here()), Here())
    {
      hide Table.Valid, Kernel.Valid, Counted, Tied, AllLive, TightKept, CanDrop, Stays, Follows, NoRevival, Thinned,
           Rouses, Let, Drop;
      var c := kernel.current;
      FollowSelf();
      StaysSame(kernel.Now());
      TightSame(table.views);
      var i := 0;
      while i < MAX_FD
        invariant 0 <= i <= MAX_FD && Valid() && (old(Flowing()) ==> Flowing())
        invariant table.Repr == old(table.Repr) && calls == old(calls) && TightKept(old(table.views), table.views)
        invariant kernel.current == c && kernel.Running() && Stays(old(kernel.Now()), kernel.Now())
        invariant forall k :: k in procs.t.slots <==>
                    k in old(procs.t).slots && !(k.0 == c && k.1 < i && k in old(procs.cloexec))
        invariant forall k <- procs.t.slots :: procs.t.slots[k] == old(procs.t).slots[k]
        invariant forall k: Key :: k in procs.cloexec <==>
                    k in old(procs.cloexec) && !(k.0 == c && k.1 < i && k in old(procs.t).slots)
        invariant Follows(old(Here()), Here())
      {
        if (c, i) in procs.t.slots && (c, i) in procs.cloexec {
          label L:
          ghost var views, here := table.views, Here();
          var closed := Close(i);
          FollowsOn(old(Here()), here, Here());
          TightTwice(old(table.views), views, table.views);
          StaysOn(old(kernel.Now()), old@L(kernel.Now()), kernel.Now());
        }
        i := i + 1;
      }
    }

    /** Who sleeps on a pipe waits for a process that lives and has the other end open. */
    lemma NobodyAbandoned(p: nat) returns (k: Key)
      requires Valid() && p in calls && p in kernel.state && kernel.state[p] == Blocked
      ensures k in procs.t.slots && k.0 in kernel.state && kernel.state[k.0] != Dead
      ensures IsEnd(procs.t, procs.t.slots[k], calls[p].pipe, !calls[p].Writing?)
    {
      hide Table.Valid, Queued, Fair, Parked;
      var q, w := calls[p].pipe, calls[p].Writing?;
      assert SeatOf(table.views, calls[p], kernel.state, p) && p in Sleepers(table.views[q], w);
      assert BothOpen(table.views[q]);
      assert EndHolders(procs.t, q, !w) != {};
      k :| k in EndHolders(procs.t, q, !w);
    }

    lemma Facts()
      requires Valid()
      ensures Counted(procs.t)
    {
      hide Counted, Tied, Kernel.Valid, Table.Valid;
    }

    lemma AllServed()
      requires Valid()
      ensures Served(procs.t, calls, kernel.state)
    {
      hide Valid;
      forall p | p in calls && p in kernel.state && kernel.state[p] == Blocked
        ensures EndHolders(procs.t, calls[p].pipe, !calls[p].Writing?) != {}
      {
        var k := NobodyAbandoned(p);
        assert k in EndHolders(procs.t, calls[p].pipe, !calls[p].Writing?);
      }
    }

    /** The pipes and the sleepers are as the descriptors leave them. */
    lemma Follow(m: Moment)
      requires Valid() && calls == m.calls && kernel.current == m.current && Waiting(kernel.queues) == m.waiting
      requires Thinned(procs.t, m.views, table.views) && Rouses(procs.t, calls, m.state, kernel.state)
      requires KindsLeft(m.t, procs.t)
      ensures Follows(m, Here())
    {
      hide Valid, Tied, Thinned, Rouses, Left, Relieved, Counted, KindsLeft, Served;
      Facts();
      AllServed();
      OpenPipes();
      LeftIs(procs.t, m.views, table.views);
      RelievedIs(procs.t, calls, m.state, kernel.state);
    }

    /** Nothing happened. */
    lemma FollowSelf()
      requires Valid()
      ensures Follows(Here(), Here())
    {
      hide Valid, Thinned, Rouses, KindsLeft, Follows;
      NothingReleased(procs.t, table.views, calls, kernel.state);
      AllLeft(procs.t);
      Follow(Here());
    }

    lemma OpenPipes()
      requires Valid()
      ensures Counts(procs.t.pipes, table.views) && forall q <- table.views :: BothOpen(table.views[q])
    {
      hide Kernel.Valid, Table.Valid, Processes.Valid, Counts;
    }

    /** If all who are blocked are inside calls on pipes, nobody waits for a child. */
    lemma NobodyAwaits()
      requires Valid() && forall p <- kernel.state :: kernel.state[p] == Blocked ==> p in calls
      ensures CHILD_QUEUE in kernel.queues && kernel.queues[CHILD_QUEUE] == []
    {
      hide Queued, Fair, Counted, Table.Valid, NoDup;
      var queue := kernel.queues[CHILD_QUEUE];
      forall p | p in queue ensures QueueOf(calls[p].pipe, calls[p].Writing?) == CHILD_QUEUE {
        var q, w := calls[p].pipe, calls[p].Writing?;
        assert SeatOf(table.views, calls[p], kernel.state, p);
        assert kernel.queues[QueueOf(q, w)] == Sleepers(table.views[q], w);
      }
      HasMember(queue);
    }

    /** When nobody can run, no pipe has sleepers on both ends, writers asleep have something in
        the pipe to be read, and readers asleep have room in it to be written to. */
    lemma IdleMeansWaiting(q: nat)
      requires Valid() && Flowing() && q in table.views
      requires forall p <- kernel.state :: kernel.state[p] != Ready
      ensures var v := table.views[q];
              && (v.rq == [] || v.wq == [])
              && (v.wq != [] ==> v.length > 0 && v.readers > 0)
              && (v.rq != [] ==> v.length < PAGE_SIZE && v.writers > 0)
    {
      hide Queued, Fair, Parked, Counted, Seated, Shared, Pipe.Conserved;
      assert BothOpen(table.views[q]) && table.views[q].length == table.pipes[q].length;
    }

    ghost function Here(): Moment
      reads this, kernel, procs, table
    {
      Moment(table.views, calls, kernel.state, kernel.current, procs.t, procs.cloexec, Waiting(kernel.queues))
    }

    /** One step of the machine: the process in control goes on with the call it was woken from or
        makes the call it chooses, and gives up control. */
    method Step(op: Op) returns (halted: bool, out: Outcome, ghost mid: Snapshot)
      requires Valid() && (kernel.current == NOBODY || kernel.Running())
      modifies Footprint()
      ensures fresh(table.Repr - old(table.Repr))
      ensures halted <==> Halting(old(Here()), op)
      ensures !halted ==>
                && Valid() && (kernel.current == NOBODY || kernel.Running())
                && Advances(old(Here()), op, out, Here())
                && (NoEmptyWrite(old(calls)) && !EmptyWrite(op) ==> NoEmptyWrite(calls))
                && Stays(old(kernel.Now()), mid) && Switches(mid, kernel.Now())
    {
      hide Table.Valid, Kernel.Valid, Processes.Valid, Tied, Stays, Switches, AllLive, NoEmptyWrite, TightStep, Fails,
           ReadChanges, WriteChanges, Performs, Halting;
      out, mid := Elsewhere, kernel.Now();
      StaysSame(mid);
      TightSame(table.views);
      TightKeeps(procs.t, table.views, table.views);
      OutsideNeverFails(table.views, calls, kernel.state, kernel.current);
      if kernel.current != NOBODY {
        if kernel.current in calls {
          out := Resume();
        } else {
          out := Perform(op);
        }
        mid := kernel.Now();
      }
      HaltsOnly(old(Here()), op, out, Here());
      halted := out == Halted;
      if !halted {
        ghost var here := Here();
        Switch();
        assert Here().(current := here.current) == here;
      }
    }

    /** Any run: the processes that get control make the calls `ops`, one after the other, until the kernel halts. */
    method Run(ops: seq<Op>)
      returns (halted: bool, outs: seq<Outcome>, ghost trace: seq<Snapshot>, ghost moments: seq<Moment>)
      requires Valid() && (kernel.current == NOBODY || kernel.Running())
      modifies Footprint()
      ensures fresh(table.Repr - old(table.Repr))
      ensures !halted ==> Valid() && (kernel.current == NOBODY || kernel.Running())
      ensures trace != [] && trace[0] == old(kernel.Now()) && (!halted ==> trace[|trace| - 1] == kernel.Now())
      ensures FairRun(trace)
      ensures AdvancingRun(moments, ops, outs)
      ensures moments[0] == old(Here()) && (!halted ==> moments[|outs|] == Here())
      ensures if halted then |outs| < |ops| && Halting(moments[|outs|], ops[|outs|]) else |outs| == |ops|
      ensures NoEmptyWrite(old(calls)) && (forall op <- ops :: !EmptyWrite(op)) ==>
                forall i :: 0 <= i < |moments| ==> NoEmptyWrite(moments[i].calls)
    {
      hide Table.Valid, Kernel.Valid, Processes.Valid, Tied, Stays, Switches, AllLive, NoEmptyWrite, Advances, FairRun,
           Halting;
      halted, outs, trace, moments := false, [], [kernel.Now()], [Here()];
      var i := 0;
      while i < |ops| && !halted
        invariant 0 <= i <= |ops| && fresh(table.Repr - old(table.Repr))
        invariant !halted ==> Valid() && (kernel.current == NOBODY || kernel.Running())
        invariant trace != [] && trace[0] == old(kernel.Now()) && (!halted ==> trace[|trace| - 1] == kernel.Now())
        invariant forall i, j :: 0 <= i && j == i + 1 && j < |trace| ==> Next(trace[i], trace[j])
        invariant AdvancingRun(moments, ops, outs)
        invariant moments[0] == old(Here()) && (!halted ==> moments[|outs|] == Here())
        invariant if halted then |outs| < |ops| && Halting(moments[|outs|], ops[|outs|]) else |outs| == i
        invariant NoEmptyWrite(old(calls)) && (forall op <- ops :: !EmptyWrite(op)) ==>
                    forall i :: 0 <= i < |moments| ==> NoEmptyWrite(moments[i].calls)
      {
        ghost var mid;
        var out;
        halted, out, mid := Step(ops[i]);
        if !halted {
          outs := outs + [out];
          trace := trace + [mid, kernel.Now()];
          moments := moments + [Here()];
        }
        i := i + 1;
      }
      RunIsFair(trace);
    }

    /** The system calls */
    method Perform(op: Op) returns (out: Outcome)
      requires Valid() && kernel.Running() && kernel.current !in calls
      modifies Footprint()
      ensures fresh(table.Repr - old(table.Repr)) && Stays(old(kernel.Now()), kernel.Now())
      ensures kernel.current == old(kernel.current) && Performs(old(Here()), op, out, Here())
      ensures out != Halted ==>
                && Valid() && (old(Flowing()) ==> Flowing())
                && TightStep(old(procs.t), old(table.views), table.views)
                && (NoEmptyWrite(old(calls)) && !EmptyWrite(op) ==> NoEmptyWrite(calls))
    {
      hide Table.Valid, Kernel.Valid, Processes.Valid, Tied, Stays, AllLive, NoEmptyWrite, TightStep, TightKept,
           ReadsFrom, WritesTo, Performs;
      if op.ReadCall? || op.WriteCall? {
        out := Transfer(op);
      } else {
        out := Manage(op);
        TightKeeps(old(procs.t), old(table.views), table.views);
      }
    }

    method Transfer(op: Op) returns (out: Outcome)
      requires Valid() && kernel.Running() && kernel.current !in calls && (op.ReadCall? || op.WriteCall?)
      modifies Footprint()
      ensures fresh(table.Repr - old(table.Repr)) && Stays(old(kernel.Now()), kernel.Now())
      ensures kernel.current == old(kernel.current) && Performs(old(Here()), op, out, Here())
      ensures out != Halted ==>
                && Valid() && (old(Flowing()) ==> Flowing())
                && TightStep(old(procs.t), old(table.views), table.views)
                && (NoEmptyWrite(old(calls)) && !EmptyWrite(op) ==> NoEmptyWrite(calls))
    {
      hide Table.Valid, Kernel.Valid, Processes.Valid, Tied, Stays, AllLive, NoEmptyWrite, TightStep, Target,
           ReadChanges, WriteChanges;
      match op
      case ReadCall(fd, size) =>
        out := Read(fd, size);
      case WriteCall(fd, data) =>
        out := Write(fd, data);
    }

    method Manage(op: Op) returns (out: Outcome)
      requires Valid() && kernel.Running() && kernel.current !in calls && !op.ReadCall? && !op.WriteCall?
      modifies Footprint()
      ensures fresh(table.Repr - old(table.Repr)) && Stays(old(kernel.Now()), kernel.Now())
      ensures Valid() && (old(Flowing()) ==> Flowing()) && TightKept(old(table.views), table.views)
      ensures calls == old(calls)
      ensures kernel.current == old(kernel.current) && Performs(old(Here()), op, out, Here())
    {
      hide Table.Valid, Kernel.Valid, Processes.Valid, Tied, Stays, AllLive, TwoFree, TightKept, Thinned, Rouses,
           CanDrop, SameKinds, SameButEnds, Let, Drop, Connected, Opens, Pipes, Closes, Dups, Dups2, Dups3, Forks,
           Execs, Exits, NoRevival, KindsLeft;
      StaysSame(kernel.Now());
      TightSame(table.views);
      var r := 0;
      match op {
        case Compute =>
        case OpenCall(outcome, closing) =>
          r := Open(if outcome <= 0 then outcome else 0, closing);
        case PipeCall(known, closing) =>
          var rfd, wfd;
          r, rfd, wfd := Pipe2(known, closing);
        case CloseCall(fd) =>
          r := Close(fd);
        case DupCall(fd, from, closing) =>
          r := DupFd(fd, from, closing);
        case Dup2Call(oldfd, newfd) =>
          r := Dup2(oldfd, newfd);
        case Dup3Call(oldfd, newfd, closing) =>
          r := Dup3(oldfd, newfd, closing);
        case ForkCall =>
          r := Fork();
        case ExecCall =>
          CloseOnExec();
        case WaitCall(p) =>
          if p in kernel.state && kernel.state[p] == Dead && p != kernel.current {
            Reap(p);
            r := p;
          } else {
            AwaitChild();
            return Slept;
          }
        case ExitCall =>
          ghost var mid := Exit();
      }
      out := Done(r, []);
    }
  }

  // ----- runs

  /** No pipe is stuck. */
  ghost predicate Flows(m: Moment) {
    AllLive(m.views, m.calls, m.state)
  }

  /** The process in control is about to strand writers. */
  ghost predicate Stranding(m: Moment) {
    Fails(m.views, m.calls, m.state, m.current)
  }

  /** A step: the process in control acts and then gives up control. No pipe gets stuck exactly if the process was
      not about to strand writers, and a pipe with one process on each end stays tight. */
  ghost predicate Advances(m: Moment, op: Op, out: Outcome, m': Moment) {
    && Acts(m, op, out, m'.(current := m.current))
    && (Flows(m) ==> (Flows(m') <==> !Stranding(m)))
    && TightStep(m.t, m.views, m'.views)
  }

  /** A run of the calls `ops`, as far as it got, and how they ended. */
  ghost predicate AdvancingRun(moments: seq<Moment>, ops: seq<Op>, outs: seq<Outcome>) {
    && |moments| == |outs| + 1 && |outs| <= |ops|
    && forall i, j :: 0 <= i && j == i + 1 && j < |moments| ==> Advances(moments[i], ops[i], outs[i], moments[j])
  }

  lemma HaltsOnly(m: Moment, op: Op, out: Outcome, m': Moment)
    requires Acts(m, op, out, m') && (m.current < 0 ==> out != Halted)
    ensures out == Halted <==> Halting(m, op)
  {
    hide Opens, Pipes, Closes, Dups, Dups2, Dups3, Forks, Execs, Exits, StateAfter, CallsAfter, Shrank, Gone, Reached;
  }

  /** Along any run no pipe is ever stuck if and only if nobody ever strands writers. */
  lemma {:induction false} FlowsThroughout(moments: seq<Moment>, ops: seq<Op>, outs: seq<Outcome>)
    requires AdvancingRun(moments, ops, outs) && Flows(moments[0])
    ensures (forall i :: 0 <= i < |moments| ==> Flows(moments[i]))
            <==> (forall i :: 0 <= i < |moments| - 1 ==> !Stranding(moments[i]))
    decreases |moments|
  {
    hide Flows, Stranding, TightStep, Acts;
    var n := |moments| - 1;
    if n > 0 {
      var front := moments[..n];
      FlowsThroughout(front, ops, outs[..n - 1]);
      assert forall i :: 0 <= i < n ==> front[i] == moments[i];
      assert Advances(moments[n - 1], ops[n - 1], outs[n - 1], moments[n]);
    }
  }

  /** Nobody strands writers while nobody is inside a write of no bytes. */
  lemma SomethingToWrite(m: Moment)
    ensures NoEmptyWrite(m.calls) ==> !Stranding(m)
  {
  }

  /** The queues of a pipe that was held by one process on each end ever since it is there. */
  lemma {:induction false} SoloThroughout(moments: seq<Moment>, ops: seq<Op>, outs: seq<Outcome>, q: nat)
    requires AdvancingRun(moments, ops, outs)
    requires q in moments[0].views ==> Tight(moments[0].views[q])
    requires forall i :: 0 <= i < |moments| ==> SoloAt(moments[i], q)
    ensures var m := moments[|moments| - 1];
            q in m.views ==> Tight(m.views[q])
    decreases |moments|
  {
    hide Tight, Solo, Flows, Stranding, Acts;
    var n := |moments| - 1;
    if n > 0 {
      var front := moments[..n];
      assert forall i :: 0 <= i < n ==> front[i] == moments[i];
      SoloThroughout(front, ops, outs[..n - 1], q);
      assert Advances(moments[n - 1], ops[n - 1], outs[n - 1], moments[n]) && SoloAt(moments[n - 1], q);
    }
  }

  ghost predicate SoloAt(m: Moment, q: nat) {
    q in m.views ==> Solo(m.t, q, false) && Solo(m.t, q, true)
  }

  lemma OutsideNeverFails(views: map<nat, View>, calls: map<nat, Call>, state: map<nat, State>, c: int)
    ensures c !in calls ==> !Fails(views, calls, state, c)
  {
  }

  /** Process `c` is about to go on inside a write of no bytes and strands the writers beside it. */
  ghost predicate Fails(views: map<nat, View>, calls: map<nat, Call>, state: map<nat, State>, c: int) {
    0 <= c && c in calls && calls[c].Writing? && calls[c].data == [] && Strands(views, calls, state, calls[c].pipe, c)
  }

  /** Process `c` has joined those who wait for a child. */
  ghost predicate Awaits(queues: map<nat, seq<nat>>, queues': map<nat, seq<nat>>, c: nat) {
    CHILD_QUEUE in queues && queues' == queues[CHILD_QUEUE := [c] + queues[CHILD_QUEUE]]
  }

  /** Those who wait for a child. */
  ghost function Waiting(queues: map<nat, seq<nat>>): seq<nat> {
    if CHILD_QUEUE in queues then queues[CHILD_QUEUE] else []
  }

  lemma LetAfter(queues: map<nat, seq<nat>>, q: nat, w: bool, n: nat, c: nat, sleeps: bool)
    requires QueueOf(q, w) in queues && QueueOf(q, !w) in queues && n <= |queues[QueueOf(q, !w)]|
    ensures Let(queues, QueuesAfter(queues, q, w, n, c, sleeps))
  {
  }

  /** The queue for children is left alone. */
  ghost predicate Let(queues: map<nat, seq<nat>>, queues': map<nat, seq<nat>>) {
    Waiting(queues') == Waiting(queues)
  }

  lemma LetSame(queues: map<nat, seq<nat>>)
    ensures Let(queues, queues)
  {
  }

  lemma LetNew(queues: map<nat, seq<nat>>, q: nat)
    ensures Waiting(queues[QueueOf(q, false) := []][QueueOf(q, true) := []]) == Waiting(queues)
  {
  }

  lemma LetIs(queues: map<nat, seq<nat>>, queues': map<nat, seq<nat>>)
    requires Let(queues, queues')
    ensures Waiting(queues') == Waiting(queues)
  {
  }

  /** A descriptor goes: no file and no holder of an end is new. */
  lemma Released(t: Tables, k: Key)
    requires Counted(t) && CanDrop(t, k)
    ensures KindsLeft(t, Drop(t, k)) && NoRevival(t, Drop(t, k))
  {
    AllLeft(t);
    DropLeaves(t, t, k);
    hide Counted, EndHolders, Drop, CanDrop, KindsLeft;
    forall q, w { FewerHolders(t, k, q, w); }
  }

  lemma ExitIs(m: Moment, mid: Moment, m': Moment)
    requires Follows(m, mid) && 0 <= m.current && mid.cloexec == m.cloexec
    requires forall k :: k in mid.t.slots <==> k in m.t.slots && k.0 != m.current
    requires forall k <- mid.t.slots :: mid.t.slots[k] == m.t.slots[k]
    requires m' == mid.(state := Departed(mid.state, mid.waiting, m.current),
                        waiting := if mid.waiting == [] then [] else mid.waiting[1..])
    ensures Exits(m, m')
  {
    hide Left, Relieved, KindsLeft, Counted, Departed;
  }

  lemma EndsSame(views: map<nat, View>)
    ensures forall q <- views :: SameButEnds(views[q], views[q])
  {
  }

  lemma EndsTwice(views: map<nat, View>, mid: map<nat, View>, views': map<nat, View>)
    requires forall q <- mid :: q in views && SameButEnds(views[q], mid[q])
    requires forall q <- views' :: q in mid && SameButEnds(mid[q], views'[q])
    ensures forall q <- views' :: q in views && SameButEnds(views[q], views'[q])
  {
  }

  lemma ForkIs(m: Moment, mid: Moment, m': Moment, child: nat)
    requires 0 <= m.current && child !in m.state && child !in m.calls && forall k <- m.t.slots :: k.0 != child
    requires mid == m.(state := m.state[child := Ready], cloexec := set k | k in m.cloexec && k.0 != child)
    requires Follows(mid, m') && m'.state == mid.state && m'.cloexec == mid.cloexec
    requires forall k :: k in m'.t.slots <==> k in m.t.slots || (k.0 == child && (m.current, k.1) in m.t.slots)
    requires forall k <- m'.t.slots ::
               m'.t.slots[k] == if k.0 == child then m.t.slots[(m.current, k.1)] else m.t.slots[k]
    ensures Forks(m, m', child)
  {
    hide Left, Relieved, Counted, KindsLeft;
  }

  lemma DropSlots(t: Tables, k: Key)
    requires CanDrop(t, k)
    ensures Drop(t, k).slots == t.slots - {k}
  {
  }

  lemma NoneRevived(t: Tables)
    ensures NoRevival(t, t)
  {
  }

  /** The flags do not matter to what follows from the descriptors. */
  lemma Reflagged(m: Moment, m': Moment, cloexec: set<Key>)
    ensures Follows(m, m') ==> Follows(m, m'.(cloexec := cloexec))
  {
  }

  lemma ReplacesFlags(m: Moment, m': Moment, oldfd: nat, newfd: nat, cloexec: set<Key>)
    requires Replaces(m, m', oldfd, newfd)
    ensures Replaces(m, m'.(cloexec := cloexec), oldfd, newfd)
  {
    hide Left, Relieved, Counted;
  }

  lemma LetOn(queues: map<nat, seq<nat>>, mid: map<nat, seq<nat>>, queues': map<nat, seq<nat>>)
    ensures Let(queues, mid) && Let(mid, queues') ==> Let(queues, queues')
  {
  }

  lemma LetPipe(queues: map<nat, seq<nat>>, q: nat, w: bool, n: nat)
    requires QueueOf(q, w) in queues && n <= |queues[QueueOf(q, w)]|
    ensures Let(queues, queues[QueueOf(q, w) := queues[QueueOf(q, w)][n..]])
  {
  }

  /** A pipe but for its ends and who sleeps at them. */
  ghost predicate SameStream(v: View, v': View) {
    v' == v.(readers := v'.readers, writers := v'.writers, rq := v'.rq, wq := v'.wq)
  }

  /** Descriptors `t` are left: a pipe has the sleepers it had on an end as long as the other end is held. */
  ghost predicate Thinned(t: Tables, views: map<nat, View>, views': map<nat, View>) {
    forall q <- views' ::
      && q in views && SameStream(views[q], views'[q])
      && forall w: bool :: EndHolders(t, q, !w) != {} ==> Sleepers(views'[q], w) == Sleepers(views[q], w)
  }

  /** Descriptors `t` are left: nobody is woken but sleepers of a pipe whose other end nobody holds. */
  ghost predicate Rouses(t: Tables, calls: map<nat, Call>, state: map<nat, State>, state': map<nat, State>) {
    && state'.Keys == state.Keys
    && forall p <- state :: state'[p] != state[p] ==>
         && state[p] == Blocked && state'[p] == Ready && p in calls
         && EndHolders(t, calls[p].pipe, !calls[p].Writing?) == {}
  }

  /** Whoever sleeps on a pipe waits for an end that is held. */
  ghost predicate Served(t: Tables, calls: map<nat, Call>, state: map<nat, State>) {
    forall p <- calls :: p in state && state[p] == Blocked ==> EndHolders(t, calls[p].pipe, !calls[p].Writing?) != {}
  }

  lemma LeftIs(t: Tables, views: map<nat, View>, views': map<nat, View>)
    requires Counted(t) && Counts(t.pipes, views') && Thinned(t, views, views')
    requires forall q <- views' :: BothOpen(views'[q])
    ensures views' == Left(t, views)
  {
    hide FilesCounted, EndHolders;
    forall q | q in views' || q in Left(t, views)
      ensures q in views' && q in Left(t, views) && views'[q] == Left(t, views)[q]
    {
      PipeHeld(t, q);
      if q in views' { LeftOne(t, views, views', q); }
    }
  }

  lemma LeftOne(t: Tables, views: map<nat, View>, views': map<nat, View>, q: nat)
    requires Counts(t.pipes, views') && Thinned(t, views, views') && q in views' && BothOpen(views'[q])
    requires t.pipes[q] == Ends(|EndHolders(t, q, false)|, |EndHolders(t, q, true)|)
    requires Held(t, q, false) || Held(t, q, true)
    ensures q in Left(t, views) && views'[q] == Left(t, views)[q]
  {
    hide EndHolders;
    assert SameStream(views[q], views'[q]);
    assert Held(t, q, true) ==> Sleepers(views'[q], false) == Sleepers(views[q], false);
    assert Held(t, q, false) ==> Sleepers(views'[q], true) == Sleepers(views[q], true);
  }

  /** A pipe is there exactly while somebody holds an end of it. */
  lemma PipeHeld(t: Tables, q: nat)
    requires Counted(t)
    ensures q in t.pipes <==> Held(t, q, false) || Held(t, q, true)
    ensures q in t.pipes ==> t.pipes[q] == Ends(|EndHolders(t, q, false)|, |EndHolders(t, q, true)|)
  {
    if k: Key, w: bool :| k in EndHolders(t, q, w) {
      assert IsEnd(t, t.slots[k], q, w);
    }
  }

  lemma RelievedIs(t: Tables, calls: map<nat, Call>, state: map<nat, State>, state': map<nat, State>)
    requires Rouses(t, calls, state, state') && Served(t, calls, state')
    ensures state' == Relieved(t, calls, state)
  {
    hide EndHolders;
  }

  lemma EndsThin(t: Tables, views: map<nat, View>, views': map<nat, View>)
    requires forall q <- views' :: q in views && SameButEnds(views[q], views'[q])
    ensures Thinned(t, views, views')
  {
  }

  lemma SameLeaves(t: Tables, t': Tables)
    ensures SameKinds(t, t') ==> KindsLeft(t, t')
  {
  }

  lemma NothingReleased(t: Tables, views: map<nat, View>, calls: map<nat, Call>, state: map<nat, State>)
    ensures Thinned(t, views, views) && TightKept(views, views) && Rouses(t, calls, state, state)
  {
    TightSame(views);
  }

  lemma FewerHolders(t: Tables, k: Key, q: nat, w: bool)
    requires Counted(t) && CanDrop(t, k)
    ensures EndHolders(Drop(t, k), q, w) <= EndHolders(t, q, w)
  {
    hide PipesCounted, EndHolders;
    DropEnds(t, k, q, w);
  }

  /** One more descriptor is released. */
  lemma ReleasedMore(t: Tables, k: Key, views: map<nat, View>, mid: map<nat, View>, views': map<nat, View>,
                     calls: map<nat, Call>, state: map<nat, State>, between: map<nat, State>, state': map<nat, State>)
    requires Counted(t) && CanDrop(t, k) && TightKept(views, mid) && TightKept(mid, views')
    requires Thinned(t, views, mid) && Thinned(Drop(t, k), mid, views')
    requires Rouses(t, calls, state, between) && Rouses(Drop(t, k), calls, between, state')
    ensures Thinned(Drop(t, k), views, views') && TightKept(views, views') && Rouses(Drop(t, k), calls, state, state')
  {
    hide Counted, EndHolders, Drop, CanDrop, TightKept;
    TightTwice(views, mid, views');
    forall q, w { FewerHolders(t, k, q, w); }
  }

  lemma AllLeft(t: Tables)
    ensures KindsLeft(t, t)
  {
  }

  lemma DropLeaves(first: Tables, t: Tables, k: Key)
    requires KindsLeft(first, t) && CanDrop(t, k)
    ensures KindsLeft(first, Drop(t, k))
  {
  }

  lemma KindsSame(t: Tables)
    ensures SameKinds(t, t)
  {
  }

  lemma KindsTwice(t: Tables, mid: Tables, t': Tables)
    ensures SameKinds(t, mid) && SameKinds(mid, t') ==> SameKinds(t, t')
  {
  }

  lemma AddKinds(t: Tables, k: Key, f: nat)
    requires f in t.files && (t.files[f].kind.PipeEnd? ==> t.files[f].kind.pipe in t.pipes)
    ensures SameKinds(t, Add(t, k, f))
  {
  }

  /** One more descriptor of a file that has some revives no end. */
  lemma Attached(t: Tables, k: Key, f: nat)
    requires Counted(t) && f in t.files && (t.files[f].kind.PipeEnd? ==> t.files[f].kind.pipe in t.pipes)
    requires k !in t.slots
    ensures f in t.slots.Values ==> NoRevival(t, Add(t, k, f))
  {
    if x :| x in t.slots && t.slots[x] == f {
      forall q, w | Held(Add(t, k, f), q, w) ensures Held(t, q, w) {
        AddEnds(t, k, f, q, w);
        if t.files[f].kind == PipeEnd(q, w) { assert x in EndHolders(t, q, w); }
      }
    }
  }

  /** A pipe but for the counts of its ends. */
  ghost predicate SameButEnds(v: View, v': View) {
    v' == v.(readers := v'.readers, writers := v'.writers)
  }

  lemma TightNew(views: map<nat, View>, q: nat)
    requires q !in views
    ensures TightKept(views, views[q := NewView()])
  {
  }

  lemma HasMember(queue: seq<nat>)
    ensures queue == [] || exists p :: p in queue
  {
    if queue != [] { assert queue[0] in queue; }
  }

  /** One process holds this end. */
  ghost predicate Solo(t: Tables, q: nat, w: bool) {
    forall k, x :: k in EndHolders(t, q, w) && x in EndHolders(t, q, w) ==> k.0 == x.0
  }

  /** As long as one process holds each end of it, a pipe that was tight is, and a new one is. */
  ghost predicate TightStep(t: Tables, views: map<nat, View>, views': map<nat, View>) {
    forall q <- views' ::
      (q in views ==> Solo(t, q, false) && Solo(t, q, true) && Tight(views[q])) ==> Tight(views'[q])
  }

  lemma TightAfterRead(t: Tables, views: map<nat, View>, q: nat, v': View, c: nat, size: nat, stop: Pipe.Stop,
                       data: seq<Byte>, n: nat)
    requires q in views && ReadDone(views[q], v', c, size, stop, data, n) && stop != Pipe.BugOn
    requires Solo(t, q, false) ==> views[q].rq == []
    ensures TightStep(t, views, views[q := v'])
  {
    hide Solo, Tight, ReadDone;
    TightRead(views[q], v', c, size, stop, data, n);
  }

  lemma TightAfterWrite(t: Tables, views: map<nat, View>, q: nat, v': View, c: nat, stop: Pipe.Stop, data: seq<Byte>,
                        from: nat, written: nat, n: nat)
    requires q in views && WriteDone(views[q], v', c, stop, data, from, written, n)
    requires Solo(t, q, true) ==> views[q].wq == []
    ensures TightStep(t, views, views[q := v'])
  {
    hide Solo, Tight, WriteDone;
    TightWrite(views[q], v', c, stop, data, from, written, n);
  }

  lemma TightKeeps(t: Tables, views: map<nat, View>, views': map<nat, View>)
    ensures TightKept(views, views') ==> TightStep(t, views, views')
  {
    hide Solo, Tight;
  }

  lemma AreConnected(t: Tables, c: nat, rfd: nat, wfd: nat, q: nat)
    requires rfd < wfd < MAX_FD && (c, rfd) in t.slots && (c, wfd) in t.slots
    requires IsEnd(t, t.slots[(c, rfd)], q, false) && IsEnd(t, t.slots[(c, wfd)], q, true)
    ensures Connected(t, c, rfd, wfd, q)
  {
  }

  lemma AboutRead(v: View, v': View, c: nat, size: nat, stop: Pipe.Stop, data: seq<Byte>, n: nat)
    requires ReadDone(v, v', c, size, stop, data, n)
    ensures v'.readers == v.readers && v'.writers == v.writers
    ensures stop != Pipe.BugOn ==>
              && Moved(v, v', false, n, c, stop == Pipe.Asleep) && ReadMoves(v, v', c, n > 0)
              && (stop == Pipe.Asleep ==> v.writers > 0)
    ensures Reads(v, v', c, size, if stop == Pipe.BugOn then Halted else if stop == Pipe.Asleep then Slept
                                  else Done(stop.count, data))
  {
  }

  /** The states after a stretch of a call through `s`: who left the queue of the other end is ready. */
  ghost function StateOver(state: map<nat, State>, views: map<nat, View>, views': map<nat, View>, s: Spot, c: nat,
                           sleeps: bool): map<nat, State> {
    if s.pipe in views && s.pipe in views'
    then StateAfter(state, Gone(Sleepers(views[s.pipe], !s.writing), Sleepers(views'[s.pipe], !s.writing)), c, sleeps)
    else state
  }

  lemma ReadFlows(views: map<nat, View>, calls: map<nat, Call>, state: map<nat, State>, q: nat, v': View,
                  calls': map<nat, Call>, state': map<nat, State>, c: nat, woke: bool)
    requires q in views && BothOpen(views[q]) && OthersOn(calls, state, calls', state', c)
    requires (c in calls ==> At(calls[c], q, false)) && ReadMoves(views[q], v', c, woke)
    requires woke ==> Roused(calls', state', q, true)
    ensures AllLive(views, calls, state) ==> AllLive(views[q := v'], calls', state')
  {
    if AllLive(views, calls, state) {
      hide AllLive, OthersOn, Roused;
      ReadLive(views, calls, state, q, v', calls', state', c);
    }
  }

  lemma AboutWrite(v: View, v': View, c: nat, stop: Pipe.Stop, data: seq<Byte>, from: nat, written: nat, n: nat)
    requires WriteDone(v, v', c, stop, data, from, written, n)
    ensures v'.readers == v.readers && v'.writers == v.writers && stop != Pipe.BugOn
    ensures Moved(v, v', true, n, c, stop == Pipe.Asleep) && WriteMoves(v, v', c, from < |data|, n > 0)
    ensures stop == Pipe.Asleep ==> v.readers > 0 && (written < |data| || written == |data| == 0)
    ensures Writes(v, v', c, data, from, if stop == Pipe.Asleep then Slept else Done(stop.count, []),
                   if stop == Pipe.Asleep then written else |data|)
  {
    QueuesAbout(v, v', c, stop, data, from, written, n);
    hide Moved, Shrank, WriteMoves;
    if stop != Pipe.Asleep {
      assert data[from..] == data[from..|data|];
      assert v.readers == 0 ==> data[from..written] == [];
    }
  }

  lemma QueuesAbout(v: View, v': View, c: nat, stop: Pipe.Stop, data: seq<Byte>, from: nat, written: nat, n: nat)
    requires WriteDone(v, v', c, stop, data, from, written, n)
    ensures v'.wq == (if stop == Pipe.Asleep then [c] + v.wq else v.wq) && Shrank(v.rq, v'.rq)
    ensures if v.readers == 0 || v.length == PAGE_SIZE then v'.rq == v.rq else v.rq != [] ==> v'.rq != v.rq
    ensures v.readers > 0 && v.length < PAGE_SIZE && v.offset + v.length + |data| - from <= PAGE_SIZE ==>
              |v'.rq| == |v.rq| - Least(1, |v.rq|)
  {
  }

  lemma ReadCalls(m: Moment, m': Moment, q: nat, size: nat, out: Outcome)
    requires ReadChanges(m, m', q, size, out) && out != Halted
    ensures m.current in m'.calls <==> out == Slept
    ensures NoEmptyWrite(m.calls) ==> NoEmptyWrite(m'.calls)
  {
    hide CallsAfter, NoEmptyWrite, Reads, StateAfter;
    CallsOnly(m.calls, m.current, out == Slept, Reading(q, size));
  }

  lemma WriteCalls(m: Moment, m': Moment, q: nat, data: seq<Byte>, from: nat, out: Outcome)
    requires WriteChanges(m, m', q, data, from, out)
    ensures m.current in m'.calls <==> out == Slept
    ensures NoEmptyWrite(m.calls) && data != [] ==> NoEmptyWrite(m'.calls)
  {
    hide CallsAfter, NoEmptyWrite, Writes, StateAfter;
    CallsOnly(m.calls, m.current, out == Slept, Writing(q, data, Reached(m'.calls, m.current, data)));
  }

  lemma CallsOnly(calls: map<nat, Call>, c: nat, sleeps: bool, call: Call)
    ensures c in CallsAfter(calls, c, sleeps, call) <==> sleeps
    ensures NoEmptyWrite(calls) && (call.Writing? ==> call.data != []) ==>
              NoEmptyWrite(CallsAfter(calls, c, sleeps, call))
  {
  }

  lemma NotEmptyWrite(calls: map<nat, Call>, c: nat)
    requires c in calls && calls[c].Writing?
    ensures NoEmptyWrite(calls) ==> calls[c].data != []
  {
  }

  /** A process that was not inside a call strands nobody. */
  lemma NewcomerStrandsNone(views: map<nat, View>, calls: map<nat, Call>, state: map<nat, State>, q: nat, c: nat)
    requires c !in calls
    ensures AllLive(views, calls, state) ==> !Strands(views, calls, state, q, c)
  {
  }

  lemma WriteFlows(views: map<nat, View>, calls: map<nat, Call>, state: map<nat, State>, q: nat, v': View,
                   calls': map<nat, Call>, state': map<nat, State>, c: nat, some: bool, woke: bool)
    requires q in views && BothOpen(views[q]) && OthersOn(calls, state, calls', state', c)
    requires c in calls ==> At(calls[c], q, true)
    requires WriteMoves(views[q], v', c, some, woke) && (woke ==> Roused(calls', state', q, false))
    requires Roused(calls', state', q, true) <==> RousedBut(calls, state, q, true, c)
    ensures AllLive(views, calls, state) ==>
              (AllLive(views[q := v'], calls', state') <==> some || !Strands(views, calls, state, q, c))
  {
    if AllLive(views, calls, state) {
      hide AllLive, OthersOn, Roused, RousedBut, Strands;
      WriteLive(views, calls, state, q, v', calls', state', c, some);
    }
  }

  /** The process in control is on no queue. */
  ghost predicate Free(state: map<nat, State>, views: map<nat, View>, c: nat) {
    && c in state && state[c] == Ready
    && (forall x, y :: x in views ==> c !in Sleepers(views[x], y))
    && (forall x, y :: x in views ==> NoDup(Sleepers(views[x], y)))
  }

  lemma RunningIsFree(calls: map<nat, Call>, state: map<nat, State>, queues: map<nat, seq<nat>>, place: map<nat, nat>,
                      views: map<nat, View>, c: nat)
    requires Benches(calls, state, queues, views) && Parked(state, queues, place) && c in state && state[c] == Ready
    ensures Free(state, views, c)
  {
    hide NoDup, Seated;
    forall x, y: bool | x in views ensures c !in Sleepers(views[x], y) && NoDup(Sleepers(views[x], y)) {
      assert queues[QueueOf(x, y)] == Sleepers(views[x], y);
    }
  }

  /** A descriptor refers to a pipe that is there and counts it. */
  lemma EndIsThere(t: Tables, views: map<nat, View>, s: Spot)
    requires Counts(t.pipes, views) && Counted(t) && OnPipe(t, s)
    ensures s.pipe in views && if s.writing then views[s.pipe].writers > 0 else views[s.pipe].readers > 0
  {
    SleepersPipe(t, s);
  }

  /** A stretch of a call at an end of a pipe keeps the queues, the states and the calls in step. */
  lemma BenchesAfter(calls: map<nat, Call>, state: map<nat, State>, queues: map<nat, seq<nat>>, views: map<nat, View>,
                     q: nat, w: bool, c: nat, v': View, n: nat, sleeps: bool, call: Call)
    requires Benches(calls, state, queues, views) && Free(state, views, c) && q in views && At(call, q, w)
    requires call.Writing? ==> call.written < |call.data| || call.written == |call.data| == 0
    requires Moved(views[q], v', w, n, c, sleeps) && BothOpen(v')
    ensures QueueOf(q, w) in queues && QueueOf(q, !w) in queues && n <= |queues[QueueOf(q, !w)]|
    ensures var calls', state' := CallsAfter(calls, c, sleeps, call),
                                  StateAfter(state, queues[QueueOf(q, !w)][..n], c, sleeps);
            && Benches(calls', state', QueuesAfter(queues, q, w, n, c, sleeps), views[q := v'])
            && OthersOn(calls, state, calls', state', c)
            && (n > 0 ==> Roused(calls', state', q, !w))
            && (Roused(calls', state', q, w) <==> RousedBut(calls, state, q, w, c))
    ensures queues[QueueOf(q, !w)][..n] == Gone(Sleepers(views[q], !w), Sleepers(v', !w))
  {
    assert QueueOf(q, w) in queues && queues[QueueOf(q, !w)] == Sleepers(views[q], !w);
    hide Seated, Shared, NoDup;
    SharedAfter(views, queues, q, w, v', n, c, sleeps);
    SeatedAfter(views, calls, state, q, w, v', n, c, sleeps, call);
    OthersAfter(views, calls, state, q, w, n, c, sleeps, call);
  }

  /** A stretch of a call keeps everything tied together once the process's own record of it is. */
  lemma StretchTied(t: Tables, asleep: map<nat, Spot>, nextPipe: nat, calls: map<nat, Call>, state: map<nat, State>,
                    queues: map<nat, seq<nat>>, place: map<nat, nat>, views: map<nat, View>, s: Spot, c: nat, v': View,
                    n: nat, sleeps: bool, call: Call)
    requires Tied(t, asleep, nextPipe, calls, state, queues, views) && Parked(state, queues, place)
    requires Counted(t) && OnPipe(t, s) && c in state && state[c] == Ready && s.pipe in views
    requires At(call, s.pipe, s.writing)
    requires call.Writing? ==> call.written < |call.data| || call.written == |call.data| == 0
    requires Moved(views[s.pipe], v', s.writing, n, c, sleeps)
    requires v'.readers == views[s.pipe].readers && v'.writers == views[s.pipe].writers
    requires sleeps ==> if s.writing then v'.readers > 0 else v'.writers > 0
    ensures QueueOf(s.pipe, s.writing) in queues && QueueOf(s.pipe, !s.writing) in queues
    ensures n <= |queues[QueueOf(s.pipe, !s.writing)]|
    ensures var calls', state' := CallsAfter(calls, c, sleeps, call),
                                  StateAfter(state, queues[QueueOf(s.pipe, !s.writing)][..n], c, sleeps);
            var queues', views' := QueuesAfter(queues, s.pipe, s.writing, n, c, sleeps), views[s.pipe := v'];
            && (forall asleep' :: Inside(calls', asleep') ==>
                 Tied(t, asleep', nextPipe, calls', state', queues', views'))
            && OthersOn(calls, state, calls', state', c)
            && (n > 0 ==> Roused(calls', state', s.pipe, !s.writing))
            && (Roused(calls', state', s.pipe, s.writing) <==> RousedBut(calls, state, s.pipe, s.writing, c))
            && state' == StateOver(state, views, views', s, c, sleeps)
  {
    hide Parked, Counted, Counts, Inside, Owned, Spare, Benches, OthersOn, Roused, RousedBut, StateAfter, Gone;
    EndIsThere(t, views, s);
    RunningIsFree(calls, state, queues, place, views, c);
    StillOpen(calls, state, queues, views, s.pipe, s.writing, c, v', n, sleeps);
    hide Moved;
    BenchesAfter(calls, state, queues, views, s.pipe, s.writing, c, v', n, sleeps, call);
    OwnedAfter(t.slots, state, queues[QueueOf(s.pipe, !s.writing)][..n], c, sleeps);
    CountsAfter(t.pipes, views, s.pipe, v');
    SpareAfter(queues, nextPipe, s.pipe, s.writing, n, c, sleeps);
  }

  lemma StillOpen(calls: map<nat, Call>, state: map<nat, State>, queues: map<nat, seq<nat>>, views: map<nat, View>,
                  q: nat, w: bool, c: nat, v': View, n: nat, sleeps: bool)
    requires Benches(calls, state, queues, views) && q in views && Moved(views[q], v', w, n, c, sleeps)
    requires v'.readers == views[q].readers && v'.writers == views[q].writers
    requires sleeps ==> v'.readers > 0 && v'.writers > 0
    ensures BothOpen(v')
  {
    assert BothOpen(views[q]);
  }

  lemma CountsAfter(ends: map<nat, Ends>, views: map<nat, View>, q: nat, v': View)
    requires Counts(ends, views) && q in views
    requires v'.readers == views[q].readers && v'.writers == views[q].writers
    ensures Counts(ends, views[q := v'])
  {
  }

  lemma SpareAfter(queues: map<nat, seq<nat>>, nextPipe: nat, q: nat, w: bool, n: nat, c: nat, sleeps: bool)
    requires Spare(queues, nextPipe) && QueueOf(q, w) in queues && QueueOf(q, !w) in queues
    requires n <= |queues[QueueOf(q, !w)]|
    ensures Spare(QueuesAfter(queues, q, w, n, c, sleeps), nextPipe)
  {
  }

  lemma TiedParts(t: Tables, asleep: map<nat, Spot>, nextPipe: nat, calls: map<nat, Call>, state: map<nat, State>,
                  queues: map<nat, seq<nat>>, views: map<nat, View>, q: nat)
    requires Tied(t, asleep, nextPipe, calls, state, queues, views)
    ensures Counts(t.pipes, views) && Inside(calls, asleep) && Benches(calls, state, queues, views)
    ensures q in views ==> BothOpen(views[q])
  {
  }

  ghost function ViewsClosed(views: map<nat, View>, q: nat, w: bool): map<nat, View>
    requires q in views && if w then views[q].writers > 0 else views[q].readers > 0
  {
    var v := Closed(views[q], w);
    if v.readers == 0 && v.writers == 0 then views - {q} else views[q := v]
  }

  lemma CountsClosed(t: Tables, views: map<nat, View>, k: Key, q: nat, w: bool)
    requires Counts(t.pipes, views) && CanDrop(t, k) && t.files[t.slots[k]].kind == PipeEnd(q, w)
    ensures q in views && (if w then views[q].writers > 0 else views[q].readers > 0)
    ensures Counts(Drop(t, k).pipes, ViewsClosed(views, q, w))
  {
  }

  /** Nobody sleeps on an end whose last descriptor goes. */
  lemma SleepersHold(t: Tables, asleep: map<nat, Spot>, calls: map<nat, Call>, views: map<nat, View>,
                     state: map<nat, State>, q: nat, w: bool)
    requires Counted(t) && (forall p <- asleep :: OnPipe(t, asleep[p])) && Inside(calls, asleep)
    requires Seated(views, calls, state) && q in views && Sleepers(views[q], w) != []
    ensures q in t.pipes && if w then t.pipes[q].writers > 0 else t.pipes[q].readers > 0
  {
    var p := Sleepers(views[q], w)[0];
    assert p in Sleepers(views[q], w);
    SleepersPipe(t, asleep[p]);
  }

  lemma ClosedOpen(u: Tables, asleep: map<nat, Spot>, calls: map<nat, Call>, state: map<nat, State>,
                   queues: map<nat, seq<nat>>, views: map<nat, View>, q: nat, w: bool)
    requires Counted(u) && (forall p <- asleep :: OnPipe(u, asleep[p])) && Inside(calls, asleep)
    requires Benches(calls, state, queues, views) && q in views
    requires if w then views[q].writers > 0 else views[q].readers > 0
    requires Counts(u.pipes, ViewsClosed(views, q, w))
    ensures BothOpen(Closed(views[q], w))
    ensures q !in ViewsClosed(views, q, w) ==> forall p <- calls :: calls[p].pipe != q
  {
    hide Counted;
    assert BothOpen(views[q]);
    if Sleepers(views[q], w) != [] { SleepersHold(u, asleep, calls, views, state, q, w); }
    forall p | p in calls ensures calls[p].pipe in ViewsClosed(views, q, w) { SleepersPipe(u, asleep[p]); }
  }

  lemma BenchesLess(calls: map<nat, Call>, state: map<nat, State>, queues: map<nat, seq<nat>>, views: map<nat, View>,
                    q: nat)
    requires Benches(calls, state, queues, views) && forall p <- calls :: calls[p].pipe != q
    ensures Benches(calls, state, queues, views - {q})
  {
    var less := views - {q};
    forall p | p in calls ensures SeatOf(less, calls[p], state, p) { assert SeatOf(views, calls[p], state, p); }
    forall x, y, p | x in less && p in Sleepers(less[x], y) ensures p in calls && At(calls[p], x, y) {
      assert p in Sleepers(views[x], y);
    }
  }

  /** A descriptor of a pipe goes, and with the last one of an end the sleepers of the other end. */
  lemma ReleaseTied(t: Tables, asleep: map<nat, Spot>, nextPipe: nat, calls: map<nat, Call>, state: map<nat, State>,
                    queues: map<nat, seq<nat>>, place: map<nat, nat>, views: map<nat, View>, k: Key, q: nat, w: bool)
    requires Tied(t, asleep, nextPipe, calls, state, queues, views) && Parked(state, queues, place)
    requires Counted(t) && CanDrop(t, k) && t.files[t.slots[k]].kind == PipeEnd(q, w) && Counted(Drop(t, k))
    requires forall p <- asleep :: OnPipe(Drop(t, k), asleep[p])
    requires k.0 in state && state[k.0] == Ready && k.0 !in calls
    ensures q in views && (if w then views[q].writers > 0 else views[q].readers > 0)
    ensures QueueOf(q, !w) in queues && Rescued(views[q], w) <= |queues[QueueOf(q, !w)]|
    ensures var n, x, views' := Rescued(views[q], w), QueueOf(q, !w), ViewsClosed(views, q, w);
            var state' := Awake(state, queues[x][..n]);
            && Tied(Drop(t, k), asleep, nextPipe, calls, state', queues[x := queues[x][n..]], views')
            && (AllLive(views, calls, state) ==> AllLive(views', calls, state'))
            && TightKept(views, views') && Thinned(Drop(t, k), views, views')
            && Rouses(Drop(t, k), calls, state, state')
  {
    hide Counted, Parked, Benches, AllLive, ViewsClosed, Rescued, Counts, Owned, Spare, TightKept, Thinned, Rouses;
    CountsClosed(t, views, k, q, w);
    RunningIsFree(calls, state, queues, place, views, k.0);
    ClosedOpen(Drop(t, k), asleep, calls, state, queues, views, q, w);
    BenchesClosed(calls, state, queues, views, k.0, q, w);
    var n, x := Rescued(views[q], w), QueueOf(q, !w);
    OwnedAfter(t.slots, state, queues[x][..n], k.0, false);
    ClosedThins(t, views, k, q, w);
    ClosedRouses(t, calls, state, queues, place, views, k, q, w);
    OwnedLess(t.slots, Awake(state, queues[x][..n]), k);
    SpareAfter(queues, nextPipe, q, w, n, k.0, false);
  }

  /** A release that wakes anybody was the last one of its end. */
  lemma LastHolder(t: Tables, views: map<nat, View>, k: Key, q: nat, w: bool)
    requires Counted(t) && Counts(t.pipes, views) && CanDrop(t, k) && t.files[t.slots[k]].kind == PipeEnd(q, w)
    ensures q in views
    ensures (if w then views[q].writers else views[q].readers) == 1 ==> EndHolders(Drop(t, k), q, w) == {}
  {
    hide EndHolders;
    DropEnds(t, k, q, w);
    var holders := EndHolders(t, q, w);
    if |holders| == 1 {
      assert |holders - {k}| == 0;
    }
  }

  lemma ClosedThins(t: Tables, views: map<nat, View>, k: Key, q: nat, w: bool)
    requires Counted(t) && Counts(t.pipes, views) && CanDrop(t, k) && t.files[t.slots[k]].kind == PipeEnd(q, w)
    requires q in views && if w then views[q].writers > 0 else views[q].readers > 0
    ensures Thinned(Drop(t, k), views, ViewsClosed(views, q, w)) && TightKept(views, ViewsClosed(views, q, w))
  {
    hide Counted, Counts, Drop, CanDrop, EndHolders, TightKept, Thinned, Closed;
    LastHolder(t, views, k, q, w);
    TightClosed(views, q, w);
    ThinsOne(Drop(t, k), views, q, w);
  }

  lemma ThinsOne(t: Tables, views: map<nat, View>, q: nat, w: bool)
    requires q in views && (if w then views[q].writers > 0 else views[q].readers > 0)
    requires (if w then views[q].writers else views[q].readers) == 1 ==> EndHolders(t, q, w) == {}
    ensures Thinned(t, views, ViewsClosed(views, q, w))
  {
    hide EndHolders;
  }

  lemma ClosedRouses(t: Tables, calls: map<nat, Call>, state: map<nat, State>, queues: map<nat, seq<nat>>,
                     place: map<nat, nat>, views: map<nat, View>, k: Key, q: nat, w: bool)
    requires Counted(t) && Counts(t.pipes, views) && CanDrop(t, k) && t.files[t.slots[k]].kind == PipeEnd(q, w)
    requires Benches(calls, state, queues, views) && Parked(state, queues, place)
    requires q in views && QueueOf(q, !w) in queues && Rescued(views[q], w) <= |queues[QueueOf(q, !w)]|
    ensures Rouses(Drop(t, k), calls, state, Awake(state, queues[QueueOf(q, !w)][..Rescued(views[q], w)]))
  {
    LastHolder(t, views, k, q, w);
    hide Counted, Counts, Drop, CanDrop, EndHolders, Benches, Parked;
    var n, x := Rescued(views[q], w), QueueOf(q, !w);
    forall p | p in queues[x][..n]
      ensures p in state && state[p] == Blocked && p in calls && At(calls[p], q, !w)
    {
      assert p in queues[x];
      SleeperKnown(calls, state, queues, place, views, q, !w, p);
    }
  }

  /** Who is on the queue of an end is blocked, inside a call at that end. */
  lemma SleeperKnown(calls: map<nat, Call>, state: map<nat, State>, queues: map<nat, seq<nat>>, place: map<nat, nat>,
                     views: map<nat, View>, q: nat, w: bool, p: nat)
    requires Benches(calls, state, queues, views) && Parked(state, queues, place) && q in views
    requires QueueOf(q, w) in queues && p in queues[QueueOf(q, w)]
    ensures p in state && state[p] == Blocked && p in calls && At(calls[p], q, w)
  {
    hide NoDup;
    assert queues[QueueOf(q, w)] == Sleepers(views[q], w);
  }

  lemma OwnedLess(slots: map<Key, nat>, state: map<nat, State>, k: Key)
    requires Owned(slots, state)
    ensures Owned(slots - {k}, state)
  {
  }

  lemma BenchesClosed(calls: map<nat, Call>, state: map<nat, State>, queues: map<nat, seq<nat>>,
                      views: map<nat, View>, c: nat, q: nat, w: bool)
    requires Benches(calls, state, queues, views) && Free(state, views, c) && c !in calls && q in views
    requires (if w then views[q].writers > 0 else views[q].readers > 0) && BothOpen(Closed(views[q], w))
    requires q !in ViewsClosed(views, q, w) ==> forall p <- calls :: calls[p].pipe != q
    ensures QueueOf(q, w) in queues && QueueOf(q, !w) in queues
    ensures Rescued(views[q], w) <= |queues[QueueOf(q, !w)]|
    ensures var n, x, views' := Rescued(views[q], w), QueueOf(q, !w), ViewsClosed(views, q, w);
            var state' := Awake(state, queues[x][..n]);
            && Benches(calls, state', queues[x := queues[x][n..]], views')
            && (AllLive(views, calls, state) ==> AllLive(views', calls, state'))
  {
    hide Benches, Free, AllLive, Awake;
    var v := views[q];
    var n, x, v' := Rescued(v, w), QueueOf(q, !w), Closed(v, w);
    BenchesAfter(calls, state, queues, views, q, w, c, v', n, false, if w then Writing(q, [], 0) else Reading(q, 0));
    assert calls - {c} == calls;
    var state' := Awake(state, queues[x][..n]);
    if v'.readers == 0 && v'.writers == 0 {
      BenchesLess(calls, state', queues[x := queues[x][n..]], views[q := v'], q);
      assert views[q := v'] - {q} == views - {q};
    }
    if AllLive(views, calls, state) {
      WakingLive(views, ViewsClosed(views, q, w), calls, state, state', calls, c);
    }
  }

  /** A descriptor of anything else goes. */
  lemma DropTied(t: Tables, asleep: map<nat, Spot>, nextPipe: nat, calls: map<nat, Call>, state: map<nat, State>,
                 queues: map<nat, seq<nat>>, views: map<nat, View>, k: Key)
    requires Tied(t, asleep, nextPipe, calls, state, queues, views)
    requires CanDrop(t, k) && !t.files[t.slots[k]].kind.PipeEnd?
    ensures Tied(Drop(t, k), asleep, nextPipe, calls, state, queues, views)
    ensures Thinned(Drop(t, k), views, views) && Rouses(Drop(t, k), calls, state, state)
  {
  }

  /** One more descriptor of a living process. */
  lemma AttachTied(t: Tables, asleep: map<nat, Spot>, nextPipe: nat, calls: map<nat, Call>, state: map<nat, State>,
                   queues: map<nat, seq<nat>>, views: map<nat, View>, k: Key, f: nat)
    requires Tied(t, asleep, nextPipe, calls, state, queues, views)
    requires f in t.files && (t.files[f].kind.PipeEnd? ==> t.files[f].kind.pipe in t.pipes)
    requires k.0 in state && state[k.0] != Dead
    ensures var kind := t.files[f].kind;
            && (kind.PipeEnd? ==> kind.pipe in views)
            && var views' := if kind.PipeEnd? then views[kind.pipe := Opened(views[kind.pipe], kind.writing)]
                             else views;
            && Tied(Add(t, k, f), asleep, nextPipe, calls, state, queues, views')
            && (AllLive(views, calls, state) ==> AllLive(views', calls, state))
  {
    hide Seated, Shared, Roused;
    var kind := t.files[f].kind;
    if kind.PipeEnd? {
      var q := kind.pipe;
      var views' := views[q := Opened(views[q], kind.writing)];
      SeatedSame(views, views', calls, state);
      SharedSame(views, views', queues);
    }
  }

  lemma SharedSame(views: map<nat, View>, views': map<nat, View>, queues: map<nat, seq<nat>>)
    requires Shared(views, queues) && views'.Keys == views.Keys
    requires forall q <- views, w: bool :: Sleepers(views'[q], w) == Sleepers(views[q], w)
    ensures Shared(views', queues)
  {
  }

  /** Nobody inside a call stops, and nobody else's state matters to the pipes. */
  lemma StoppedTied(t: Tables, asleep: map<nat, Spot>, nextPipe: nat, calls: map<nat, Call>, state: map<nat, State>,
                    queues: map<nat, seq<nat>>, views: map<nat, View>, c: nat, state': map<nat, State>,
                    children: seq<nat>)
    requires Tied(t, asleep, nextPipe, calls, state, queues, views) && CHILD_QUEUE in queues && c !in calls
    requires forall p <- state :: p in state' && (p == c || state'[p] == state[p] || state'[p] == Ready)
    requires c in state' && (state'[c] == Dead ==> forall k <- t.slots :: k.0 != c)
    ensures Tied(t, asleep, nextPipe, calls, state', queues[CHILD_QUEUE := children], views)
    ensures AllLive(views, calls, state) ==> AllLive(views, calls, state')
  {
    hide AllLive;
    forall p | p in calls ensures SeatOf(views, calls[p], state', p) { assert SeatOf(views, calls[p], state, p); }
    forall q, w: bool | q in views
      ensures QueueOf(q, w) in queues && queues[CHILD_QUEUE := children][QueueOf(q, w)] == Sleepers(views[q], w)
    {
      assert queues[QueueOf(q, w)] == Sleepers(views[q], w);
    }
    hide Seated, Shared;
    if AllLive(views, calls, state) { WakingLive(views, views, calls, state, state', calls, c); }
  }

  lemma ReapedTied(t: Tables, asleep: map<nat, Spot>, nextPipe: nat, calls: map<nat, Call>, state: map<nat, State>,
                   queues: map<nat, seq<nat>>, views: map<nat, View>, p: nat)
    requires Tied(t, asleep, nextPipe, calls, state, queues, views) && p in state && state[p] == Dead
    ensures Tied(t, asleep, nextPipe, calls, state - {p}, queues, views)
    ensures AllLive(views, calls, state) ==> AllLive(views, calls, state - {p})
  {
    forall x | x in calls ensures SeatOf(views, calls[x], state - {p}, x) { assert SeatOf(views, calls[x], state, x); }
    if AllLive(views, calls, state) {
      hide AllLive;
      assert p !in calls;
      hide Seated, Shared;
      WakingLive(views, views, calls, state, state - {p}, calls, p);
    }
  }

  lemma SeatWrites(calls: map<nat, Call>, state: map<nat, State>, queues: map<nat, seq<nat>>, views: map<nat, View>,
                   c: nat)
    requires Benches(calls, state, queues, views) && c in calls && calls[c].Writing?
    ensures calls[c].written < |calls[c].data| || calls[c].written == |calls[c].data| == 0
  {
    assert SeatOf(views, calls[c], state, c);
  }

  lemma SameTied(t: Tables, u: Tables, asleep: map<nat, Spot>, nextPipe: nat, calls: map<nat, Call>,
                 state: map<nat, State>, queues: map<nat, seq<nat>>, views: map<nat, View>)
    requires Tied(t, asleep, nextPipe, calls, state, queues, views) && u.slots == t.slots && u.pipes == t.pipes
    ensures Tied(u, asleep, nextPipe, calls, state, queues, views)
  {
  }

  /** A new pipe has two empty queues of its own. */
  lemma PipeTied(t: Tables, u: Tables, asleep: map<nat, Spot>, q: nat, calls: map<nat, Call>, state: map<nat, State>,
                 queues: map<nat, seq<nat>>, views: map<nat, View>, c: nat)
    requires Tied(t, asleep, q, calls, state, queues, views) && q !in t.pipes
    requires c in state && state[c] != Dead && u.pipes == t.pipes[q := Ends(1, 1)]
    requires forall k <- u.slots :: k in t.slots || k.0 == c
    ensures q !in views && QueueOf(q, false) !in queues && QueueOf(q, true) !in queues[QueueOf(q, false) := []]
    ensures var views' := views[q := NewView()];
            && Tied(u, asleep, q + 1, calls, state, queues[QueueOf(q, false) := []][QueueOf(q, true) := []], views')
            && (AllLive(views, calls, state) ==> AllLive(views', calls, state))
  {
    hide Benches, AllLive;
    BenchesMore(calls, state, queues, views, q);
  }

  lemma BenchesMore(calls: map<nat, Call>, state: map<nat, State>, queues: map<nat, seq<nat>>, views: map<nat, View>,
                    q: nat)
    requires Benches(calls, state, queues, views) && q !in views
    requires QueueOf(q, false) !in queues && QueueOf(q, true) !in queues
    ensures var views' := views[q := NewView()];
            && Benches(calls, state, queues[QueueOf(q, false) := []][QueueOf(q, true) := []], views')
            && (AllLive(views, calls, state) ==> AllLive(views', calls, state))
  {
    hide Roused;
    var views' := views[q := NewView()];
    var queues' := queues[QueueOf(q, false) := []][QueueOf(q, true) := []];
    forall x, w: bool | x in views'
      ensures QueueOf(x, w) in queues' && queues'[QueueOf(x, w)] == Sleepers(views'[x], w)
    {
      if x != q { assert QueueOf(x, w) in queues; }
    }
    hide Shared;
    forall p | p in calls ensures SeatOf(views', calls[p], state, p) { assert SeatOf(views, calls[p], state, p); }
    forall x, w, p | x in views' && p in Sleepers(views'[x], w) ensures p in calls && At(calls[p], x, w) {
      assert x != q && p in Sleepers(views[x], w);
    }
  }

  lemma NewTied(t: Tables, asleep: map<nat, Spot>, nextPipe: nat, calls: map<nat, Call>, state: map<nat, State>,
                queues: map<nat, seq<nat>>, views: map<nat, View>, p: nat)
    requires Tied(t, asleep, nextPipe, calls, state, queues, views) && p !in state
    ensures Tied(t, asleep, nextPipe, calls, state[p := Ready], queues, views)
    ensures AllLive(views, calls, state) ==> AllLive(views, calls, state[p := Ready])
    ensures p !in calls && p !in asleep && forall k <- t.slots :: k.0 != p
  {
    hide AllLive, Roused, Seated, Shared;
    NewSeated(views, calls, state, p);
    if AllLive(views, calls, state) {
      WakingLive(views, views, calls, state, state[p := Ready], calls, p);
    }
  }

  lemma NewSeated(views: map<nat, View>, calls: map<nat, Call>, state: map<nat, State>, p: nat)
    requires Seated(views, calls, state) && p !in state
    ensures Seated(views, calls, state[p := Ready]) && p !in calls
  {
    forall x | x in calls ensures SeatOf(views, calls[x], state[p := Ready], x) && x != p {
      assert SeatOf(views, calls[x], state, x);
    }
  }

  /** A living process gets descriptors of things other than pipes. */
  lemma MoreTied(t: Tables, u: Tables, asleep: map<nat, Spot>, nextPipe: nat, calls: map<nat, Call>,
                 state: map<nat, State>, queues: map<nat, seq<nat>>, views: map<nat, View>, p: nat)
    requires Tied(t, asleep, nextPipe, calls, state, queues, views) && p in state && state[p] != Dead
    requires u.pipes == t.pipes && forall k <- u.slots :: k in t.slots || k.0 == p
    ensures Tied(u, asleep, nextPipe, calls, state, queues, views)
  {
  }

  lemma OwnedAfter(slots: map<Key, nat>, state: map<nat, State>, woken: seq<nat>, c: nat, sleeps: bool)
    requires Owned(slots, state) && c in state
    ensures Owned(slots, StateAfter(state, woken, c, sleeps))
  {
  }

  lemma NothingTied(nextPipe: nat)
    ensures Tied(Tables(map[], map[], map[]), map[], nextPipe, map[], map[], map[CHILD_QUEUE := []], map[])
  {
  }

  lemma AwakeNobody(state: map<nat, State>)
    ensures Awake(state, []) == state
  {
  }

  lemma AwakeOneMore(state: map<nat, State>, queue: seq<nat>, i: nat)
    requires i < |queue|
    ensures queue[i] in Awake(state, queue[..i]) ==>
              Awake(state, queue[..i + 1]) == Awake(state, queue[..i])[queue[i] := Ready]
  {
    assert queue[..i + 1] == queue[..i] + [queue[i]];
  }

  lemma QueueKnown(state: map<nat, State>, queues: map<nat, seq<nat>>, place: map<nat, nat>, x: nat)
    requires Parked(state, queues, place) && x in queues
    ensures queues[x] != [] ==> queues[x][0] in state
  {
    if queues[x] != [] { assert queues[x][0] in queues[x]; }
  }

  lemma StaysSame(s: Snapshot)
    ensures Stays(s, s)
  {
  }

  lemma StaysOn(s: Snapshot, t: Snapshot, u: Snapshot)
    requires Stays(s, t) && Stays(t, u)
    ensures Stays(s, u)
  {
  }
}
