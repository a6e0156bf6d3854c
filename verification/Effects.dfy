/** What each system call does to the descriptors, the pipes and the processes, as a relation between two moments. */
module Effects {
  import opened Collections
  import opened Pages
  import opened Blocks
  import opened Scheduler
  import opened Descriptors
  import opened Wakeups
  import Pipe

  /** How a call ends for the process that makes it. */
  datatype Outcome =
    | Done(result: int, data: seq<Byte>)
    | Slept
    | Halted
    | Elsewhere

  /** What a process in user mode can ask for. */
  datatype Op =
    | Compute
    | ReadCall(rfd: int, size: nat)
    | WriteCall(wfd: int, data: seq<Byte>)
    | OpenCall(outcome: int, cloexec: bool)
    | PipeCall(known: bool, cloexec: bool)
    | CloseCall(fd: int)
    | DupCall(dfd: int, from: int, cloexec: bool)
    | Dup2Call(oldfd: int, newfd: int)
    | Dup3Call(oldfd: int, newfd: int, cloexec: bool)
    | ForkCall
    | ExecCall
    | WaitCall(child: nat)
    | ExitCall

  predicate EmptyWrite(op: Op) {
    op.WriteCall? && op.data == []
  }

  /** The system between two steps: the pipes, the calls of processes that sleep on them or were just woken, the
      states of all processes, who has control, the descriptors with their close-on-exec flags, and who waits for a
      child. */
  datatype Moment = Moment(views: map<nat, View>, calls: map<nat, Call>, state: map<nat, State>, current: int,
                           t: Tables, cloexec: set<Key>, waiting: seq<nat>)

  // ----- reads and writes of pipes

  /** A queue lost its first members and nobody else. */
  ghost predicate Shrank(before: seq<nat>, after: seq<nat>) {
    |after| <= |before| && after == before[|before| - |after|..]
  }

  /** What a read by `c` makes of the pipe: sleep, or the next bytes and a sleeping writer woken, just
      one if the bytes did not go around the end of the ring. */
  ghost predicate Reads(v: View, v': View, c: nat, size: nat, out: Outcome) {
    && v'.sent == v.sent && v'.readers == v.readers && v'.writers == v.writers && out != Elsewhere
    && (out == Slept <==> v.length == 0 && v.writers > 0)
    && (out == Halted <==> size == 0 && v.length == PAGE_SIZE)
    && (out == Slept ==> v'.received == v.received && v'.length == v.length && v'.offset == v.offset)
    && (out.Done? ==>
         && out.result == |out.data| == Least(size, v.length)
         && v'.received == v.received + out.data && v'.length == v.length - |out.data|)
    && (out != Halted ==>
         && v'.rq == (if out == Slept then [c] + v.rq else v.rq) && Shrank(v.wq, v'.wq)
         && (if v.length == 0 then v'.wq == v.wq else v.wq != [] ==> v'.wq != v.wq)
         && (v.length > 0 && Least(size, v.length) <= PAGE_SIZE - v.offset ==>
              |v'.wq| == |v.wq| - Least(1, |v.wq|)))
  }

  /** A read by the process in control changes the pipe it reads, makes the writers that left its queue
      ready, and either returns or puts the process to sleep inside the call. */
  ghost predicate ReadChanges(m: Moment, m': Moment, q: nat, size: nat, out: Outcome) {
    && 0 <= m.current == m'.current && m'.t == m.t && m'.cloexec == m.cloexec && m'.waiting == m.waiting
    && q in m.views && q in m'.views && m'.views == m.views[q := m'.views[q]]
    && Reads(m.views[q], m'.views[q], m.current, size, out)
    && (out != Halted ==>
         && m'.state == StateAfter(m.state, Gone(m.views[q].wq, m'.views[q].wq), m.current, out == Slept)
         && m'.calls == CallsAfter(m.calls, m.current, out == Slept, Reading(q, size)))
  }

  /** What a write by `c` makes of the pipe; `to` is how far it got if it sleeps. */
  ghost predicate Writes(v: View, v': View, c: nat, data: seq<Byte>, from: nat, out: Outcome, to: nat) {
    && v'.readers == v.readers && v'.writers == v.writers
    && v'.received == v.received && from <= to <= |data| && v'.offset == v.offset
    && (out == Slept || (out.Done? && out.data == []))
    && (out == Slept <==> v.readers > 0 && !(v.length < PAGE_SIZE && v.length + |data| - from <= PAGE_SIZE))
    && (out == Slept ==>
         && v.readers > 0 && v'.sent == v.sent + data[from..to]
         && v'.length == PAGE_SIZE == v.length + to - from && v'.wq == [c] + v.wq)
    && (out.Done? ==>
         && v'.wq == v.wq
         && if v.readers == 0 then out.result == -Pipe.EPIPE && v'.sent == v.sent && v'.length == v.length
            else out.result == |data| && v'.sent == v.sent + data[from..] && v'.length == v.length + |data| - from)
    && Shrank(v.rq, v'.rq)
    && (if v.readers == 0 || v.length == PAGE_SIZE then v'.rq == v.rq else v.rq != [] ==> v'.rq != v.rq)
    && (v.readers > 0 && v.length < PAGE_SIZE && v.offset + v.length + |data| - from <= PAGE_SIZE ==>
         |v'.rq| == |v.rq| - Least(1, |v.rq|))
  }

  /** How far the write of a sleeping process got. */
  ghost function Reached(calls: map<nat, Call>, c: nat, data: seq<Byte>): nat {
    if c in calls && calls[c].Writing? then calls[c].written else |data|
  }

  /** A write by the process in control changes the pipe it writes to, makes the readers that left its
      queue ready, and either returns or puts the process to sleep inside the call. */
  ghost predicate WriteChanges(m: Moment, m': Moment, q: nat, data: seq<Byte>, from: nat, out: Outcome) {
    && 0 <= m.current == m'.current && m'.t == m.t && m'.cloexec == m.cloexec && m'.waiting == m.waiting
    && q in m.views && q in m'.views && m'.views == m.views[q := m'.views[q]]
    && var to := Reached(m'.calls, m.current, data);
    && Writes(m.views[q], m'.views[q], m.current, data, from, out, to)
    && m'.state == StateAfter(m.state, Gone(m.views[q].rq, m'.views[q].rq), m.current, out == Slept)
    && m'.calls == CallsAfter(m.calls, m.current, out == Slept, Writing(q, data, to))
  }

  // ----- descriptors and processes

  /** Two descriptors are the ends of a pipe. */
  ghost predicate Connected(t: Tables, c: int, rfd: int, wfd: int, q: nat) {
    && 0 <= c && 0 <= rfd < wfd < MAX_FD
    && OnPipe(t, Spot((c, rfd), q, false)) && OnPipe(t, Spot((c, wfd), q, true))
  }

  /** The states once process `c` is dead: whoever went to sleep last waiting for a child is ready. */
  ghost function Departed(state: map<nat, State>, waiting: seq<nat>, c: nat): map<nat, State> {
    var dead := state[c := Dead];
    if waiting != [] then dead[waiting[0] := Ready] else dead
  }

  // ----- calls that change descriptors

  /** Somebody holds this end. */
  ghost predicate Held(t: Tables, q: nat, w: bool) {
    EndHolders(t, q, w) != {}
  }

  /** The pipes as descriptors `t` leave them: one is there while somebody holds an end of it, it counts those who
      do, and nobody sleeps on it for an end that nobody holds. */
  ghost function Left(t: Tables, views: map<nat, View>): map<nat, View> {
    map q <- views | Held(t, q, false) || Held(t, q, true) ::
      views[q].(readers := |EndHolders(t, q, false)|, writers := |EndHolders(t, q, true)|,
                rq := if Held(t, q, true) then views[q].rq else [], wq := if Held(t, q, false) then views[q].wq else [])
  }

  /** The states as descriptors `t` leave them: who sleeps for an end that nobody holds is ready. */
  ghost function Relieved(t: Tables, calls: map<nat, Call>, state: map<nat, State>): map<nat, State> {
    map p <- state ::
      if state[p] == Blocked && p in calls && !Held(t, calls[p].pipe, !calls[p].Writing?) then Ready else state[p]
  }

  /** The descriptors change, and the pipes and the sleepers with them. */
  ghost predicate Follows(m: Moment, m': Moment) {
    && m'.calls == m.calls && m'.current == m.current && m'.waiting == m.waiting
    && m'.views == Left(m'.t, m.views) && m'.state == Relieved(m'.t, m.calls, m.state)
    && KindsLeft(m.t, m'.t) && Counted(m'.t)
  }

  /** No end is held again that nobody held. */
  ghost predicate NoRevival(t: Tables, t': Tables) {
    forall q, w :: Held(t', q, w) ==> Held(t, q, w)
  }

  /** What follows from two changes in turn follows from the last one. */
  lemma FollowsOn(m: Moment, mid: Moment, m': Moment)
    requires Follows(m, mid) && Follows(mid, m') && NoRevival(mid.t, m'.t)
    ensures Follows(m, m')
  {
    hide Held, Counted, EndHolders;
    assert m'.state == Relieved(m'.t, m.calls, m.state);
    assert m'.views == Left(m'.t, m.views);
  }

  /** `process_close` */
  ghost predicate Closes(m: Moment, m': Moment, fd: int, r: int) {
    && 0 <= m.current
    && if HasFile(m.t, m.current, fd) then
         && r == 0 && m'.t.slots == m.t.slots - {(m.current, fd)} && m'.cloexec == m.cloexec - {(m.current, fd)}
         && Follows(m, m')
       else r == -EBADF && m' == m
  }

  /** `process_dupfd` */
  ghost predicate Dups(m: Moment, m': Moment, fd: int, from: int, closing: bool, r: int) {
    && 0 <= m.current
    && (r < 0 ==>
         && m' == m
         && if !HasFile(m.t, m.current, fd) then r == -EBADF else if !(0 <= from < MAX_FD) then r == -EINVAL
            else r == -EMFILE && forall i :: from <= i < MAX_FD ==> (m.current, i) in m.t.slots)
    && (r >= 0 ==>
         && HasFile(m.t, m.current, fd) && 0 <= from <= r < MAX_FD && (m.current, r) !in m.t.slots
         && (forall i :: from <= i < r ==> (m.current, i) in m.t.slots)
         && m'.t.slots == m.t.slots[(m.current, r) := m.t.slots[(m.current, fd)]]
         && m'.cloexec == (if closing then m.cloexec + {(m.current, r)} else m.cloexec)
         && Follows(m, m') && m'.state == m.state)
  }

  /** What `process_dup2` and `process_dup3` do to two different descriptors. */
  ghost predicate Replaces(m: Moment, m': Moment, oldfd: nat, newfd: nat) {
    && 0 <= m.current && HasFile(m.t, m.current, oldfd) && newfd < MAX_FD && newfd != oldfd
    && m'.t.slots == m.t.slots[(m.current, newfd) := m.t.slots[(m.current, oldfd)]]
    && Follows(m, m')
  }

  /** The close-on-exec flags once a descriptor was closed, if it was open. */
  ghost function Unflagged(m: Moment, fd: int): set<Key>
    requires 0 <= m.current && 0 <= fd
  {
    if (m.current, fd) in m.t.slots then m.cloexec - {(m.current, fd)} else m.cloexec
  }

  /** `process_dup2` */
  ghost predicate Dups2(m: Moment, m': Moment, oldfd: int, newfd: int, r: int) {
    && 0 <= m.current
    && if !HasFile(m.t, m.current, oldfd) || !(0 <= newfd < MAX_FD) then r == -EBADF && m' == m
       else if oldfd == newfd then r == newfd && m' == m
       else r == newfd && Replaces(m, m', oldfd, newfd) && m'.cloexec == Unflagged(m, newfd)
  }

  /** `process_dup3` */
  ghost predicate Dups3(m: Moment, m': Moment, oldfd: int, newfd: int, closing: bool, r: int) {
    && 0 <= m.current
    && if !HasFile(m.t, m.current, oldfd) || !(0 <= newfd < MAX_FD) then r == -EBADF && m' == m
       else if oldfd == newfd then r == -EINVAL && m' == m
       else
         && r == newfd && Replaces(m, m', oldfd, newfd)
         && m'.cloexec == if closing then m.cloexec + {(m.current, newfd)} else Unflagged(m, newfd)
  }

  /** `process_fork`: one more process, ready, with the descriptors of its parent. */
  ghost predicate Forks(m: Moment, m': Moment, child: nat) {
    && 0 <= m.current && child !in m.state && child !in m.calls && (forall k <- m.t.slots :: k.0 != child)
    && (forall k :: k in m'.t.slots <==> k in m.t.slots || (k.0 == child && (m.current, k.1) in m.t.slots))
    && (forall k <- m'.t.slots ::
         m'.t.slots[k] == if k.0 == child then m.t.slots[(m.current, k.1)] else m.t.slots[k])
    && m'.cloexec == (set k | k in m.cloexec && k.0 != child)
    && m'.state == m.state[child := Ready] && m'.views == Left(m'.t, m.views)
    && m'.calls == m.calls && m'.current == m.current && m'.waiting == m.waiting
    && KindsLeft(m.t, m'.t) && Counted(m'.t)
  }

  /** `process_exec`: the flagged descriptors go. */
  ghost predicate Execs(m: Moment, m': Moment) {
    && 0 <= m.current
    && (forall k :: k in m'.t.slots <==> k in m.t.slots && !(k.0 == m.current && k in m.cloexec))
    && (forall k <- m'.t.slots :: m'.t.slots[k] == m.t.slots[k])
    && (forall k: Key :: k in m'.cloexec <==> k in m.cloexec && !(k.0 == m.current && k in m.t.slots))
    && Follows(m, m')
  }

  /** `process_exit`: all descriptors of the process go, it is dead, and one who waits for a child is ready. */
  ghost predicate Exits(m: Moment, m': Moment) {
    && 0 <= m.current
    && (forall k :: k in m'.t.slots <==> k in m.t.slots && k.0 != m.current)
    && (forall k <- m'.t.slots :: m'.t.slots[k] == m.t.slots[k])
    && m'.cloexec == m.cloexec && m'.calls == m.calls && m'.current == m.current
    && m'.waiting == m.waiting[Least(1, |m.waiting|)..]
    && m'.views == Left(m'.t, m.views)
    && m'.state == Departed(Relieved(m'.t, m.calls, m.state), m.waiting, m.current)
    && KindsLeft(m.t, m'.t) && Counted(m'.t)
  }

  /** `process_wait` of one child: a dead one is gone for good, and for any other the process sleeps. */
  ghost predicate Waits(m: Moment, m': Moment, p: nat, out: Outcome) {
    && 0 <= m.current
    && if p in m.state && m.state[p] == Dead && p != m.current then
         out == Done(p, []) && m' == m.(state := m.state - {p})
       else
         out == Slept && m' == m.(state := m.state[m.current := Blocked], waiting := [m.current] + m.waiting)
  }

  /** `process_open`: a new file on the lowest free descriptor, or an error. */
  ghost predicate Opens(m: Moment, m': Moment, outcome: int, closing: bool, fd: int) {
    && 0 <= m.current && m'.views == m.views && m'.calls == m.calls && m'.state == m.state
    && m'.current == m.current && m'.waiting == m.waiting && m'.t.pipes == m.t.pipes && Counted(m'.t)
    && (fd < 0 ==> m'.t.slots == m.t.slots && KindsLeft(m.t, m'.t))
    && (fd < 0 ==> Retracted(m.t, m.current, m.cloexec, m'.cloexec))
    && if NoneFree(m.t, m.current) then fd == -EMFILE
       else if outcome < 0 then fd == outcome
       else
         && 0 <= fd && Lowest(m.t, m.current, fd)
         && m'.cloexec == (if closing then m.cloexec + {(m.current, fd)} else m.cloexec)
         && exists f: nat :: f !in m.t.files && m'.t.slots == m.t.slots[(m.current, fd) := f]
                        && m'.t.files == m.t.files[f := File(Regular, 1)]
  }

  /** `process_pipe2`: a new pipe on the two lowest free descriptors, or an error. */
  ghost predicate Pipes(m: Moment, m': Moment, known: bool, closing: bool, r: int) {
    && 0 <= m.current && m'.calls == m.calls && m'.state == m.state && m'.current == m.current
    && m'.waiting == m.waiting && Counted(m'.t)
    && (r == if !known then -EINVAL else if TwoFree(m.t, m.current) then 0 else -EMFILE)
    && (r != 0 ==> m'.t.slots == m.t.slots && KindsLeft(m.t, m'.t) && m'.views == m.views)
    && (r == -EINVAL ==> m'.cloexec == m.cloexec)
    && (r == -EMFILE ==> Retracted(m.t, m.current, m.cloexec, m'.cloexec))
    && (r == 0 ==> exists rfd, wfd, q :: PipeOn(m, m', closing, rfd, wfd, q))
  }

  ghost predicate PipeOn(m: Moment, m': Moment, closing: bool, rfd: nat, wfd: nat, q: nat) {
    && 0 <= m.current && Lowest(m.t, m.current, rfd) && rfd < wfd
    && (m.current, wfd) !in m.t.slots && (forall i :: rfd < i < wfd ==> (m.current, i) in m.t.slots)
    && q !in m.views && m'.views == m.views[q := NewView()] && Connected(m'.t, m.current, rfd, wfd, q)
    && m'.t.slots.Keys == m.t.slots.Keys + {(m.current, rfd), (m.current, wfd)}
    && (forall k <- m.t.slots :: m'.t.slots[k] == m.t.slots[k])
    && m'.cloexec == if closing then m.cloexec + {(m.current, rfd), (m.current, wfd)} else m.cloexec
  }

  // ----- steps

  /** What the process in control does when it makes a call. */
  ghost predicate Performs(m: Moment, op: Op, out: Outcome, m': Moment) {
    && 0 <= m.current
    && match op
       case Compute => m' == m && out == Done(0, [])
       case ReadCall(fd, size) => ReadsFrom(m, m', fd, size, out)
       case WriteCall(fd, data) => WritesTo(m, m', fd, data, out)
       case OpenCall(outcome, closing) =>
         out.Done? && Opens(m, m', if outcome < 0 then outcome else 0, closing, out.result)
       case PipeCall(known, closing) => out.Done? && Pipes(m, m', known, closing, out.result)
       case CloseCall(fd) => out.Done? && Closes(m, m', fd, out.result)
       case DupCall(fd, from, closing) => out.Done? && Dups(m, m', fd, from, closing, out.result)
       case Dup2Call(oldfd, newfd) => out.Done? && Dups2(m, m', oldfd, newfd, out.result)
       case Dup3Call(oldfd, newfd, closing) => out.Done? && Dups3(m, m', oldfd, newfd, closing, out.result)
       case ForkCall => out.Done? && out.result >= 0 && Forks(m, m', out.result)
       case ExecCall => out == Done(0, []) && Execs(m, m')
       case WaitCall(p) => Waits(m, m', p, out)
       case ExitCall => out == Done(0, []) && Exits(m, m')
  }

  /** `process_read`: a pipe's bytes, -EBADF, or another kind of file */
  ghost predicate ReadsFrom(m: Moment, m': Moment, fd: int, size: nat, out: Outcome)
    requires 0 <= m.current
  {
    match Target(m.t, m.current, fd)
    case Some(PipeEnd(q, false)) => ReadChanges(m, m', q, size, out)
    case Some(PipeEnd(_, true)) => out == Done(-EBADF, []) && m' == m
    case Some(_) => out == Elsewhere && m' == m
    case None => out == Done(-EBADF, []) && m' == m
  }

  /** `process_write` */
  ghost predicate WritesTo(m: Moment, m': Moment, fd: int, data: seq<Byte>, out: Outcome)
    requires 0 <= m.current
  {
    match Target(m.t, m.current, fd)
    case Some(PipeEnd(q, true)) => WriteChanges(m, m', q, data, 0, out)
    case Some(PipeEnd(_, false)) => out == Done(-EBADF, []) && m' == m
    case Some(_) => out == Elsewhere && m' == m
    case None => out == Done(-EBADF, []) && m' == m
  }

  /** The process in control goes on with the call it was woken from, or makes the call `op`; if nobody has
      control, nothing happens. */
  ghost predicate Acts(m: Moment, op: Op, out: Outcome, m': Moment) {
    if m.current < 0 then m' == m
    else if m.current in m.calls then
      match m.calls[m.current]
      case Reading(q, size) => ReadChanges(m, m', q, size, out)
      case Writing(q, data, from) => WriteChanges(m, m', q, data, from, out)
    else Performs(m, op, out, m')
  }

  /** The process in control reads nothing from a full pipe: the kernel halts on its own check. */
  ghost predicate Halting(m: Moment, op: Op) {
    && 0 <= m.current
    && if m.current in m.calls then
         var call := m.calls[m.current];
         call.Reading? && call.size == 0 && call.pipe in m.views && m.views[call.pipe].length == PAGE_SIZE
       else
         && op.ReadCall? && op.size == 0
         && var target := Target(m.t, m.current, op.rfd);
         && target.Some? && target.value.PipeEnd? && !target.value.writing
         && target.value.pipe in m.views && m.views[target.value.pipe].length == PAGE_SIZE
  }
}
