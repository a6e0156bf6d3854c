/**
 Two runs of three processes that share a pipe, from the start of the system to the point where
 no process can run.
 */
module Runs {
  import opened Collections
  import opened Pages
  import opened Blocks
  import opened Scheduler
  import opened Descriptors
  import opened Wakeups
  import opened PipeTable
  import opened Effects
  import opened Machine

  /** A process, its two children, and the pipe they all have open, with the same descriptors. */
  datatype Cast = Cast(a: nat, b: nat, c: nat, q: nat, rfd: nat, wfd: nat)

  /** Who is ready, blocked or dead, who runs and who is next, who is inside which call, and the pipe. */
  datatype Scene = Scene(state: map<nat, State>, run: seq<nat>, current: int, calls: map<nat, Call>,
                         offset: nat, length: nat, rq: seq<nat>, wq: seq<nat>)

  ghost predicate Holds(t: Tables, k: Cast, p: nat) {
    OnPipe(t, Spot((p, k.rfd), k.q, false)) && OnPipe(t, Spot((p, k.wfd), k.q, true))
  }

  predicate Players(k: Cast) {
    k.a != k.b && k.b != k.c && k.a != k.c && k.rfd < MAX_FD && k.wfd < MAX_FD
  }

  ghost predicate Looks(v: View, x: Scene) {
    v.offset == x.offset && v.length == x.length && v.rq == x.rq && v.wq == x.wq
  }

  /** The system is in this scene. */
  ghost predicate Shows(s: System, k: Cast, x: Scene)
    reads s, s.kernel, s.procs, s.table, s.table.Repr
  {
    && s.Valid() && Players(k) && s.kernel.all == [k.c, k.b, k.a]
    && s.kernel.state == x.state && s.kernel.run == x.run && s.kernel.current == x.current && s.calls == x.calls
    && x.state.Keys == {k.a, k.b, k.c} && k.q in s.table.views && Looks(s.table.views[k.q], x)
    && forall p <- x.state :: x.state[p] != Dead ==> Holds(s.procs.t, k, p)
  }

  // ----- whose turn it is

  function Alone(p: nat, state: map<nat, State>): seq<nat> {
    if p in state && state[p] == Ready then [p] else []
  }

  function Ready3(k: Cast, state: map<nat, State>): seq<nat> {
    Alone(k.a, state) + Alone(k.b, state) + Alone(k.c, state)
  }

  lemma RoundOfTwo(a: nat, b: nat, state: map<nat, State>)
    ensures ReadyOnes([b, a], state) == Alone(a, state) + Alone(b, state)
  {
    assert [b, a][..1] == [b] && [b][..0] == [];
    assert ReadyOnes([b], state) == Alone(b, state);
  }

  lemma RoundOfThree(k: Cast, state: map<nat, State>)
    ensures ReadyOnes([k.c, k.b, k.a], state) == Ready3(k, state)
  {
    assert [k.c, k.b, k.a][..2] == [k.c, k.b] && [k.c, k.b][..1] == [k.c] && [k.c][..0] == [];
    assert ReadyOnes([k.c], state) == Alone(k.c, state);
    assert ReadyOnes([k.c, k.b], state) == Alone(k.b, state) + Alone(k.c, state);
  }

  function Turn(k: Cast, x: Scene): Scene {
    var ready := if x.run != [] then x.run else Ready3(k, x.state);
    if ready == [] then x.(current := NOBODY, run := []) else x.(current := ready[0], run := ready[1..])
  }

  method Yield(s: System, k: Cast, ghost x: Scene) returns (ghost y: Scene)
    requires Shows(s, k, x)
    modifies s.kernel
    ensures y == Turn(k, x) && Shows(s, k, y)
  {
    hide System.Valid, ReadyOnes, Holds;
    RoundOfThree(k, x.state);
    s.Switch();
    y := Turn(k, x);
  }

  // ----- reads and writes

  ghost predicate Onstage(x: Scene) {
    0 <= x.current && x.current in x.state && x.state[x.current] == Ready
  }

  lemma OnlyOne(state: map<nat, State>, queue: seq<nat>)
    requires forall p <- queue :: p in state
    ensures Awake(state, Gone(queue, queue)) == state
    ensures queue != [] ==> Awake(state, Gone(queue, queue[1..])) == state[queue[0] := Ready]
  {
    if queue != [] {
      assert Gone(queue, queue[1..]) == [queue[0]] && queue[0] in queue;
    }
  }

  /** The first of a queue is ready. */
  function Raised(state: map<nat, State>, queue: seq<nat>): map<nat, State> {
    if queue == [] then state else state[queue[0] := Ready]
  }

  function Rest(queue: seq<nat>): seq<nat> {
    if queue == [] then [] else queue[1..]
  }

  /** A write that fits behind the bytes that are there. */
  function Wrote(x: Scene, n: nat): Scene
    requires 0 <= x.current
  {
    x.(length := x.length + n, state := Raised(x.state, x.rq), rq := Rest(x.rq), calls := x.calls - {x.current})
  }

  /** A write to a full pipe. */
  function WriteSleeps(x: Scene, q: nat, data: seq<Byte>): Scene
    requires 0 <= x.current
  {
    x.(state := x.state[x.current := Blocked], wq := [x.current] + x.wq,
       calls := x.calls[x.current := Writing(q, data, 0)])
  }

  lemma WriteFits(m: Moment, m': Moment, x: Scene, q: nat, data: seq<Byte>, out: Outcome)
    requires WriteChanges(m, m', q, data, 0, out) && Looks(m.views[q], x) && m.views[q].readers > 0
    requires m.state == x.state && m.calls == x.calls && m.current == x.current
    requires x.length + |data| <= PAGE_SIZE && x.length < PAGE_SIZE && forall p <- x.rq :: p in x.state
    requires x.rq != [] ==> x.offset + x.length + |data| <= PAGE_SIZE
    ensures out == Done(|data|, []) && Looks(m'.views[q], Wrote(x, |data|))
    ensures m'.state == Wrote(x, |data|).state && m'.calls == Wrote(x, |data|).calls
  {
    hide Awake;
    var v, v' := m.views[q], m'.views[q];
    assert v'.rq == Rest(v.rq);
    OnlyOne(x.state, x.rq);
  }

  lemma WriteFull(m: Moment, m': Moment, x: Scene, q: nat, data: seq<Byte>, out: Outcome)
    requires WriteChanges(m, m', q, data, 0, out) && Looks(m.views[q], x) && m.views[q].readers > 0
    requires m.state == x.state && m.calls == x.calls && m.current == x.current && m.current in m.state
    requires x.length == PAGE_SIZE && forall p <- x.rq :: p in x.state
    ensures out == Slept && Looks(m'.views[q], WriteSleeps(x, q, data))
    ensures m'.state == WriteSleeps(x, q, data).state && m'.calls == WriteSleeps(x, q, data).calls
  {
    hide Awake;
    OnlyOne(x.state, x.rq);
  }

  /** A read of `n` bytes that lie in one piece. */
  function Took(x: Scene, n: nat): Scene
    requires 0 <= x.current && n <= x.length
  {
    x.(length := x.length - n, state := Raised(x.state, x.wq), wq := Rest(x.wq), calls := x.calls - {x.current})
  }

  /** A read of an empty pipe. */
  function ReadSleeps(x: Scene, q: nat, size: nat): Scene
    requires 0 <= x.current
  {
    x.(state := x.state[x.current := Blocked], rq := [x.current] + x.rq,
       calls := x.calls[x.current := Reading(q, size)])
  }

  function ReadScene(x: Scene, q: nat, size: nat): Scene
    requires 0 <= x.current
  {
    if x.length == 0 then ReadSleeps(x, q, size) else Took(x, Least(size, x.length))
  }

  function WriteScene(x: Scene, q: nat, data: seq<Byte>): Scene
    requires 0 <= x.current
  {
    if x.length == PAGE_SIZE then WriteSleeps(x, q, data) else Wrote(x, |data|)
  }

  /** The scenes the runs go through: a read stays within the ring and a write within the room. */
  ghost predicate ReadsPlainly(x: Scene, size: nat) {
    && Onstage(x) && (forall p <- x.wq :: p in x.state && x.state[p] == Blocked) && size > 0
    && (x.length > 0 && x.wq != [] ==> Least(size, x.length) <= PAGE_SIZE - x.offset)
  }

  ghost predicate WritesPlainly(x: Scene, data: seq<Byte>) {
    && Onstage(x) && (forall p <- x.rq :: p in x.state && x.state[p] == Blocked)
    && (x.length == PAGE_SIZE || (x.length < PAGE_SIZE && x.length + |data| <= PAGE_SIZE))
    && (x.length < PAGE_SIZE && x.rq != [] ==> x.offset + x.length + |data| <= PAGE_SIZE)
  }

  ghost predicate SameLiving(state: map<nat, State>, state': map<nat, State>) {
    state'.Keys == state.Keys && forall p <- state :: state'[p] == Dead <==> state[p] == Dead
  }

  lemma ReadPlainly(m: Moment, m': Moment, x: Scene, q: nat, size: nat, out: Outcome)
    requires ReadChanges(m, m', q, size, out) && Looks(m.views[q], x) && m.views[q].writers > 0
    requires m.state == x.state && m.calls == x.calls && m.current == x.current && ReadsPlainly(x, size)
    ensures out != Halted && m'.state == ReadScene(x, q, size).state && m'.calls == ReadScene(x, q, size).calls
    ensures q in m'.views && m'.t == m.t && m'.current == m.current && SameLiving(x.state, m'.state)
    ensures Looks(m'.views[q], ReadScene(x, q, size).(offset := m'.views[q].offset))
    ensures x.length == 0 ==> m'.views[q].offset == x.offset
    ensures if x.length == 0 then out == Slept else out.Done? && out.result == Least(size, x.length)
  {
    hide Awake;
    var v, v' := m.views[q], m'.views[q];
    assert x.length > 0 ==> v'.wq == Rest(v.wq);
    OnlyOne(x.state, x.wq);
  }

  lemma WritePlainly(m: Moment, m': Moment, x: Scene, q: nat, data: seq<Byte>, out: Outcome)
    requires WriteChanges(m, m', q, data, 0, out) && Looks(m.views[q], x) && m.views[q].readers > 0
    requires m.state == x.state && m.calls == x.calls && m.current == x.current && WritesPlainly(x, data)
    ensures var y := WriteScene(x, q, data);
            Looks(m'.views[q], y) && m'.state == y.state && m'.calls == y.calls
    ensures q in m'.views && m'.t == m.t && m'.current == m.current && SameLiving(x.state, m'.state)
    ensures out == if x.length == PAGE_SIZE then Slept else Done(|data|, [])
  {
    hide Awake, Writes, StateAfter, CallsAfter;
    if x.length == PAGE_SIZE { WriteFull(m, m', x, q, data, out); } else { WriteFits(m, m', x, q, data, out); }
  }

  lemma HeldEnds(s: System, k: Cast, p: nat)
    requires s.Valid() && Players(k) && Holds(s.procs.t, k, p)
    ensures k.q in s.table.views && s.table.views[k.q].readers > 0 && s.table.views[k.q].writers > 0
    ensures Target(s.procs.t, p, k.rfd) == Some(PipeEnd(k.q, false))
    ensures Target(s.procs.t, p, k.wfd) == Some(PipeEnd(k.q, true))
  {
    hide System.Valid;
    s.EndIsOpen(Spot((p, k.rfd), k.q, false));
    s.EndIsOpen(Spot((p, k.wfd), k.q, true));
  }

  method Write(s: System, k: Cast, ghost x: Scene, data: seq<Byte>) returns (out: Outcome, ghost y: Scene)
    requires Shows(s, k, x) && WritesPlainly(x, data) && x.current !in x.calls
    modifies s.Footprint()
    ensures s.table.Repr == old(s.table.Repr) && y == WriteScene(x, k.q, data) && Shows(s, k, y)
    ensures out == if x.length == PAGE_SIZE then Slept else Done(|data|, [])
  {
    hide System.Valid, Holds, WriteChanges, Target;
    y := WriteScene(x, k.q, data);
    HeldEnds(s, k, x.current);
    out := s.Write(k.wfd, data);
    WritePlainly(old(s.Here()), s.Here(), x, k.q, data, out);
  }

  method Read(s: System, k: Cast, ghost x: Scene, size: nat) returns (out: Outcome, ghost y: Scene)
    requires Shows(s, k, x) && ReadsPlainly(x, size) && x.current !in x.calls
    modifies s.Footprint()
    ensures s.table.Repr == old(s.table.Repr)
    ensures y == ReadScene(x, k.q, size).(offset := y.offset) && Shows(s, k, y)
    ensures x.length == 0 ==> y.offset == x.offset
    ensures if x.length == 0 then out == Slept else out.Done? && out.result == Least(size, x.length)
  {
    hide System.Valid, Holds, ReadChanges, Target;
    HeldEnds(s, k, x.current);
    out := s.Read(k.rfd, size);
    ReadPlainly(old(s.Here()), s.Here(), x, k.q, size, out);
    y := ReadScene(x, k.q, size).(offset := s.table.views[k.q].offset);
  }

  /** A woken process goes on with its call. */
  method Resume(s: System, k: Cast, ghost x: Scene) returns (out: Outcome, ghost y: Scene)
    requires Shows(s, k, x) && x.current in x.calls && x.calls[x.current].pipe == k.q
    requires match x.calls[x.current]
             case Reading(q, size) => ReadsPlainly(x, size)
             case Writing(q, data, from) => from == 0 && WritesPlainly(x, data)
    modifies s.Footprint()
    ensures s.table.Repr == old(s.table.Repr) && Shows(s, k, y)
    ensures match x.calls[x.current]
            case Reading(q, size) =>
              && y == ReadScene(x, k.q, size).(offset := y.offset)
              && if x.length == 0 then out == Slept else out.Done? && out.result == Least(size, x.length)
            case Writing(q, data, from) =>
              y == WriteScene(x, k.q, data) && out == if x.length == PAGE_SIZE then Slept else Done(|data|, [])
  {
    hide System.Valid, Holds, ReadChanges, WriteChanges, Target;
    HeldEnds(s, k, x.current);
    out := s.Resume();
    match x.calls[x.current]
    case Reading(q, size) =>
      ReadPlainly(old(s.Here()), s.Here(), x, k.q, size, out);
      y := ReadScene(x, k.q, size).(offset := s.table.views[k.q].offset);
    case Writing(q, data, from) =>
      WritePlainly(old(s.Here()), s.Here(), x, k.q, data, out);
      y := WriteScene(x, k.q, data);
  }

  // ----- the end and the beginning of a process

  lemma StillHolds(t: Tables, t': Tables, k: Cast, p: nat, c: nat)
    requires Holds(t, k, p) && p != c && Counted(t') && KindsLeft(t, t')
    requires forall x :: x in t'.slots <==> x in t.slots && x.0 != c
    requires forall x <- t'.slots :: t'.slots[x] == t.slots[x]
    ensures Holds(t', k, p) && EndHolders(t', k.q, false) != {} && EndHolders(t', k.q, true) != {}
  {
    SlotHasFile(t', (p, k.rfd));
    SlotHasFile(t', (p, k.wfd));
    assert (p, k.rfd) in EndHolders(t', k.q, false) && (p, k.wfd) in EndHolders(t', k.q, true);
  }

  lemma Unmoved(t: Tables, views: map<nat, View>, views': map<nat, View>, q: nat)
    requires Thinned(t, views, views') && q in views' && EndHolders(t, q, false) != {} && EndHolders(t, q, true) != {}
    ensures q in views && views'[q].length == views[q].length
    ensures views'[q].rq == views[q].rq && views'[q].wq == views[q].wq
  {
    hide EndHolders;
    assert Sleepers(views'[q], false) == Sleepers(views[q], false);
    assert Sleepers(views'[q], true) == Sleepers(views[q], true);
  }

  lemma Undisturbed(t: Tables, calls: map<nat, Call>, state: map<nat, State>, state': map<nat, State>, q: nat)
    requires Rouses(t, calls, state, state') && EndHolders(t, q, false) != {} && EndHolders(t, q, true) != {}
    requires forall p <- calls :: calls[p].pipe == q
    ensures state' == state
  {
    hide EndHolders;
  }

  /** Process `p` stays behind with both ends. */
  method Leave(s: System, k: Cast, ghost x: Scene, ghost p: nat) returns (ghost y: Scene)
    requires Shows(s, k, x) && Onstage(x) && x.current !in x.calls
    requires p in x.state && p != x.current && x.state[p] != Dead
    requires forall i <- x.calls :: x.calls[i].pipe == k.q
    requires forall i <- x.state :: x.state[i] == Blocked ==> i in x.calls
    modifies s.Footprint()
    ensures s.table.Repr == old(s.table.Repr)
    ensures y == x.(state := x.state[x.current := Dead], offset := y.offset) && Shows(s, k, y)
  {
    hide System.Valid, Holds, Counted, Thinned, Rouses, EndHolders, KindsLeft, Exits;
    ghost var t := s.procs.t;
    s.NobodyAwaits();
    ghost var views := s.table.views;
    ghost var mid := s.Exit();
    s.Facts();
    forall i | i in x.state && x.state[i] != Dead && i != x.current ensures Holds(s.procs.t, k, i) {
      StillHolds(t, s.procs.t, k, i, x.current);
    }
    StillHolds(t, s.procs.t, k, p, x.current);
    HeldEnds(s, k, p);
    Unmoved(s.procs.t, views, s.table.views, k.q);
    Undisturbed(s.procs.t, x.calls, x.state, mid, k.q);
    y := x.(state := x.state[x.current := Dead], offset := s.table.views[k.q].offset);
  }

  lemma Copied(t: Tables, t': Tables, k: Cast, p: nat, child: nat)
    requires Holds(t, k, p) && SameKinds(t, t') && forall x <- t.slots :: x.0 != child
    requires forall x :: x in t'.slots <==> x in t.slots || (x.0 == child && (p, x.1) in t.slots)
    requires forall x <- t'.slots :: t'.slots[x] == if x.0 == child then t.slots[(p, x.1)] else t.slots[x]
    ensures Holds(t', k, child) && forall i :: Holds(t, k, i) ==> Holds(t', k, i)
  {
  }

  /** A system with one process, which has opened a pipe. */
  method Begin() returns (s: System, a: nat, q: nat, rfd: nat, wfd: nat)
    ensures fresh(s.Footprint()) && s.Valid() && s.Flowing() && s.calls == map[]
    ensures s.kernel.all == [a] && s.kernel.state == map[a := Ready] && s.kernel.run == [] && s.kernel.current == a
    ensures q in s.table.views && s.table.views[q] == NewView()
    ensures rfd < wfd < MAX_FD && Holds(s.procs.t, Cast(0, 0, 0, q, rfd, wfd), a)
  {
    hide System.Valid, System.Flowing, Pipes;
    s := new System();
    a := s.Start();
    assert ReadyOnes([a], s.kernel.state) == [a] by { assert [a][..0] == []; }
    s.Switch();
    assert (a, 3) !in s.procs.t.slots && (a, 4) !in s.procs.t.slots;
    BothFree(s.procs.t, a, 3, 4);
    hide TwoFree;
    q := s.procs.nextPipe;
    var r, i, j := s.Pipe2(true, false);
    rfd, wfd := i, j;
    s.Switch();
  }

  /** The scene after the second fork: all three are ready and the elder child runs. */
  function Opening(k: Cast): Scene {
    Scene(map[k.a := Ready, k.b := Ready, k.c := Ready], [], k.b, map[], 0, 0, [], [])
  }

  /** A fork by the process in control, seen by holders of the pipe. */
  method Spawn(s: System, q: nat, rfd: nat, wfd: nat) returns (p: nat)
    requires s.Valid() && s.kernel.Running() && s.kernel.current !in s.calls
    requires q in s.table.views && Holds(s.procs.t, Cast(0, 0, 0, q, rfd, wfd), s.kernel.current)
    modifies s.Footprint()
    ensures s.Valid() && (old(s.Flowing()) ==> s.Flowing())
    ensures s.table.Repr == old(s.table.Repr) && s.calls == old(s.calls)
    ensures s.kernel.all == [p] + old(s.kernel.all) && p !in old(s.kernel.state)
    ensures s.kernel.state == old(s.kernel.state)[p := Ready] && s.kernel.run == old(s.kernel.run)
    ensures s.kernel.current == old(s.kernel.current) && q in s.table.views
    ensures SameButEnds(old(s.table.views)[q], s.table.views[q])
    ensures var k := Cast(0, 0, 0, q, rfd, wfd);
            Holds(s.procs.t, k, p) && forall i :: Holds(old(s.procs.t), k, i) ==> Holds(s.procs.t, k, i)
  {
    hide System.Valid, System.Flowing, Forks;
    ghost var k := Cast(0, 0, 0, q, rfd, wfd);
    ghost var c, t := s.kernel.current, s.procs.t;
    p := s.Fork();
    Copied(t, s.procs.t, k, c, p);
    s.EndIsOpen(Spot((c, rfd), q, false));
  }

  /** And two children. */
  method Assemble() returns (s: System, k: Cast, ghost x: Scene)
    ensures fresh(s.Footprint()) && Players(k) && Shows(s, k, x) && s.Flowing() && x == Opening(k)
  {
    hide System.Valid, System.Flowing;
    var a, q, rfd, wfd;
    s, a, q, rfd, wfd := Begin();
    var b := Spawn(s, q, rfd, wfd);
    RoundOfTwo(a, b, s.kernel.state);
    assert s.kernel.all == [b, a] && Alone(a, s.kernel.state) + Alone(b, s.kernel.state) == [a, b];
    hide ReadyOnes;
    s.Switch();
    assert s.kernel.run == [b];
    var c := Spawn(s, q, rfd, wfd);
    s.Switch();
    k := Cast(a, b, c, q, rfd, wfd);
    x := Opening(k);
    assert Holds(s.procs.t, k, a) && Holds(s.procs.t, k, b) && Holds(s.procs.t, k, c);
    hide Holds;
    assert s.kernel.all == [c, b, a] && x.state.Keys == {a, b, c};
  }

  // ----- a write of no bytes

  function Page(): (data: seq<Byte>)
    ensures |data| == PAGE_SIZE
  {
    seq(PAGE_SIZE, i => 0)
  }

  function Filled(k: Cast): Scene {
    Scene(map[k.a := Ready, k.b := Ready, k.c := Ready], [k.c], k.b, map[], 0, PAGE_SIZE, [], [])
  }

  function OneSleeps(k: Cast): Scene {
    Scene(map[k.a := Ready, k.b := Blocked, k.c := Ready], [k.c], k.a, map[k.b := Writing(k.q, [7], 0)], 0, PAGE_SIZE,
          [], [k.b])
  }

  /** Both writers sleep, the one with nothing to write in front. */
  function BothSleep(k: Cast): Scene {
    Scene(map[k.a := Blocked, k.b := Blocked, k.c := Ready], [], k.c,
          map[k.a := Writing(k.q, [], 0), k.b := Writing(k.q, [7], 0)], 0, PAGE_SIZE, [], [k.a, k.b])
  }

  /** The reader has read everything and woken that one. */
  function Drained(k: Cast, offset: nat): Scene {
    Scene(map[k.a := Ready, k.b := Blocked, k.c := Ready], [k.c], k.a,
          map[k.a := Writing(k.q, [], 0), k.b := Writing(k.q, [7], 0)], offset, 0, [], [k.b])
  }

  /** It has left, and the reader sleeps. */
  function Stranded(k: Cast, offset: nat): Scene {
    Scene(map[k.a := Ready, k.b := Blocked, k.c := Blocked], [], k.a,
          map[k.b := Writing(k.q, [7], 0), k.c := Reading(k.q, 1)], offset, 0, [k.c], [k.b])
  }

  function Stuck(k: Cast, offset: nat): Scene {
    Stranded(k, offset).(state := map[k.a := Dead, k.b := Blocked, k.c := Blocked], current := NOBODY)
  }

  lemma FillScenes(k: Cast)
    requires Players(k)
    ensures WritesPlainly(Opening(k), Page()) && Opening(k).current !in Opening(k).calls
    ensures Turn(k, Turn(k, WriteScene(Opening(k), k.q, Page()))) == Filled(k)
  {
    var x := WriteScene(Opening(k), k.q, Page());
    assert x == Scene(map[k.a := Ready, k.b := Ready, k.c := Ready], [], k.b, map[], 0, PAGE_SIZE, [], []);
    assert Turn(k, x).run == [k.b, k.c];
  }

  lemma SleepScenes(k: Cast)
    requires Players(k)
    ensures WritesPlainly(Filled(k), [7]) && Filled(k).current !in Filled(k).calls
    ensures Turn(k, Turn(k, WriteScene(Filled(k), k.q, [7]))) == OneSleeps(k)
    ensures WritesPlainly(OneSleeps(k), []) && OneSleeps(k).current !in OneSleeps(k).calls
    ensures Turn(k, WriteScene(OneSleeps(k), k.q, [])) == BothSleep(k)
  {
  }

  lemma DrainScenes(k: Cast, offset: nat)
    requires Players(k)
    ensures ReadsPlainly(BothSleep(k), PAGE_SIZE) && BothSleep(k).current !in BothSleep(k).calls
    ensures Turn(k, ReadScene(BothSleep(k), k.q, PAGE_SIZE).(offset := offset)) == Drained(k, offset)
  {
    var x := ReadScene(BothSleep(k), k.q, PAGE_SIZE);
    assert x.state == map[k.a := Ready, k.b := Blocked, k.c := Ready] && x.wq == [k.b];
  }

  /** The scene in between: nobody is awake at the writing end. */
  lemma StrandScenes(k: Cast, o: nat, offset: nat)
    requires Players(k)
    ensures var x := Drained(k, o);
            && x.current in x.calls && x.calls[x.current] == Writing(k.q, [], 0) && WritesPlainly(x, [])
            && var y := Turn(k, WriteScene(x, k.q, []));
            && ReadsPlainly(y, 1) && y.current !in y.calls
            && Turn(k, ReadScene(y, k.q, 1).(offset := offset)) == Stranded(k, offset)
  {
    var x := WriteScene(Drained(k, o), k.q, []);
    assert x == Scene(map[k.a := Ready, k.b := Blocked, k.c := Ready], [k.c], k.a, map[k.b := Writing(k.q, [7], 0)], o,
                      0, [], [k.b]);
    var y := Turn(k, x);
    assert y == Scene(x.state, [], k.c, x.calls, o, 0, [], [k.b]);
  }

  lemma StuckScenes(k: Cast, o: nat, offset: nat)
    requires Players(k)
    ensures var x := Stranded(k, o);
            && Onstage(x) && x.current !in x.calls && x.state[k.b] != Dead && k.b in x.state && k.b != x.current
            && (forall i <- x.calls :: x.calls[i].pipe == k.q)
            && (forall i <- x.state :: x.state[i] == Blocked ==> i in x.calls)
            && Turn(k, x.(state := x.state[x.current := Dead], offset := offset)) == Stuck(k, offset)
  {
  }

  /** A write of no bytes that sleeps on a full pipe takes the wakeup meant for a writer with something
      to write, and leaves: at the end that writer and a reader sleep on the empty pipe, nobody can
      run, and the pipe is stuck. */
  method EmptyWriteStalls() returns (s: System, k: Cast)
    ensures s.Valid() && !s.Flowing() && s.kernel.current == NOBODY
    ensures forall p <- s.kernel.state :: s.kernel.state[p] != Ready
    ensures k.q in s.table.views && s.table.views[k.q].length == 0
    ensures s.table.views[k.q].rq == [k.c] && s.table.views[k.q].wq == [k.b]
  {
    hide Shows, Turn, WriteScene, ReadScene, WritesPlainly, ReadsPlainly, Opening, Filled, OneSleeps, BothSleep, Page,
         Drained, Stranded, Stuck, Onstage, System.Valid, System.Flowing;
    ghost var x;
    var out;
    s, k, x := Assemble();
    FillScenes(k);
    out, x := Write(s, k, x, Page());
    x := Yield(s, k, x);
    x := Yield(s, k, x);
    SleepScenes(k);
    out, x := Write(s, k, x, [7]);
    x := Yield(s, k, x);
    x := Yield(s, k, x);
    out, x := Write(s, k, x, []);
    x := Yield(s, k, x);
    assert x == BothSleep(k);
    DrainScenes(k, 0);
    out, x := Read(s, k, x, PAGE_SIZE);
    DrainScenes(k, x.offset);
    ghost var o := x.offset;
    x := Yield(s, k, x);
    StrandScenes(k, o, 0);
    out, x := Resume(s, k, x);
    x := Yield(s, k, x);
    out, x := Read(s, k, x, 1);
    StrandScenes(k, o, x.offset);
    o := x.offset;
    x := Yield(s, k, x);
    StuckScenes(k, o, 0);
    x := Leave(s, k, x, k.b);
    StuckScenes(k, o, x.offset);
    o := x.offset;
    x := Yield(s, k, x);
    StuckShows(s, k, o);
  }

  lemma StuckShows(s: System, k: Cast, offset: nat)
    requires Shows(s, k, Stuck(k, offset))
    ensures s.Valid() && !s.Flowing() && s.kernel.current == NOBODY
    ensures forall p <- s.kernel.state :: s.kernel.state[p] != Ready
    ensures k.q in s.table.views && s.table.views[k.q].length == 0
    ensures s.table.views[k.q].rq == [k.c] && s.table.views[k.q].wq == [k.b]
  {
    hide System.Valid, Holds;
    assert !Live(s.table.views[k.q], Roused(s.calls, s.kernel.state, k.q, false),
                 Roused(s.calls, s.kernel.state, k.q, true));
  }

  // ----- a read of less than there is

  function Waiting(k: Cast): Scene {
    Scene(map[k.a := Ready, k.b := Blocked, k.c := Blocked], [], k.a,
          map[k.b := Reading(k.q, 1), k.c := Reading(k.q, 1)], 0, 0, [k.c, k.b], [])
  }

  function Served(k: Cast): Scene {
    Scene(map[k.a := Ready, k.b := Blocked, k.c := Ready], [k.c], k.a,
          map[k.b := Reading(k.q, 1), k.c := Reading(k.q, 1)], 0, 2, [k.b], [])
  }

  function Leftover(k: Cast, offset: nat): Scene {
    Scene(map[k.a := Dead, k.b := Blocked, k.c := Ready], [], k.c, map[k.b := Reading(k.q, 1)], offset, 1, [k.b], [])
  }

  function Abandoned(k: Cast, offset: nat): Scene {
    Leftover(k, offset).(state := map[k.a := Dead, k.b := Blocked, k.c := Dead], current := NOBODY)
  }

  function Second(k: Cast): Scene {
    Scene(map[k.a := Ready, k.b := Blocked, k.c := Ready], [], k.c, map[k.b := Reading(k.q, 1)], 0, 0, [k.b], [])
  }

  lemma FirstScenes(k: Cast)
    requires Players(k)
    ensures var x := Opening(k);
            && ReadsPlainly(x, 1) && x.current !in x.calls && x.length == 0 && x.offset == 0
            && Turn(k, Turn(k, ReadScene(x, k.q, 1).(offset := 0))) == Second(k)
  {
    var y := ReadScene(Opening(k), k.q, 1);
    assert y == Scene(map[k.a := Ready, k.b := Blocked, k.c := Ready], [], k.b, map[k.b := Reading(k.q, 1)], 0, 0,
                      [k.b], []);
    assert Turn(k, y).run == [k.c];
  }

  lemma WaitScenes(k: Cast)
    requires Players(k)
    ensures var x := Second(k);
            && ReadsPlainly(x, 1) && x.current !in x.calls && x.length == 0 && x.offset == 0
            && Turn(k, ReadScene(x, k.q, 1).(offset := 0)) == Waiting(k)
  {
  }

  lemma ServeScenes(k: Cast)
    requires Players(k)
    ensures WritesPlainly(Waiting(k), [5, 6]) && Waiting(k).current !in Waiting(k).calls
    ensures Turn(k, WriteScene(Waiting(k), k.q, [5, 6])) == Served(k)
  {
    var x := WriteScene(Waiting(k), k.q, [5, 6]);
    assert x.state == map[k.a := Ready, k.b := Blocked, k.c := Ready] && x.rq == [k.b];
  }

  lemma LeaveScenes(k: Cast, o: nat, offset: nat)
    requires Players(k)
    ensures var x := Served(k);
            && Onstage(x) && x.current !in x.calls && k.b in x.state && x.state[k.b] != Dead && k.b != x.current
            && (forall i <- x.calls :: x.calls[i].pipe == k.q)
            && (forall i <- x.state :: x.state[i] == Blocked ==> i in x.calls)
            && var y := Turn(k, x.(state := x.state[x.current := Dead], offset := o));
            && y.current in y.calls && y.calls[y.current] == Reading(k.q, 1) && ReadsPlainly(y, 1)
            && Turn(k, ReadScene(y, k.q, 1).(offset := offset)) == Leftover(k, offset)
  {
    var y := Turn(k, Served(k).(state := map[k.a := Dead, k.b := Blocked, k.c := Ready], offset := o));
    assert y == Scene(map[k.a := Dead, k.b := Blocked, k.c := Ready], [], k.c, Served(k).calls, o, 2, [k.b], []);
  }

  lemma AbandonScenes(k: Cast, o: nat, offset: nat)
    requires Players(k)
    ensures var x := Leftover(k, o);
            && Onstage(x) && x.current !in x.calls && k.b in x.state && x.state[k.b] != Dead && k.b != x.current
            && (forall i <- x.calls :: x.calls[i].pipe == k.q)
            && (forall i <- x.state :: x.state[i] == Blocked ==> i in x.calls)
            && Turn(k, x.(state := x.state[x.current := Dead], offset := offset)) == Abandoned(k, offset)
  {
  }

  /** With two readers asleep, a write wakes one of them, and what that one leaves in the pipe does not
      wake the other: at the end it sleeps beside a byte it could read, and nobody can run. */
  method ShortReadStrands() returns (s: System, k: Cast)
    ensures s.Valid() && s.kernel.current == NOBODY && forall p <- s.kernel.state :: s.kernel.state[p] != Ready
    ensures k.q in s.table.views && s.table.views[k.q].length == 1
    ensures s.table.views[k.q].rq == [k.b] && s.table.views[k.q].wq == []
  {
    hide Shows, Turn, WriteScene, ReadScene, WritesPlainly, ReadsPlainly, Opening, Second, Waiting, Served, Leftover,
         Abandoned, Onstage, System.Valid, System.Flowing;
    ghost var x;
    var out;
    s, k, x := Assemble();
    FirstScenes(k);
    out, x := Read(s, k, x, 1);
    x := Yield(s, k, x);
    x := Yield(s, k, x);
    WaitScenes(k);
    out, x := Read(s, k, x, 1);
    x := Yield(s, k, x);
    ServeScenes(k);
    out, x := Write(s, k, x, [5, 6]);
    x := Yield(s, k, x);
    LeaveScenes(k, 0, 0);
    x := Leave(s, k, x, k.b);
    ghost var o := x.offset;
    LeaveScenes(k, o, 0);
    x := Yield(s, k, x);
    out, x := Resume(s, k, x);
    LeaveScenes(k, o, x.offset);
    o := x.offset;
    x := Yield(s, k, x);
    AbandonScenes(k, o, 0);
    x := Leave(s, k, x, k.b);
    AbandonScenes(k, o, x.offset);
    o := x.offset;
    x := Yield(s, k, x);
    AbandonShows(s, k, o);
  }

  lemma AbandonShows(s: System, k: Cast, offset: nat)
    requires Shows(s, k, Abandoned(k, offset))
    ensures s.Valid() && s.kernel.current == NOBODY && forall p <- s.kernel.state :: s.kernel.state[p] != Ready
    ensures k.q in s.table.views && s.table.views[k.q].length == 1
    ensures s.table.views[k.q].rq == [k.b] && s.table.views[k.q].wq == []
  {
    hide System.Valid, Holds;
  }
}
