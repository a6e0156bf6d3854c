/**
 Who sleeps on which pipe, and who has been woken and not gone on yet. Pipes keep two wait
 queues, processes have states, and a suspended process remembers the call it is inside of.
 */
module Wakeups {
  import opened Collections
  import opened Pages
  import opened Blocks
  import opened Scheduler

  /** What a process that sleeps inside `pipe_read` or `pipe_write` goes on with. */
  datatype Call = Reading(pipe: nat, size: nat) | Writing(pipe: nat, data: seq<Byte>, written: nat)

  /** A pipe from outside: its ends, where its bytes start in the ring and how many there are, who
      sleeps on it, and all that was ever written to it and read from it. */
  datatype View = View(readers: nat, writers: nat, offset: nat, length: nat, rq: seq<nat>, wq: seq<nat>,
                       sent: seq<Byte>, received: seq<Byte>)

  function NewView(): View {
    View(1, 1, 0, 0, [], [], [], [])
  }

  /** The scheduler's queue for an end of a pipe. */
  function QueueOf(q: nat, writing: bool): nat {
    2 * q + if writing then 2 else 1
  }

  function Sleepers(v: View, writing: bool): seq<nat> {
    if writing then v.wq else v.rq
  }

  function WithSleepers(v: View, writing: bool, queue: seq<nat>): View {
    if writing then v.(wq := queue) else v.(rq := queue)
  }

  predicate At(c: Call, q: nat, writing: bool) {
    c.pipe == q && c.Writing? == writing
  }

  /** The queues of the pipes are the scheduler's. */
  ghost predicate Shared(views: map<nat, View>, queues: map<nat, seq<nat>>) {
    forall q <- views, w: bool :: QueueOf(q, w) in queues && queues[QueueOf(q, w)] == Sleepers(views[q], w)
  }

  /** A process inside a call lives, on a pipe that is there, and is on the queue of its end
      until it is woken. */
  ghost predicate SeatOf(views: map<nat, View>, c: Call, state: map<nat, State>, p: nat) {
    && p in state && state[p] != Dead && c.pipe in views
    && (c.Writing? ==> c.written < |c.data| || c.written == |c.data| == 0)
    && (state[p] == Blocked ==> p in Sleepers(views[c.pipe], c.Writing?))
  }

  /** Only processes inside a call are on the queues of pipes. */
  ghost predicate Seated(views: map<nat, View>, calls: map<nat, Call>, state: map<nat, State>) {
    && (forall p <- calls :: SeatOf(views, calls[p], state, p))
    && (forall q, w, p :: q in views && p in Sleepers(views[q], w) ==> p in calls && At(calls[p], q, w))
  }

  /** All of `ps` are ready. */
  ghost function Awake(state: map<nat, State>, ps: seq<nat>): map<nat, State> {
    map p <- state :: if p in ps then Ready else state[p]
  }

  /** Those who left a queue at its front. */
  function Gone(before: seq<nat>, after: seq<nat>): seq<nat> {
    if |after| <= |before| then before[..|before| - |after|] else []
  }

  // ----- liveness

  /** Somebody was woken from this end and has not gone on yet. */
  ghost predicate Roused(calls: map<nat, Call>, state: map<nat, State>, q: nat, writing: bool) {
    exists p :: p in calls && At(calls[p], q, writing) && p in state && state[p] == Ready
  }

  /** The same of somebody other than `c`. */
  ghost predicate RousedBut(calls: map<nat, Call>, state: map<nat, State>, q: nat, writing: bool, c: nat) {
    exists p :: p in calls && p != c && At(calls[p], q, writing) && p in state && state[p] == Ready
  }

  /** Writers sleep on an empty pipe, and nobody but `c` is there to go on at their end: when `c`
      leaves without writing, nobody passes the wakeup on. */
  ghost predicate Strands(views: map<nat, View>, calls: map<nat, Call>, state: map<nat, State>, q: nat, c: nat) {
    q in views && views[q].length == 0 && views[q].wq != [] && !RousedBut(calls, state, q, true, c)
  }

  /** Nobody sleeps on a pipe whose other end is closed. */
  ghost predicate BothOpen(v: View) {
    v.rq != [] || v.wq != [] ==> v.readers > 0 && v.writers > 0
  }

  /** Writers asleep on an empty ring, readers asleep on a full one, or sleepers on both ends are
      there only while somebody woken from the pipe is about to go on; `r` and `w` say whether
      there is such a reader or writer. */
  ghost predicate Live(v: View, r: bool, w: bool) {
    && (v.length == 0 && v.wq != [] ==> w)
    && (v.length == PAGE_SIZE && v.rq != [] ==> r)
    && (v.rq != [] && v.wq != [] ==> r || w)
  }

  ghost predicate AllLive(views: map<nat, View>, calls: map<nat, Call>, state: map<nat, State>) {
    forall q <- views :: Live(views[q], Roused(calls, state, q, false), Roused(calls, state, q, true))
  }

  /** Nobody is inside a write of no bytes. */
  ghost predicate NoEmptyWrite(calls: map<nat, Call>) {
    forall p <- calls :: calls[p].Writing? ==> calls[p].data != []
  }

  /** Everybody but `c` is inside the call they were inside of, and who was ready is ready. */
  ghost predicate OthersOn(calls: map<nat, Call>, state: map<nat, State>, calls': map<nat, Call>,
                           state': map<nat, State>, c: nat) {
    && (forall p <- calls :: p != c ==> p in calls' && calls'[p] == calls[p])
    && (forall p <- state :: p != c && state[p] == Ready ==> p in state' && state'[p] == Ready)
  }

  lemma StillRoused(calls: map<nat, Call>, state: map<nat, State>, calls': map<nat, Call>, state': map<nat, State>,
                    c: nat, q: nat, writing: bool)
    requires OthersOn(calls, state, calls', state', c) && (c in calls ==> !At(calls[c], q, writing))
    ensures Roused(calls, state, q, writing) ==> Roused(calls', state', q, writing)
  {
    if Roused(calls, state, q, writing) {
      var p :| p in calls && At(calls[p], q, writing) && p in state && state[p] == Ready;
      assert p in calls' && At(calls'[p], q, writing);
    }
  }

  lemma NowRoused(calls: map<nat, Call>, state: map<nat, State>, q: nat, writing: bool, p: nat)
    requires p in calls && At(calls[p], q, writing) && p in state && state[p] == Ready
    ensures Roused(calls, state, q, writing)
  {
  }

  // ----- stretches of calls on one pipe

  /** A process gets to sleep at an end. */
  lemma SeatedSleep(views: map<nat, View>, calls: map<nat, Call>, state: map<nat, State>, c: nat, call: Call)
    requires Seated(views, calls, state) && c in state && state[c] == Ready && call.pipe in views
    requires call.Writing? ==> call.written < |call.data| || call.written == |call.data| == 0
    requires forall q, w :: q in views ==> c !in Sleepers(views[q], w)
    ensures var v := views[call.pipe];
            var queue := [c] + Sleepers(v, call.Writing?);
            Seated(views[call.pipe := WithSleepers(v, call.Writing?, queue)], calls[c := call], state[c := Blocked])
  {
    var v := views[call.pipe];
    var queue := [c] + Sleepers(v, call.Writing?);
    var views', calls', state' :=
      views[call.pipe := WithSleepers(v, call.Writing?, queue)], calls[c := call], state[c := Blocked];
    assert c == queue[0] && c in queue;
    forall p | p in calls' ensures SeatOf(views', calls'[p], state', p) {
      if p != c {
        assert SeatOf(views, calls[p], state, p);
        var now := Sleepers(views'[calls[p].pipe], calls[p].Writing?);
        if state[p] == Blocked { SleepersMore(Sleepers(views[calls[p].pipe], calls[p].Writing?), c, p); }
      }
    }
    forall q, w, p | q in views' && p in Sleepers(views'[q], w) ensures p in calls' && At(calls'[p], q, w) {
      if p != c { SleepersMore(Sleepers(v, call.Writing?), c, p); assert p in Sleepers(views[q], w); }
    }
  }

  lemma SleepersMore(queue: seq<nat>, c: nat, p: nat)
    ensures p in [c] + queue <==> p == c || p in queue
  {
  }

  lemma SplitMember(queue: seq<nat>, n: nat, p: nat)
    requires n <= |queue|
    ensures p in queue <==> p in queue[..n] || p in queue[n..]
  {
    assert queue == queue[..n] + queue[n..];
  }

  /** The first `n` of a queue are woken. */
  lemma SeatedWake(views: map<nat, View>, calls: map<nat, Call>, state: map<nat, State>, q: nat, w: bool, n: nat)
    requires Seated(views, calls, state) && q in views && n <= |Sleepers(views[q], w)|
    ensures var queue := Sleepers(views[q], w);
            Seated(views[q := WithSleepers(views[q], w, queue[n..])], calls, Awake(state, queue[..n]))
  {
    var queue := Sleepers(views[q], w);
    var views', state' := views[q := WithSleepers(views[q], w, queue[n..])], Awake(state, queue[..n]);
    forall p | p in calls ensures SeatOf(views', calls[p], state', p) {
      assert SeatOf(views, calls[p], state, p);
      SplitMember(queue, n, p);
    }
    forall x, y, p | x in views' && p in Sleepers(views'[x], y) ensures p in calls && At(calls[p], x, y) {
      SplitMember(queue, n, p);
      assert p in Sleepers(views[x], y);
    }
  }

  /** A call returns. */
  lemma SeatedReturn(views: map<nat, View>, calls: map<nat, Call>, state: map<nat, State>, c: nat)
    requires Seated(views, calls, state)
    requires forall q, w :: q in views ==> c !in Sleepers(views[q], w)
    ensures Seated(views, calls - {c}, state)
  {
    forall p | p in calls - {c} ensures SeatOf(views, (calls - {c})[p], state, p) {
      assert SeatOf(views, calls[p], state, p);
    }
  }

  /** What `pipe_read` by process `c` does to the queues; `woke` says that a writer woken from the
      pipe is ready afterwards. */
  ghost predicate ReadMoves(v: View, v': View, c: nat, woke: bool) {
    if v.length == 0 then
      v' == if v.writers == 0 then v else v.(rq := [c] + v.rq)
    else
      && v'.rq == v.rq && v'.length < PAGE_SIZE
      && (if v.wq == [] then v'.wq == [] else woke)
  }

  /** What `pipe_write` by process `c` does to the queues, if `some` bytes are left to write;
      `woke` says that a reader woken from the pipe is ready afterwards. */
  ghost predicate WriteMoves(v: View, v': View, c: nat, some: bool, woke: bool) {
    if v.readers == 0 then
      v' == v
    else
      && (v'.wq == v.wq || (v'.wq == [c] + v.wq && v'.length == PAGE_SIZE))
      && (if some then v'.length > 0 && v'.length >= v.length else v'.length == v.length)
      && (if v.length == PAGE_SIZE then v'.rq == v.rq else if v.rq == [] then v'.rq == [] else woke)
  }

  lemma ReadLive(views: map<nat, View>, calls: map<nat, Call>, state: map<nat, State>, q: nat, v': View,
                 calls': map<nat, Call>, state': map<nat, State>, c: nat)
    requires AllLive(views, calls, state) && q in views && BothOpen(views[q])
    requires OthersOn(calls, state, calls', state', c) && (c in calls ==> At(calls[c], q, false))
    requires ReadMoves(views[q], v', c, Roused(calls', state', q, true))
    ensures AllLive(views[q := v'], calls', state')
  {
    hide Roused, OthersOn;
    var views' := views[q := v'];
    forall x | x in views' ensures Live(views'[x], Roused(calls', state', x, false), Roused(calls', state', x, true)) {
      StillRoused(calls, state, calls', state', c, x, true);
      if x != q { StillRoused(calls, state, calls', state', c, x, false); }
    }
  }

  /** A write keeps pipes from getting stuck if and only if it is not the return of a write of no
      bytes that was the last one awake at its end while others sleep there on an empty pipe. */
  lemma WriteLive(views: map<nat, View>, calls: map<nat, Call>, state: map<nat, State>, q: nat, v': View,
                  calls': map<nat, Call>, state': map<nat, State>, c: nat, some: bool)
    requires AllLive(views, calls, state) && q in views && BothOpen(views[q])
    requires OthersOn(calls, state, calls', state', c) && (c in calls ==> At(calls[c], q, true))
    requires WriteMoves(views[q], v', c, some, Roused(calls', state', q, false))
    requires Roused(calls', state', q, true) <==> RousedBut(calls, state, q, true, c)
    ensures AllLive(views[q := v'], calls', state') <==> some || !Strands(views, calls, state, q, c)
  {
    hide Roused, RousedBut, OthersOn;
    var views' := views[q := v'];
    forall x | x in views'
      ensures Live(views'[x], Roused(calls', state', x, false), Roused(calls', state', x, true))
              <==> x != q || some || !Strands(views, calls, state, q, c)
    {
      StillRoused(calls, state, calls', state', c, x, false);
      if x != q { StillRoused(calls, state, calls', state', c, x, true); }
    }
    assert views'[q] == v';
  }

  /** Queues only lose sleepers, all of them if any, and nobody who was ready is not. */
  lemma WakingLive(views: map<nat, View>, views': map<nat, View>, calls: map<nat, Call>, state: map<nat, State>,
                   state': map<nat, State>, calls': map<nat, Call>, c: nat)
    requires AllLive(views, calls, state) && OthersOn(calls, state, calls', state', c) && c !in calls
    requires forall q <- views' ::
               && q in views && views'[q].length == views[q].length
               && (views'[q].rq == [] || views'[q].rq == views[q].rq)
               && (views'[q].wq == [] || views'[q].wq == views[q].wq)
    ensures AllLive(views', calls', state')
  {
    hide Roused, OthersOn;
    forall x | x in views' ensures Live(views'[x], Roused(calls', state', x, false), Roused(calls', state', x, true)) {
      StillRoused(calls, state, calls', state', c, x, false);
      StillRoused(calls, state, calls', state', c, x, true);
    }
  }

  // ----- a stretch as a whole

  lemma SeatedSame(views: map<nat, View>, views': map<nat, View>, calls: map<nat, Call>, state: map<nat, State>)
    requires Seated(views, calls, state) && views'.Keys == views.Keys
    requires forall q <- views, w: bool :: Sleepers(views'[q], w) == Sleepers(views[q], w)
    ensures Seated(views', calls, state)
  {
    forall p | p in calls ensures SeatOf(views', calls[p], state, p) {
      assert SeatOf(views, calls[p], state, p);
    }
    forall q, w, p | q in views' && p in Sleepers(views'[q], w) ensures p in calls && At(calls[p], q, w) {
      assert p in Sleepers(views[q], w);
    }
  }

  /** The scheduler's side of a stretch: `n` wakeups at the other end of pipe `q`, and then sleep
      or not. */
  ghost function QueuesAfter(queues: map<nat, seq<nat>>, q: nat, w: bool, n: nat, c: nat, sleeps: bool)
    : map<nat, seq<nat>>
    requires QueueOf(q, w) in queues && QueueOf(q, !w) in queues && n <= |queues[QueueOf(q, !w)]|
  {
    var woken := queues[QueueOf(q, !w) := queues[QueueOf(q, !w)][n..]];
    if sleeps then woken[QueueOf(q, w) := [c] + woken[QueueOf(q, w)]] else woken
  }

  ghost function StateAfter(state: map<nat, State>, woken: seq<nat>, c: nat, sleeps: bool): map<nat, State> {
    if sleeps then Awake(state, woken)[c := Blocked] else Awake(state, woken)
  }

  ghost function CallsAfter(calls: map<nat, Call>, c: nat, sleeps: bool, call: Call): map<nat, Call> {
    if sleeps then calls[c := call] else calls - {c}
  }

  /** The pipe's side of a stretch. */
  ghost predicate Moved(v: View, v': View, w: bool, n: nat, c: nat, sleeps: bool) {
    && n <= |Sleepers(v, !w)| && Sleepers(v', !w) == Sleepers(v, !w)[n..]
    && Sleepers(v', w) == if sleeps then [c] + Sleepers(v, w) else Sleepers(v, w)
  }

  lemma SharedAfter(views: map<nat, View>, queues: map<nat, seq<nat>>, q: nat, w: bool, v': View, n: nat, c: nat,
                    sleeps: bool)
    requires Shared(views, queues) && q in views && Moved(views[q], v', w, n, c, sleeps)
    ensures Shared(views[q := v'], QueuesAfter(queues, q, w, n, c, sleeps))
  {
    assert queues[QueueOf(q, w)] == Sleepers(views[q], w) && queues[QueueOf(q, !w)] == Sleepers(views[q], !w);
    var views', queues' := views[q := v'], QueuesAfter(queues, q, w, n, c, sleeps);
    forall x, y: bool | x in views'
      ensures QueueOf(x, y) in queues' && queues'[QueueOf(x, y)] == Sleepers(views'[x], y)
    {
      assert QueueOf(x, y) == QueueOf(q, w) ==> x == q && y == w;
      assert QueueOf(x, y) == QueueOf(q, !w) ==> x == q && y == !w;
    }
  }

  lemma SeatedAfter(views: map<nat, View>, calls: map<nat, Call>, state: map<nat, State>, q: nat, w: bool, v': View,
                    n: nat, c: nat, sleeps: bool, call: Call)
    requires Seated(views, calls, state) && q in views && Moved(views[q], v', w, n, c, sleeps)
    requires At(call, q, w) && (call.Writing? ==> call.written < |call.data| || call.written == |call.data| == 0)
    requires c in state && state[c] == Ready && NoDup(Sleepers(views[q], !w))
    requires forall x, y :: x in views ==> c !in Sleepers(views[x], y)
    ensures var state' := StateAfter(state, Sleepers(views[q], !w)[..n], c, sleeps);
            Seated(views[q := v'], CallsAfter(calls, c, sleeps, call), state')
  {
    hide Seated, Awake, NoDup;
    var v, queue := views[q], Sleepers(views[q], !w);
    var v1, state1 := WithSleepers(v, !w, queue[n..]), Awake(state, queue[..n]);
    var views1 := views[q := v1];
    SeatedWake(views, calls, state, q, !w, n);
    AwakeKeeps(state, queue[..n], c);
    forall x, y | x in views1 ensures c !in Sleepers(views1[x], y) { NotInRest(queue, n, c); }
    if sleeps {
      SeatedSleep(views1, calls, state1, c, call);
      SeatedSame(views1[q := WithSleepers(v1, w, [c] + Sleepers(v1, w))], views[q := v'], calls[c := call],
                 state1[c := Blocked]);
    } else {
      SeatedReturn(views1, calls, state1, c);
      SeatedSame(views1, views[q := v'], calls - {c}, state1);
    }
  }

  lemma NotInRest(queue: seq<nat>, n: nat, c: nat)
    requires n <= |queue| && c !in queue
    ensures c !in queue[n..]
  {
  }

  lemma AwakeKeeps(state: map<nat, State>, ps: seq<nat>, c: nat)
    ensures c in Awake(state, ps) <==> c in state
    ensures c in state && state[c] == Ready ==> Awake(state, ps)[c] == Ready
    ensures c in state && c in ps ==> Awake(state, ps)[c] == Ready
  {
  }

  /** The others stay inside their calls, and whoever is woken is inside a call at the other end. */
  lemma OthersAfter(views: map<nat, View>, calls: map<nat, Call>, state: map<nat, State>, q: nat, w: bool, n: nat,
                    c: nat, sleeps: bool, call: Call)
    requires Seated(views, calls, state) && q in views && n <= |Sleepers(views[q], !w)|
    requires c !in Sleepers(views[q], !w)
    ensures var calls', state' := CallsAfter(calls, c, sleeps, call),
                                  StateAfter(state, Sleepers(views[q], !w)[..n], c, sleeps);
            && OthersOn(calls, state, calls', state', c)
            && (n > 0 ==> Roused(calls', state', q, !w))
            && (Roused(calls', state', q, w) <==> RousedBut(calls, state, q, w, c))
  {
    var queue := Sleepers(views[q], !w);
    var calls', state' := CallsAfter(calls, c, sleeps, call), StateAfter(state, queue[..n], c, sleeps);
    if Roused(calls', state', q, w) {
      var p :| p in calls' && At(calls'[p], q, w) && p in state' && state'[p] == Ready;
      assert p in queue[..n] ==> p in queue;
      assert p != c && p in calls && state[p] == Ready;
    }
    if RousedBut(calls, state, q, w, c) {
      var p :| p in calls && p != c && At(calls[p], q, w) && p in state && state[p] == Ready;
      NowRoused(calls', state', q, w, p);
    }
    if n > 0 {
      var p := queue[0];
      assert p in queue && p == queue[..n][0] && p in queue[..n];
      assert p in calls && At(calls[p], q, !w) && SeatOf(views, calls[p], state, p);
      NowRoused(CallsAfter(calls, c, sleeps, call), StateAfter(state, queue[..n], c, sleeps), q, !w, p);
    }
  }
}
