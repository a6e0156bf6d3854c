/**
 Processes, wait queues and the round-robin run queue. Control changes hands only in
 `Switch`, which a process reaches when it sleeps, exits or returns from the kernel.
 */
module Scheduler {
  import opened Collections

  datatype State = Ready | Blocked | Dead

  const NOBODY := -1
  const CHILD_QUEUE := 0

  /** The members of `all` that are ready, in the order in which prepending leaves them. */
  function ReadyOnes(all: seq<nat>, state: map<nat, State>): (r: seq<nat>)
  {
    if all == [] then []
    else
      var last := all[|all| - 1];
      var rest := ReadyOnes(all[..|all| - 1], state);
      if last in state && state[last] == Ready then [last] + rest else rest
  }

  lemma {:induction false} ReadyOnesExactly(all: seq<nat>, state: map<nat, State>)
    requires NoDup(all)
    ensures forall p :: p in ReadyOnes(all, state) <==> p in all && p in state && state[p] == Ready
    ensures NoDup(ReadyOnes(all, state))
    decreases |all|
  {
    if all != [] {
      var n := |all| - 1;
      ReadyOnesExactly(all[..n], state);
      assert all == all[..n] + [all[n]];
      assert all[n] !in all[..n];
    }
  }

  /** A process joins the list of all at its front and runs last: in a round the oldest comes first. */
  lemma {:induction false} NewestLast(p: nat, all: seq<nat>, state: map<nat, State>)
    ensures ReadyOnes([p] + all, state)
            == ReadyOnes(all, state) + if p in state && state[p] == Ready then [p] else []
    decreases |all|
  {
    var both := [p] + all;
    if all == [] {
      assert both[..0] == [];
    } else {
      var n := |all| - 1;
      assert both[..|both| - 1] == [p] + all[..n];
      NewestLast(p, all[..n], state);
    }
  }

  /** Every blocked process has one entry in one queue, the queue `place` names for it, and no
      other process has an entry anywhere. */
  ghost predicate Parked(state: map<nat, State>, queues: map<nat, seq<nat>>, place: map<nat, nat>) {
    && (forall p <- state :: state[p] == Blocked ==> p in place && place[p] in queues && p in queues[place[p]])
    && (forall q, p :: q in queues && p in queues[q] ==>
         p in state && state[p] == Blocked && p in place && place[p] == q)
    && (forall q <- queues :: NoDup(queues[q]))
  }

  /** Who is to run in this round is in the run queue since the round began, and everybody else
      who is ready became so during the round. */
  ghost predicate Fair(state: map<nat, State>, run: seq<nat>, current: int, since: map<nat, nat>, round: nat) {
    forall p <- state :: state[p] == Ready && p != current ==>
      p in since && since[p] + (if p in run then 1 else 0) == round
  }

  ghost predicate Queued(all: seq<nat>, state: map<nat, State>, run: seq<nat>, current: int) {
    && NoDup(all) && (forall p :: p in all <==> p in state)
    && NoDup(run) && (forall p :: p in run ==> p in state && state[p] == Ready && p != current)
    && (current != NOBODY ==> current in state)
  }

  lemma ParkedSleep(state: map<nat, State>, queues: map<nat, seq<nat>>, place: map<nat, nat>, p: nat, q: nat)
    requires Parked(state, queues, place) && p in state && state[p] == Ready && q in queues
    ensures Parked(state[p := Blocked], queues[q := [p] + queues[q]], place[p := q])
  {
    forall x | x in queues ensures p !in queues[x] { }
  }

  lemma ParkedWake(state: map<nat, State>, queues: map<nat, seq<nat>>, place: map<nat, nat>, q: nat)
    requires Parked(state, queues, place) && q in queues && queues[q] != []
    ensures Parked(state[queues[q][0] := Ready], queues[q := queues[q][1..]], place)
  {
    var p, rest := queues[q][0], queues[q][1..];
    assert p in queues[q] && queues[q] == [p] + rest;
    assert NoDup(queues[q]);
    assert p !in rest && NoDup(rest);
    var queues', state' := queues[q := rest], state[p := Ready];
    forall x, y | x in queues' && y in queues'[x]
      ensures y in state' && state'[y] == Blocked && y in place && place[y] == x
    {
      if x == q { assert y in rest; } else { assert place[y] == x && place[p] == q; }
    }
    forall y | y in state' && state'[y] == Blocked
      ensures y in place && place[y] in queues' && y in queues'[place[y]]
    {
      assert y != p && y in queues[place[y]];
    }
  }

  // ----- runs

  /** What a switch can see. */
  datatype Snapshot = Snapshot(all: seq<nat>, state: map<nat, State>, run: seq<nat>, current: int, round: nat)

  ghost predicate IsReady(s: Snapshot, p: nat) {
    p in s.all && p in s.state && s.state[p] == Ready
  }

  /** A stretch of kernel code that does not switch: nobody but the current process stops being
      ready, and the run queue is left alone. */
  ghost predicate Stays(s: Snapshot, t: Snapshot) {
    && t.run == s.run && t.current == s.current && t.round == s.round
    && forall p :: IsReady(s, p) && p != s.current ==> IsReady(t, p)
  }

  ghost predicate Switches(s: Snapshot, t: Snapshot) {
    && t.all == s.all && t.state == s.state && NoDup(s.all)
    && if s.run != [] then t.current == s.run[0] && t.run == s.run[1..] && t.round == s.round
       else
         && t.round == s.round + 1
         && var ready := ReadyOnes(s.all, s.state);
         if ready == [] then t.current == NOBODY && t.run == [] else t.current == ready[0] && t.run == ready[1..]
  }

  ghost predicate Next(s: Snapshot, t: Snapshot) {
    Stays(s, t) || Switches(s, t)
  }

  /** Until a ready process gets its turn, it is in the run queue as soon as the round changes. */
  lemma StillWaiting(s: Snapshot, t: Snapshot, p: nat, first: nat)
    requires Next(s, t) && IsReady(s, p) && p != s.current && p != t.current
    requires s.round == first || (s.round == first + 1 && p in s.run)
    ensures IsReady(t, p) && (t.round == first || (t.round == first + 1 && p in t.run))
  {
    if Switches(s, t) {
      ReadyOnesExactly(s.all, s.state);
      var ready := ReadyOnes(s.all, s.state);
      if s.run != [] { assert s.run == [s.run[0]] + s.run[1..]; }
      if ready != [] { assert ready == [ready[0]] + ready[1..]; }
    }
  }

  lemma {:induction false} WaitsInQueue(trace: seq<Snapshot>, p: nat)
    requires |trace| > 0 && (forall i :: 0 <= i < |trace| - 1 ==> Next(trace[i], trace[i + 1]))
    requires IsReady(trace[0], p) && forall i :: 0 <= i < |trace| ==> trace[i].current != p
    ensures var t, first := trace[|trace| - 1], trace[0].round;
            IsReady(t, p) && (t.round == first || (t.round == first + 1 && p in t.run))
    decreases |trace|
  {
    var n := |trace| - 1;
    if n > 0 {
      var shorter := trace[..n];
      forall i | 0 <= i < n - 1 ensures Next(shorter[i], shorter[i + 1]) { assert Next(trace[i], trace[i + 1]); }
      WaitsInQueue(shorter, p);
      assert Next(trace[n - 1], trace[n]);
      StillWaiting(trace[n - 1], trace[n], p, trace[0].round);
    }
  }

  /** A process that is ready has had its turn by the time the second round after begins. */
  lemma BoundedWait(trace: seq<Snapshot>, p: nat)
    requires |trace| > 0 && (forall i :: 0 <= i < |trace| - 1 ==> Next(trace[i], trace[i + 1]))
    requires IsReady(trace[0], p) && trace[|trace| - 1].round >= trace[0].round + 2
    ensures exists i :: 0 <= i < |trace| && trace[i].current == p
  {
    if forall i :: 0 <= i < |trace| ==> trace[i].current != p {
      WaitsInQueue(trace, p);
    }
  }

  /** Along the trace every process that is ready at some moment has its turn before the second round
      after begins. */
  ghost predicate FairRun(trace: seq<Snapshot>) {
    forall j, k, p :: 0 <= j <= k < |trace| && IsReady(trace[j], p) && trace[k].round >= trace[j].round + 2 ==>
      Runs(trace, j, k, p)
  }

  ghost predicate Runs(trace: seq<Snapshot>, j: nat, k: nat, p: nat) {
    exists i :: j <= i <= k && i < |trace| && trace[i].current == p
  }

  lemma RunIsFair(trace: seq<Snapshot>)
    requires forall i, j :: 0 <= i && j == i + 1 && j < |trace| ==> Next(trace[i], trace[j])
    ensures FairRun(trace)
  {
    hide IsReady, Next;
    forall j, k, p | 0 <= j <= k < |trace| && IsReady(trace[j], p) && trace[k].round >= trace[j].round + 2
      ensures Runs(trace, j, k, p)
    {
      var part := trace[j..k + 1];
      forall i | 0 <= i < |part| - 1 ensures Next(part[i], part[i + 1]) { assert Next(trace[j + i], trace[j + i + 1]); }
      BoundedWait(part, p);
      var i :| 0 <= i < |part| && part[i].current == p;
      assert trace[j + i].current == p;
    }
  }

  class Kernel {
    /** All processes, the newest first. */
    var all: seq<nat>
    var state: map<nat, State>
    var run: seq<nat>
    var current: int
    /** The wait queues by number, the process to be woken next first. */
    var queues: map<nat, seq<nat>>
    var maxId: nat
    ghost var place: map<nat, nat>
    ghost var since: map<nat, nat>
    ghost var round: nat

    ghost predicate Valid()
      reads this
    {
      && Queued(all, state, run, current)
      && Parked(state, queues, place)
      && Fair(state, run, current, since, round)
      && CHILD_QUEUE in queues && (forall p <- state :: p < maxId)
    }

    ghost function Now(): Snapshot
      reads this
    {
      Snapshot(all, state, run, current, round)
    }

    ghost predicate Running()
      reads this
    {
      0 <= current && current in state && state[current] == Ready
    }

    /** `process_init` */
    constructor ()
      ensures Valid() && all == run == [] && state == map[] && current == NOBODY && queues == map[CHILD_QUEUE := []]
      ensures maxId == 1
    {
      all, state, run, current, queues, maxId := [], map[], [], NOBODY, map[CHILD_QUEUE := []], 1;
      place, since, round := map[], map[], 0;
    }

    /** `process_waitq_init` of a queue at a new place `q` */
    method NewQueue(q: nat)
      requires Valid() && q !in queues
      modifies this`queues
      ensures Valid() && queues == old(queues)[q := []]
    {
      hide Fair, Queued;
      queues := queues[q := []];
    }

    /** `process_alloc`, for `process_create` and `process_fork` */
    method Alloc() returns (p: nat)
      requires Valid()
      modifies this
      ensures Valid() && p !in old(state) && all == [p] + old(all) && state == old(state)[p := Ready]
      ensures run == old(run) && current == old(current) && queues == old(queues) && round == old(round)
      ensures p == old(maxId) && maxId == old(maxId) + 1
      ensures Stays(old(Now()), Now())
    {
      hide Parked, Fair, Queued;
      p := maxId;
      maxId := maxId + 1;
      Members(all, state, run, current);
      Newcomer(all, state, run, current, queues, place, since, round, p);
      all := [p] + all;
      state := state[p := Ready];
      since := since[p := round];
    }

    /** The part of `process_sleep` before the switch: the current process is put on the queue. */
    method Block(q: nat)
      requires Valid() && Running() && q in queues
      modifies this
      ensures Valid() && current == old(current) && 0 <= current && current in old(state)
      ensures state == old(state)[current := Blocked] && queues == old(queues)[q := [current] + old(queues)[q]]
      ensures run == old(run) && all == old(all) && round == old(round) && maxId == old(maxId)
      ensures Stays(old(Now()), Now())
    {
      hide Parked, Fair, Queued;
      Members(all, state, run, current);
      ParkedSleep(state, queues, place, current, q);
      CurrentStops(all, state, run, current, since, round, Blocked);
      state := state[current := Blocked];
      queues := queues[q := [current] + queues[q]];
      place := place[current := q];
    }

    /** `process_wake`: at most one process, the one that went to sleep last, becomes ready. */
    method Wake(q: nat) returns (woken: bool)
      requires Valid() && q in queues
      modifies this
      ensures Valid() && woken == (old(queues)[q] != [])
      ensures woken ==> queues == old(queues)[q := old(queues)[q][1..]]
                        && state == old(state)[old(queues)[q][0] := Ready]
      ensures !woken ==> queues == old(queues) && state == old(state)
      ensures run == old(run) && current == old(current) && all == old(all) && round == old(round)
      ensures maxId == old(maxId)
      ensures Stays(old(Now()), Now())
    {
      hide Parked, Fair, Queued;
      if queues[q] == [] {
        return false;
      }
      var p := queues[q][0];
      FirstIsBlocked(state, queues, place, q);
      Members(all, state, run, current);
      ParkedWake(state, queues, place, q);
      SleeperReady(all, state, run, current, since, round, p);
      state := state[p := Ready];
      queues := queues[q := queues[q][1..]];
      since := since[p := round];
      woken := true;
    }

    /** `process_exit`, without the release of the descriptors */
    method Exit() returns (woken: bool)
      requires Valid() && Running()
      modifies this
      ensures Valid() && current == old(current) && 0 <= current && current in old(state)
      ensures woken == (old(queues)[CHILD_QUEUE] != []) && current in state && state[current] == Dead
      ensures state == if woken then old(state)[current := Dead][old(queues)[CHILD_QUEUE][0] := Ready]
                       else old(state)[current := Dead]
      ensures queues == if woken then old(queues)[CHILD_QUEUE := old(queues)[CHILD_QUEUE][1..]] else old(queues)
      ensures run == old(run) && all == old(all) && round == old(round) && maxId == old(maxId)
      ensures Stays(old(Now()), Now())
    {
      hide Parked, Fair, Queued;
      Members(all, state, run, current);
      ParkedDead(state, queues, place, current);
      CurrentStops(all, state, run, current, since, round, Dead);
      state := state[current := Dead];
      if queues[CHILD_QUEUE] != [] {
        FirstIsBlocked(state, queues, place, CHILD_QUEUE);
      }
      woken := Wake(CHILD_QUEUE);
    }

    /** `process_schedule`, at the end of a round: everybody who is ready joins the run queue. */
    method Schedule()
      requires run == [] && forall p :: p in all ==> p in state
      modifies this`run, this`round
      ensures run == ReadyOnes(all, state) && round == old(round) + 1
    {
      var i := 0;
      while i < |all|
        invariant 0 <= i <= |all| && run == ReadyOnes(all[..i], state)
        modifies this`run
      {
        assert all[..i + 1][..i] == all[..i];
        if state[all[i]] == Ready {
          run := [all[i]] + run;
        }
        i := i + 1;
      }
      assert all[..|all|] == all;
      round := round + 1;
    }

    /** `process_switch`: the process that gives up control waits for its next turn, and the first
        of the run queue gets control, after a new round is set up if the queue has run empty. */
    method Switch()
      requires Valid()
      modifies this
      ensures Valid() && state == old(state) && queues == old(queues) && all == old(all) && maxId == old(maxId)
      ensures current == NOBODY || Running()
      ensures Switches(old(Now()), Now())
    {
      hide Parked, Fair, Queued, ReadyOnes;
      Members(all, state, run, current);
      since := Preempted(state, current, since, round);
      FairPreempt(all, state, run, current, old(since), round);
      if run == [] {
        Schedule();
        FairRound(all, state, since, old(round));
      }
      if run == [] {
        current := NOBODY;
      } else {
        FairDequeue(all, state, run, since, round);
        current, run := run[0], run[1..];
      }
    }

    /** `process_destroy` of a dead process */
    method Destroy(p: nat)
      requires Valid() && p in state && state[p] == Dead && p != current
      modifies this
      ensures Valid() && state == old(state) - {p} && run == old(run) && current == old(current)
      ensures (forall x :: x in all <==> x in old(all) && x != p) && round == old(round) && queues == old(queues)
      ensures maxId == old(maxId)
      ensures exists k :: 0 <= k < |old(all)| && old(all)[k] == p && all == old(all)[..k] + old(all)[k + 1..]
      ensures Stays(old(Now()), Now())
    {
      hide Parked, Fair, Queued;
      Members(all, state, run, current);
      var k :| 0 <= k < |all| && all[k] == p;
      DeadUnqueued(all, state, run, current, k);
      DeadLeaves(state, queues, place, run, current, since, round, p);
      all := all[..k] + all[k + 1..];
      state := state - {p};
    }
  }

  /** A process nobody knows joins as ready. */
  lemma Newcomer(all: seq<nat>, state: map<nat, State>, run: seq<nat>, current: int, queues: map<nat, seq<nat>>,
                 place: map<nat, nat>, since: map<nat, nat>, round: nat, p: nat)
    requires Queued(all, state, run, current) && Parked(state, queues, place) && Fair(state, run, current, since, round)
    requires p !in state
    ensures Queued([p] + all, state[p := Ready], run, current)
    ensures Parked(state[p := Ready], queues, place)
    ensures Fair(state[p := Ready], run, current, since[p := round], round)
  {
    Prepended(p, all);
  }

  lemma Members(all: seq<nat>, state: map<nat, State>, run: seq<nat>, current: int)
    requires Queued(all, state, run, current)
    ensures NoDup(all) && forall p :: p in all <==> p in state
  {
  }

  /** The process that gives up control starts to wait now. */
  ghost function Preempted(state: map<nat, State>, current: int, since: map<nat, nat>, round: nat): map<nat, nat> {
    if 0 <= current && current in state then since[current := round] else since
  }

  lemma FairPreempt(all: seq<nat>, state: map<nat, State>, run: seq<nat>, current: int, since: map<nat, nat>,
                    round: nat)
    requires Queued(all, state, run, current) && Fair(state, run, current, since, round)
    ensures Queued(all, state, run, NOBODY)
    ensures Fair(state, run, NOBODY, Preempted(state, current, since, round), round)
  {
  }

  /** A new round takes up everybody who is ready. */
  lemma FairRound(all: seq<nat>, state: map<nat, State>, since: map<nat, nat>, round: nat)
    requires Queued(all, state, [], NOBODY) && Fair(state, [], NOBODY, since, round)
    ensures Queued(all, state, ReadyOnes(all, state), NOBODY)
    ensures Fair(state, ReadyOnes(all, state), NOBODY, since, round + 1)
  {
    ReadyOnesExactly(all, state);
  }

  lemma FairDequeue(all: seq<nat>, state: map<nat, State>, run: seq<nat>, since: map<nat, nat>, round: nat)
    requires Queued(all, state, run, NOBODY) && Fair(state, run, NOBODY, since, round) && run != []
    ensures Queued(all, state, run[1..], run[0]) && Fair(state, run[1..], run[0], since, round)
    ensures run[0] in state && state[run[0]] == Ready
  {
    assert run == [run[0]] + run[1..];
    assert run[0] in run;
  }

  lemma FirstIsBlocked(state: map<nat, State>, queues: map<nat, seq<nat>>, place: map<nat, nat>, q: nat)
    requires Parked(state, queues, place) && q in queues && queues[q] != []
    ensures queues[q][0] in state && state[queues[q][0]] == Blocked
  {
    assert queues[q][0] in queues[q];
  }

  lemma CurrentStops(all: seq<nat>, state: map<nat, State>, run: seq<nat>, current: nat, since: map<nat, nat>,
                     round: nat, to: State)
    requires Queued(all, state, run, current) && Fair(state, run, current, since, round) && current in state
    ensures Queued(all, state[current := to], run, current) && Fair(state[current := to], run, current, since, round)
  {
  }

  lemma SleeperReady(all: seq<nat>, state: map<nat, State>, run: seq<nat>, current: int, since: map<nat, nat>,
                     round: nat, p: nat)
    requires Queued(all, state, run, current) && Fair(state, run, current, since, round)
    requires p in state && state[p] == Blocked
    ensures Queued(all, state[p := Ready], run, current)
    ensures Fair(state[p := Ready], run, current, since[p := round], round)
  {
  }

  lemma ParkedDead(state: map<nat, State>, queues: map<nat, seq<nat>>, place: map<nat, nat>, p: nat)
    requires Parked(state, queues, place) && p in state && state[p] == Ready
    ensures Parked(state[p := Dead], queues, place)
  {
  }

  lemma DeadLeaves(state: map<nat, State>, queues: map<nat, seq<nat>>, place: map<nat, nat>, run: seq<nat>,
                   current: int, since: map<nat, nat>, round: nat, p: nat)
    requires Parked(state, queues, place) && Fair(state, run, current, since, round) && p in state && state[p] == Dead
    ensures Parked(state - {p}, queues, place) && Fair(state - {p}, run, current, since, round)
  {
  }

  lemma DeadUnqueued(all: seq<nat>, state: map<nat, State>, run: seq<nat>, current: int, k: nat)
    requires Queued(all, state, run, current) && k < |all| && all[k] in state && state[all[k]] == Dead
             && all[k] != current
    ensures var rest := all[..k] + all[k + 1..];
            Queued(rest, state - {all[k]}, run, current) && forall x :: x in rest <==> x in all && x != all[k]
  {
    RemoveAt(all, k);
  }

  lemma RemoveAt(s: seq<nat>, k: nat)
    requires NoDup(s) && k < |s|
    ensures var r := s[..k] + s[k + 1..]; NoDup(r) && forall x :: x in r <==> x in s && x != s[k]
  {
    var r := s[..k] + s[k + 1..];
    forall x: nat ensures x in r <==> x in s && x != s[k] {
      if x in s && x != s[k] {
        var j :| 0 <= j < |s| && s[j] == x;
        assert x == if j < k then r[j] else r[j - 1];
      }
    }
  }
}
