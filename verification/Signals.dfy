/** Delivering signals: frames on the user stack, masks and the return from a handler. */
module Signals {
  import opened Collections
  import opened Blocks
  import opened SignalSet

  const MEMORY_WORDS := 0x4000_0000
  const SIG_DFL := 0
  const SIG_IGN := 1
  const SIGKILL := 9
  const SIGCHLD := 17
  const SIGSTOP := 19
  const SIGURG := 23
  const SIGWINCH := 28
  const ACTIONS := NSIG - 1

  type Registers = r: seq<Word> | |r| == 13 witness seq(13, i => 0)

  datatype Context = Context(cpsr: Word, r: Registers, sp: Word, lr: Word, pc: Word)

  datatype Action = Action(handler: Word, flags: Word, restorer: Word, mask: SigSet)

  /** What a delivered signal saved: the mask at `at` and the context just above it. */
  datatype Frame = Frame(at: Word, context: Context, mask: SigSet)

  // ----- memory

  /** A context as the seventeen words `memcpy` moves. */
  function Encode(c: Context): (r: seq<Word>)
    ensures |r| == 17
  {
    [c.cpsr] + c.r + [c.sp, c.lr, c.pc]
  }

  function Decode(w: seq<Word>): (c: Context)
    requires |w| == 17
  {
    Context(w[0], w[1..14], w[14], w[15], w[16])
  }

  lemma ContextRoundTrip(c: Context)
    ensures Decode(Encode(c)) == c
  {
    assert Encode(c)[1..14] == c.r;
  }

  /** Memory with `data` written from word `a` on. */
  function Patch(mem: seq<Word>, a: nat, data: seq<Word>): (r: seq<Word>)
    requires a + |data| <= |mem|
    ensures |r| == |mem|
  {
    mem[..a] + data + mem[a + |data|..]
  }

  // ----- frames

  /** Memory holds a frame. */
  ghost predicate Holds(mem: seq<Word>, f: Frame) {
    && f.at % 8 == 0 && f.at / 4 + 19 <= |mem|
    && mem[f.at / 4..f.at / 4 + 2] == [f.mask.low, f.mask.high]
    && mem[f.at / 4 + 2..f.at / 4 + 19] == Encode(f.context)
  }

  /** Live frames lie one below the other, the newest at or above the stack pointer. */
  ghost predicate Stacked(mem: seq<Word>, frames: seq<Frame>, sp: Word) {
    frames != [] ==>
      var f := frames[|frames| - 1];
      && sp <= f.at && f.at + 76 <= f.context.sp
      && Holds(mem, f)
      && Stacked(mem, frames[..|frames| - 1], f.context.sp)
  }

  /** A word lies in a frame. */
  ghost predicate InFrame(f: Frame, k: nat) {
    f.at / 4 <= k < f.at / 4 + 19
  }

  /** Two memories agree on every live frame. */
  ghost predicate SameFrames(mem: seq<Word>, after: seq<Word>, frames: seq<Frame>) {
    && |after| == |mem|
    && forall i, k :: 0 <= i < |frames| && 0 <= k < |mem| && InFrame(frames[i], k) ==> after[k] == mem[k]
  }

  lemma HoldsFrame(mem: seq<Word>, after: seq<Word>, f: Frame)
    requires Holds(mem, f) && |after| == |mem|
    requires forall k :: 0 <= k < |mem| && InFrame(f, k) ==> after[k] == mem[k]
    ensures Holds(after, f)
  {
    var a := f.at / 4;
    assert after[a..a + 2] == mem[a..a + 2];
    assert after[a + 2..a + 19] == mem[a + 2..a + 19];
  }

  /** Frames that memory agrees on stay where they are. */
  lemma {:induction false} StackedFrame(mem: seq<Word>, after: seq<Word>, frames: seq<Frame>, sp: Word)
    requires Stacked(mem, frames, sp) && SameFrames(mem, after, frames)
    ensures Stacked(after, frames, sp)
    decreases |frames|
  {
    if frames != [] {
      hide Holds, InFrame;
      var n := |frames| - 1;
      var f, front := frames[n], frames[..n];
      assert forall k :: 0 <= k < |mem| && InFrame(f, k) ==> after[k] == mem[k];
      HoldsFrame(mem, after, f);
      assert SameFrames(mem, after, front) by {
        assert forall i :: 0 <= i < n ==> front[i] == frames[i];
      }
      StackedFrame(mem, after, front, f.context.sp);
    }
  }

  lemma {:induction false} StackedAbove(mem: seq<Word>, frames: seq<Frame>, sp: Word, i: nat)
    requires Stacked(mem, frames, sp) && i < |frames|
    ensures sp <= frames[i].at && frames[i].at % 8 == 0
    decreases |frames|
  {
    var n := |frames| - 1;
    if i < n {
      StackedAbove(mem, frames[..n], frames[n].context.sp, i);
    }
  }

  /** Live frames never overlap. */
  lemma {:induction false} FramesDisjoint(mem: seq<Word>, frames: seq<Frame>, sp: Word, i: nat, j: nat)
    requires Stacked(mem, frames, sp) && i < j < |frames|
    ensures frames[j].at + 76 <= frames[i].at
    decreases |frames|
  {
    var n := |frames| - 1;
    if j == n {
      StackedAbove(mem, frames[..n], frames[n].context.sp, i);
    } else {
      FramesDisjoint(mem, frames[..n], frames[n].context.sp, i, j);
    }
  }

  /** Where the two pushes put a frame. */
  function FrameAt(sp: Word): (at: Word)
    requires sp >= 76
    ensures at % 8 == 0 && at + 76 <= sp < at + 84
  {
    (sp - 68) / 8 * 8 - 8
  }

  /** The two pushes add a frame and leave the live ones alone. */
  lemma PushStacks(mem: seq<Word>, frames: seq<Frame>, c: Context, mask: SigSet)
    requires |mem| == MEMORY_WORDS && Stacked(mem, frames, c.sp) && c.sp >= 76
    ensures var at := FrameAt(c.sp);
            var after := Patch(Patch(mem, at / 4 + 2, Encode(c)), at / 4, [mask.low, mask.high]);
            Stacked(after, frames + [Frame(at, c, mask)], at)
  {
    var at := FrameAt(c.sp);
    var f := Frame(at, c, mask);
    var mid := Patch(mem, at / 4 + 2, Encode(c));
    var after := Patch(mid, at / 4, [mask.low, mask.high]);
    NewFrame(mem, c, mask);
    assert SameFrames(mem, after, frames) by {
      forall i, k | 0 <= i < |frames| && 0 <= k < |mem| && InFrame(frames[i], k)
        ensures after[k] == mem[k]
      {
        StackedAbove(mem, frames, c.sp, i);
        assert at / 4 + 19 <= frames[i].at / 4 <= k;
      }
    }
    StackedFrame(mem, after, frames, c.sp);
    assert (frames + [f])[..|frames|] == frames;
  }

  lemma NewFrame(mem: seq<Word>, c: Context, mask: SigSet)
    requires |mem| == MEMORY_WORDS && c.sp >= 76
    ensures var at := FrameAt(c.sp);
            var after := Patch(Patch(mem, at / 4 + 2, Encode(c)), at / 4, [mask.low, mask.high]);
            Holds(after, Frame(at, c, mask))
  {
    var at := FrameAt(c.sp);
    var a := at / 4;
    assert a + 19 <= MEMORY_WORDS;
    var mid := Patch(mem, a + 2, Encode(c));
    var after := Patch(mid, a, [mask.low, mask.high]);
    assert mid[a + 2..a + 19] == Encode(c);
    assert after[a + 2..a + 19] == mid[a + 2..a + 19];
    assert after[a..a + 2] == [mask.low, mask.high];
  }

  /** Memory differs from before in one frame alone: the mask in two words, then the context as
      `struct process_context` has it. */
  ghost predicate SavedAt(before: seq<Word>, mem: seq<Word>, at: Word, c: Context, mask: SigSet) {
    && |mem| == |before| && at / 4 + 19 <= |mem|
    && mem[at / 4] == mask.low && mem[at / 4 + 1] == mask.high && mem[at / 4 + 2] == c.cpsr
    && (forall i :: 0 <= i < 13 ==> mem[at / 4 + 3 + i] == c.r[i])
    && mem[at / 4 + 16] == c.sp && mem[at / 4 + 17] == c.lr && mem[at / 4 + 18] == c.pc
    && forall k :: 0 <= k < |mem| && !(at / 4 <= k < at / 4 + 19) ==> mem[k] == before[k]
  }

  lemma FrameWords(mem: seq<Word>, c: Context, mask: SigSet)
    requires |mem| == MEMORY_WORDS && c.sp >= 76
    ensures var at := FrameAt(c.sp);
            SavedAt(mem, Patch(Patch(mem, at / 4 + 2, Encode(c)), at / 4, [mask.low, mask.high]), at, c, mask)
  {
    var at := FrameAt(c.sp);
    var a := at / 4;
    var mid := Patch(mem, a + 2, Encode(c));
    var after := Patch(mid, a, [mask.low, mask.high]);
    assert forall k :: 0 <= k < 17 ==> mid[a + 2 + k] == Encode(c)[k];
    forall i | 0 <= i < 13 ensures after[a + 3 + i] == c.r[i] {
      assert mid[a + 2 + (1 + i)] == Encode(c)[1 + i];
    }
  }

  // ----- masks

  /** A mask that blocks neither SIGKILL nor SIGSTOP. */
  ghost predicate Clean(mask: SigSet) {
    !Has(mask, SIGKILL) && !Has(mask, SIGSTOP)
  }

  ghost predicate CleanFrames(frames: seq<Frame>) {
    forall i :: 0 <= i < |frames| ==> Clean(frames[i].mask)
  }

  /** The two signals nobody may handle keep their default action. */
  ghost predicate ActionsOk(actions: seq<Action>) {
    && |actions| == ACTIONS
    && (forall i :: 0 <= i < ACTIONS ==> Clean(actions[i].mask))
    && actions[SIGKILL].handler == SIG_DFL && actions[SIGSTOP].handler == SIG_DFL
  }

  lemma NothingIn()
    ensures forall k :: InRange(k) ==> !Has(SigSet(0, 0), k)
  {
    forall k | InRange(k) ensures !Has(SigSet(0, 0), k) {
      ZeroBits(if k > 32 then k - 33 else k - 1);
    }
  }

  /** Removing the two signals makes any mask clean. */
  lemma MadeClean(mask: SigSet)
    ensures Clean(Del(Del(mask, SIGKILL), SIGSTOP))
  {
    var once := Del(mask, SIGKILL);
    AddDelHas(mask, SIGKILL, SIGKILL);
    AddDelHas(once, SIGSTOP, SIGKILL);
    AddDelHas(once, SIGSTOP, SIGSTOP);
  }

  /** A signal is due: pending and not blocked. */
  ghost predicate Due(pending: SigSet, mask: SigSet, k: int) {
    InRange(k) && Has(pending, k) && !Has(mask, k)
  }

  /** The least signal that is due, if there is any, is one the table of actions has a place for. */
  ghost predicate HasAction(pending: SigSet, mask: SigSet) {
    Due(pending, mask, ACTIONS) ==> exists k :: 1 <= k < ACTIONS && Due(pending, mask, k)
  }

  /** The set dispatch looks at holds the signals that are due, so what it peeks is the least of them. */
  lemma PeekIsLeastDue(pending: SigSet, mask: SigSet)
    ensures var sig := Peek(Meet(pending, Complement(mask)));
            && (sig == 0 ==> forall k :: !Due(pending, mask, k))
            && (sig != 0 ==> Due(pending, mask, sig) && forall k :: 1 <= k < sig ==> !Due(pending, mask, k))
  {
    hide Peek, Has, Meet, Complement;
    var s := Meet(pending, Complement(mask));
    PeekIsLeast(s);
    forall k | InRange(k) ensures Has(s, k) <==> Due(pending, mask, k) {
      SetAlgebra(mask, mask, k);
      SetAlgebra(pending, Complement(mask), k);
    }
  }

  // ----- runs

  /** What a run of a process looks like to its signal handling. */
  datatype Snapshot = Snapshot(context: Context, mask: SigSet, frames: seq<Frame>)

  /** A signal was delivered to a handler. */
  ghost predicate Delivers(s: Snapshot, t: Snapshot) {
    && |t.frames| == |s.frames| + 1 && t.frames[..|s.frames|] == s.frames
    && t.frames[|s.frames|].context == s.context && t.frames[|s.frames|].mask == s.mask
  }

  /** A handler returned. */
  ghost predicate Returns(s: Snapshot, t: Snapshot) {
    && |s.frames| == |t.frames| + 1 && s.frames[..|t.frames|] == t.frames
    && t.context == s.frames[|t.frames|].context && t.mask == s.frames[|t.frames|].mask
  }

  /** One step: a delivery, a return, or anything that leaves the frames alone. */
  ghost predicate Next(s: Snapshot, t: Snapshot) {
    Delivers(s, t) || Returns(s, t) || t.frames == s.frames
  }

  ghost predicate IsRun(run: seq<Snapshot>) {
    forall i, j :: 0 <= i && j == i + 1 && j < |run| ==> Next(run[i], run[j])
  }

  /** While a run stays at or above a depth, the frames up to that depth do not change. */
  lemma {:induction false} DeepFramesKept(run: seq<Snapshot>, depth: nat, i: nat)
    requires IsRun(run) && i < |run|
    requires forall k :: 0 <= k <= i ==> |run[k].frames| >= depth
    ensures run[i].frames[..depth] == run[0].frames[..depth]
    decreases i
  {
    if i > 0 {
      DeepFramesKept(run, depth, i - 1);
      var s, t := run[i - 1], run[i];
      assert Next(s, t);
      if Delivers(s, t) {
        assert t.frames[..depth] == t.frames[..|s.frames|][..depth];
      } else if Returns(s, t) {
        assert s.frames[..depth] == s.frames[..|t.frames|][..depth];
      }
    }
  }

  /**
   * Whatever happens in between, however deeply handlers nest, a run that
   * delivers a signal and comes back to the same depth for the first time has
   * the context and the mask it started with.
   */
  lemma NestingRestores(run: seq<Snapshot>)
    requires IsRun(run) && |run| >= 2
    requires forall k :: 0 < k < |run| - 1 ==> |run[k].frames| > |run[0].frames|
    requires |run| > 2 && |run[|run| - 1].frames| == |run[0].frames|
    ensures run[|run| - 1] == run[0]
  {
    var n := |run| - 1;
    var d := |run[0].frames|;
    assert Next(run[0], run[1]) && Delivers(run[0], run[1]);
    assert Next(run[n - 1], run[n]) && Returns(run[n - 1], run[n]);
    var inner := run[1..n];
    forall i, j | 0 <= i && j == i + 1 && j < |inner|
      ensures Next(inner[i], inner[j])
    {
      assert Next(run[i + 1], run[j + 1]);
    }
    DeepFramesKept(inner, d + 1, |inner| - 1);
    assert run[n - 1].frames[..d + 1][d] == run[1].frames[..d + 1][d];
    assert run[n - 1].frames[..d + 1][..d] == run[1].frames[..d + 1][..d];
    assert run[1].frames[..d + 1][..d] == run[1].frames[..d]
           && run[n - 1].frames[..d + 1][..d] == run[n - 1].frames[..d];
  }

  // ----- the process

  datatype Fate = Continues | Dies

  datatype How = Block | Unblock | SetMask | Unknown

  /** The signal state of a process, with its user memory and the frames that are live in it. */
  class Task {
    var context: Context
    var mask: SigSet
    var pending: SigSet
    var actions: seq<Action>
    var mem: seq<Word>
    ghost var frames: seq<Frame>

    ghost predicate Valid()
      reads this
    {
      && |mem| == MEMORY_WORDS && Stacked(mem, frames, context.sp)
      && Clean(mask) && CleanFrames(frames) && ActionsOk(actions)
    }

    ghost function Now(): (s: Snapshot)
      reads this
    {
      Snapshot(context, mask, frames)
    }

    /** A new process: nothing blocked, nothing pending, every action the default. */
    constructor (start: Context, memory: seq<Word>)
      requires |memory| == MEMORY_WORDS
      ensures Valid() && context == start && frames == []
      ensures forall k :: InRange(k) ==> !Has(mask, k) && !Has(pending, k)
      ensures |actions| == 64 && forall k :: 0 <= k < 64 ==> actions[k] == Action(0, 0, 0, SigSet(0, 0))
    {
      context, mem, frames := start, memory, [];
      mask, pending := SigSet(0, 0), SigSet(0, 0);
      actions := seq(ACTIONS, i => Action(SIG_DFL, 0, 0, SigSet(0, 0)));
      NothingIn();
    }

    /** `push_to_stack` */
    method PushToStack(sp: Word, data: seq<Word>) returns (at: Word)
      requires |mem| == MEMORY_WORDS && 4 * |data| <= sp
      modifies this`mem
      ensures at == (sp - 4 * |data|) / 8 * 8
      ensures mem == Patch(old(mem), at / 4, data)
    {
      at := (sp - 4 * |data|) / 8 * 8;
      mem := mem[..at / 4] + data + mem[at / 4 + |data|..];
    }

    /** `pop_from_stack` */
    method PopFromStack(sp: Word, n: nat) returns (data: seq<Word>, next: nat)
      requires sp % 4 == 0 && sp / 4 + n <= |mem|
      ensures data == mem[sp / 4..sp / 4 + n]
      ensures next == (sp + 4 * n + 7) / 8 * 8
    {
      data := mem[sp / 4..sp / 4 + n];
      next := (sp + 4 * n + 7) / 8 * 8;
    }

    /** `process_dispatch`, on its way back to user mode. */
    method Dispatch() returns (sig: nat, fate: Fate)
      requires Valid() && HasAction(pending, mask)
      requires context.sp >= 76
      modifies this`context, this`mask, this`pending, this`mem, this`frames
      ensures Valid() && Next(old(Now()), Now())
      ensures sig == 0 ==> forall k :: !Due(old(pending), old(mask), k)
      ensures sig != 0 ==> Due(old(pending), old(mask), sig)
      ensures sig != 0 ==> forall k :: 1 <= k < sig ==> !Due(old(pending), old(mask), k)
      ensures sig < ACTIONS
      ensures pending == (if sig == 0 || fate.Dies? then old(pending) else Del(old(pending), sig))
      ensures fate.Dies? <==> sig != 0 && actions[sig].handler == SIG_DFL && sig !in {SIGCHLD, SIGURG, SIGWINCH}
      ensures sig == SIGKILL ==> fate.Dies?
      ensures if sig != 0 && actions[sig].handler !in {SIG_DFL, SIG_IGN} then
                && Delivers(old(Now()), Now())
                && context == Context(0x10, context.r, FrameAt(old(context.sp)), actions[sig].restorer,
                                      actions[sig].handler)
                && context.r[0] == sig && (forall i :: 1 <= i < 13 ==> context.r[i] == 0)
                && SavedAt(old(mem), mem, FrameAt(old(context.sp)), old(context), old(mask))
                && forall k :: InRange(k) ==>
                  (Has(mask, k) <==> Has(old(mask), k) || Has(actions[sig].mask, k) || k == sig)
              else context == old(context) && mask == old(mask) && mem == old(mem) && frames == old(frames)
    {
      hide Has, Stacked, SavedAt;
      PeekIsLeastDue(pending, mask);
      var due := Meet(pending, Complement(mask));
      sig := Peek(due);
      fate := Continues;
      if sig != 0 {
        var action := actions[sig];
        if action.handler == SIG_DFL {
          if sig !in {SIGCHLD, SIGURG, SIGWINCH} {
            fate := Dies;
            return;
          }
        } else if action.handler != SIG_IGN {
          Deliver(sig, action);
        }
        pending := Del(pending, sig);
      }
    }

    /** The registers a handler starts with. */
    static function Entered(sig: nat): (r: Registers)
      requires InRange(sig)
    {
      [sig, 0, 0, 0, 0, 0, 0, 0, 0, 0, 0, 0, 0]
    }

    /** Building a frame and entering a handler. */
    method Deliver(sig: nat, action: Action)
      requires Valid() && context.sp >= 76 && InRange(sig) && Clean(action.mask) && sig !in {SIGKILL, SIGSTOP}
      modifies this`context, this`mask, this`mem, this`frames
      ensures Valid() && Delivers(old(Now()), Now())
      ensures context == Context(0x10, context.r, FrameAt(old(context.sp)), action.restorer, action.handler)
      ensures context.r[0] == sig && forall i :: 1 <= i < 13 ==> context.r[i] == 0
      ensures SavedAt(old(mem), mem, FrameAt(old(context.sp)), old(context), old(mask))
      ensures forall k :: InRange(k) ==> (Has(mask, k) <==> Has(old(mask), k) || Has(action.mask, k) || k == sig)
    {
      hide Has, Stacked, ActionsOk, Union, Add, Encode, SavedAt;
      PushStacks(mem, frames, context, mask);
      FrameWords(mem, context, mask);
      HandlerMask(mask, action.mask, sig);
      var sp := PushToStack(context.sp, Encode(context));
      sp := PushToStack(sp, [mask.low, mask.high]);
      frames := frames + [Frame(sp, context, mask)];
      context := Context(0x10, Entered(sig), sp, action.restorer, action.handler);
      mask := Union(mask, action.mask);
      mask := Add(mask, sig);
    }

    /** `process_sigreturn`, called with the stack pointer the handler was entered with. */
    method SigReturn()
      requires Valid() && frames != [] && context.sp == frames[|frames| - 1].at
      modifies this`context, this`mask, this`frames
      ensures Valid() && Returns(old(Now()), Now())
    {
      hide Has, ActionsOk, Stacked;
      TopFrame(mem, frames, context.sp);
      hide Decode, Clean;
      var words, sp := PopFromStack(context.sp, 2);
      mask := SigSet(words[0], words[1]);
      words, sp := PopFromStack(sp, 17);
      context := Decode(words);
      frames := frames[..|frames| - 1];
    }

    /**
     * User code between two entries to the kernel: it may do anything but write
     * into a live frame or let its stack pointer rise above the newest one.
     */
    method RunUser(after: Context, memory: seq<Word>)
      requires Valid() && SameFrames(mem, memory, frames)
      requires frames != [] ==> after.sp <= frames[|frames| - 1].at
      modifies this`context, this`mem
      ensures Valid() && Next(old(Now()), Now()) && context == after && mem == memory
    {
      StackedFrame(mem, memory, frames, context.sp);
      context, mem := after, memory;
    }

    /** `process_kill`, for the process it finds */
    method Kill(sig: int) returns (ok: bool)
      requires Valid()
      modifies this`pending
      ensures Valid() && ok == InRange(sig)
      ensures forall k :: InRange(k) ==> (Has(pending, k) <==> Has(old(pending), k) || k == sig)
    {
      hide Has;
      forall k | InRange(k) ensures Has(Add(pending, sig), k) <==> k == sig || Has(pending, k) {
        AddDelHas(pending, sig, k);
      }
      ok := InRange(sig);
      if ok {
        pending := Add(pending, sig);
      }
    }

    /** `process_sigaction`; no action stands for a request that only asks for the old one. */
    method SigAction(sig: int, change: Option<Action>) returns (ok: bool, was: Option<Action>)
      requires Valid() && sig != ACTIONS
      modifies this`actions
      ensures Valid()
      ensures ok <==> InRange(sig) && sig !in {SIGKILL, SIGSTOP}
      ensures ok ==> was == Some(old(actions)[sig])
      ensures !ok || change.None? ==> actions == old(actions)
      ensures ok && change.Some? ==>
                && actions == old(actions)[sig := actions[sig]]
                && actions[sig] == change.value.(mask := actions[sig].mask)
                && forall k :: InRange(k) && k !in {SIGKILL, SIGSTOP} ==>
                  (Has(actions[sig].mask, k) <==> Has(change.value.mask, k))
    {
      hide Has, Stacked;
      if !InRange(sig) || sig == SIGKILL || sig == SIGSTOP {
        return false, None;
      }
      ok, was := true, Some(actions[sig]);
      if change.Some? {
        var action := change.value;
        MadeClean(action.mask);
        CleanOnly(action.mask);
        actions := actions[sig := action.(mask := Del(Del(action.mask, SIGKILL), SIGSTOP))];
      }
    }

    /** `process_sigprocmask` with a set */
    method SigProcMask(how: How, change: SigSet) returns (ok: bool, was: SigSet)
      requires Valid()
      modifies this`mask
      ensures Valid() && Next(old(Now()), Now())
      ensures ok == !how.Unknown? && (ok ==> was == old(mask)) && (!ok ==> mask == old(mask))
      ensures forall k :: ok && InRange(k) && k !in {SIGKILL, SIGSTOP} ==>
                (Has(mask, k) <==> match how
                                   case Block => Has(old(mask), k) || Has(change, k)
                                   case Unblock => Has(old(mask), k) && !Has(change, k)
                                   case _ => Has(change, k))
    {
      hide Has, Stacked, ActionsOk, Union, Meet, Complement, Del;
      ok, was := true, mask;
      BlockUnblock(mask, change);
      match how
      case Block =>
        CleanOnly(Union(mask, change));
        MadeClean(Union(mask, change));
        mask := Del(Del(Union(mask, change), SIGKILL), SIGSTOP);
      case Unblock =>
        mask := Meet(mask, Complement(change));
      case SetMask =>
        CleanOnly(change);
        MadeClean(change);
        mask := Del(Del(change, SIGKILL), SIGSTOP);
      case Unknown =>
        ok := false;
    }
  }

  /** What blocking and unblocking a set do to a mask; neither can block what was not asked for. */
  lemma BlockUnblock(mask: SigSet, change: SigSet)
    ensures forall k :: InRange(k) ==> (Has(Union(mask, change), k) <==> Has(mask, k) || Has(change, k))
    ensures forall k :: InRange(k) ==> (Has(Meet(mask, Complement(change)), k) <==> Has(mask, k) && !Has(change, k))
    ensures Clean(mask) ==> Clean(Meet(mask, Complement(change)))
  {
    hide Has, Union, Meet, Complement;
    forall k | InRange(k)
      ensures Has(Union(mask, change), k) <==> Has(mask, k) || Has(change, k)
      ensures Has(Meet(mask, Complement(change)), k) <==> Has(mask, k) && !Has(change, k)
    {
      SetAlgebra(mask, change, k);
      SetAlgebra(change, change, k);
      SetAlgebra(mask, Complement(change), k);
    }
  }

  /** The mask a handler runs with. */
  lemma HandlerMask(mask: SigSet, more: SigSet, sig: int)
    ensures var after := Add(Union(mask, more), sig);
            && (forall k :: InRange(k) ==> (Has(after, k) <==> Has(mask, k) || Has(more, k) || k == sig))
            && (Clean(mask) && Clean(more) && sig !in {SIGKILL, SIGSTOP} ==> Clean(after))
  {
    hide Has, Union, Add;
    var both := Union(mask, more);
    forall k | InRange(k)
      ensures Has(Add(both, sig), k) <==> Has(mask, k) || Has(more, k) || k == sig
    {
      SetAlgebra(mask, more, k);
      AddDelHas(both, sig, k);
    }
  }

  /** Popping at the newest frame gives back its mask and its context. */
  lemma TopFrame(mem: seq<Word>, frames: seq<Frame>, sp: Word)
    requires |mem| == MEMORY_WORDS && Stacked(mem, frames, sp) && frames != [] && sp == frames[|frames| - 1].at
    ensures var f := frames[|frames| - 1];
            && sp % 8 == 0 && sp / 4 + 19 <= |mem| && sp + 8 < 0x1_0000_0000
            && mem[sp / 4..sp / 4 + 2] == [f.mask.low, f.mask.high]
            && Decode(mem[sp / 4 + 2..sp / 4 + 19]) == f.context
            && Stacked(mem, frames[..|frames| - 1], f.context.sp)
  {
    ContextRoundTrip(frames[|frames| - 1].context);
  }

  /** Cleaning a mask touches nothing but the two signals. */
  lemma CleanOnly(mask: SigSet)
    ensures forall k :: InRange(k) && k !in {SIGKILL, SIGSTOP} ==>
              (Has(Del(Del(mask, SIGKILL), SIGSTOP), k) <==> Has(mask, k))
  {
    hide Has;
    var once := Del(mask, SIGKILL);
    forall k | InRange(k) && k !in {SIGKILL, SIGSTOP}
      ensures Has(Del(once, SIGSTOP), k) <==> Has(mask, k)
    {
      AddDelHas(mask, SIGKILL, k);
      AddDelHas(once, SIGSTOP, k);
    }
  }
}
