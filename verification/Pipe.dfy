/**
 A pipe: a ring of one page shared by readers and writers. A process runs a read or a
 write until the call returns or has to sleep; between such stretches any other process
 may run one of its own.
 */
module Pipe {
  import opened Pages
  import opened Blocks

  /** How a stretch of a read or a write ends. */
  datatype Stop = Returned(count: int) | Asleep | BugOn

  const EPIPE := 32

  /** The bytes in a ring of length `|page|` from `offset` on. */
  ghost function Ring(page: seq<Byte>, offset: nat, length: nat): (r: seq<Byte>)
    requires offset <= |page| && length <= |page|
    ensures |r| == length
  {
    if offset + length <= |page| then page[offset..offset + length]
    else page[offset..] + page[..offset + length - |page|]
  }

  /** Reading `n` bytes up to the end of the ring moves the offset past them. */
  lemma RingDrop(page: seq<Byte>, offset: nat, length: nat, n: nat)
    requires offset < |page| && n <= length <= |page| && offset + n <= |page|
    ensures page[offset..offset + n] == Ring(page, offset, length)[..n]
    ensures Ring(page, if offset + n == |page| then 0 else offset + n, length - n) == Ring(page, offset, length)[n..]
  {
  }

  /** Writing `data` where the free part of the ring starts appends it. */
  lemma RingAppend(page: seq<Byte>, page': seq<Byte>, offset: nat, length: nat, start: nat, data: seq<Byte>)
    requires offset < |page| && length + |data| <= |page| && |page'| == |page|
    requires start == (if offset + length < |page| then offset + length else offset + length - |page|)
    requires start + |data| <= |page| && (start < offset ==> start + |data| <= offset)
    requires page' == page[..start] + data + page[start + |data|..]
    ensures Ring(page', offset, length + |data|) == Ring(page, offset, length) + data
  {
    hide Ring;
    var r, r' := Ring(page, offset, length), Ring(page', offset, length + |data|);
    forall i | 0 <= i < |r'| ensures r'[i] == (r + data)[i] {
      RingAt(page', offset, length + |data|, i);
      if i < length { RingAt(page, offset, length, i); }
    }
  }

  lemma RingAt(page: seq<Byte>, offset: nat, length: nat, i: nat)
    requires offset <= |page| && i < length <= |page|
    ensures Ring(page, offset, length)[i] == page[if offset + i < |page| then offset + i else offset + i - |page|]
  {
  }

  function Wrap(x: nat): (r: nat)
    ensures r < PAGE_SIZE
  {
    x % PAGE_SIZE
  }

  /** How much lies between the offset and the end of the data or of the page. */
  lemma ReadSpan(offset: nat, length: nat, n: nat)
    requires offset < PAGE_SIZE && 0 < length <= PAGE_SIZE
    ensures var start := Wrap(offset + length);
            var remaining := if start > offset then start - offset else PAGE_SIZE - offset;
            && 0 < remaining <= length && offset + remaining <= PAGE_SIZE
            && (remaining < length ==> offset + remaining == PAGE_SIZE && offset > 0)
            && (n <= remaining ==> Wrap(offset + n) == if offset + n == PAGE_SIZE then 0 else offset + n)
  {
  }

  /** How much room lies between the end of the data and the offset or the end of the page. */
  lemma WriteSpan(offset: nat, length: nat)
    requires offset < PAGE_SIZE && length < PAGE_SIZE
    ensures var start := Wrap(offset + length);
            var remaining := if start < offset then offset - start else PAGE_SIZE - start;
            && start == (if offset + length < PAGE_SIZE then offset + length else offset + length - PAGE_SIZE)
            && 0 < remaining && length + remaining <= PAGE_SIZE && start + remaining <= PAGE_SIZE
            && (start < offset ==> start + remaining <= offset)
  {
  }

  lemma Regroup(r: seq<Byte>, s: seq<Byte>, n: nat)
    requires n <= |s|
    ensures r + s == r + s[..n] + s[n..]
  {
    assert s == s[..n] + s[n..];
  }

  /** What was written is what was read followed by what is in the ring. */
  ghost predicate Conserved(sent: seq<Byte>, received: seq<Byte>, contents: seq<Byte>) {
    sent == received + contents
  }

  /** `now` is `before` followed by the bytes of `data` from `from` up to `to`. */
  ghost predicate Extended(before: seq<Byte>, now: seq<Byte>, data: seq<Byte>, from: nat, to: nat) {
    from <= to <= |data| && now == before + data[from..to]
  }

  lemma ExtendedNone(before: seq<Byte>, data: seq<Byte>, from: nat)
    requires from <= |data|
    ensures Extended(before, before, data, from, from)
  {
  }

  lemma ExtendedMore(before: seq<Byte>, now: seq<Byte>, data: seq<Byte>, from: nat, to: nat, n: nat)
    requires Extended(before, now, data, from, to) && to + n <= |data|
    ensures Extended(before, now + data[to..to + n], data, from, to + n)
  {
    assert data[from..to] + data[to..to + n] == data[from..to + n];
  }

  lemma SentExtended(sent: seq<Byte>, sent': seq<Byte>, received: seq<Byte>, contents: seq<Byte>, contents': seq<Byte>,
                     data: seq<Byte>, from: nat, to: nat)
    requires Conserved(sent, received, contents) && Conserved(sent', received, contents')
    requires Extended(contents, contents', data, from, to)
    ensures Extended(sent, sent', data, from, to)
  {
  }

  /** `data` was taken from the front of `all` and `now` is left. */
  ghost predicate Consumed(all: seq<Byte>, now: seq<Byte>, data: seq<Byte>) {
    all == data + now
  }

  lemma ConsumedNone(all: seq<Byte>)
    ensures Consumed(all, all, [])
  {
  }

  lemma ConsumedMore(all: seq<Byte>, now: seq<Byte>, data: seq<Byte>, n: nat)
    requires Consumed(all, now, data) && n <= |now|
    ensures Consumed(all, now[n..], data + now[..n])
  {
    assert now == now[..n] + now[n..];
  }

  lemma ReceivedFollows(sent: seq<Byte>, received: seq<Byte>, received': seq<Byte>, all: seq<Byte>, now: seq<Byte>,
                        data: seq<Byte>)
    requires Conserved(sent, received, all) && Conserved(sent, received', now) && Consumed(all, now, data)
    ensures received' == received + data
  {
    assert sent == received + data + now;
    assert sent[..|received'|] == received' && |received'| == |received + data|;
  }

  /** At most one sleeper on each end, and only where it has to wait for the other end. */
  ghost predicate NobodyStuck(rq: seq<nat>, wq: seq<nat>, length: nat, readers: nat, writers: nat) {
    && |rq| <= 1 && |wq| <= 1
    && (rq != [] ==> length == 0 && writers > 0)
    && (wq != [] ==> length == PAGE_SIZE && readers > 0)
  }

  lemma NotStuckAfterRead(rq: seq<nat>, wq: seq<nat>, length: nat, less: nat, readers: nat, writers: nat)
    ensures rq == [] && NobodyStuck(rq, wq, length, readers, writers) ==>
              NobodyStuck(rq, Woken(wq), less, readers, writers)
  {
  }

  lemma NotStuckReader(rq: seq<nat>, wq: seq<nat>, me: nat, readers: nat, writers: nat)
    requires writers > 0
    ensures rq == [] && NobodyStuck(rq, wq, 0, readers, writers) ==> NobodyStuck([me] + rq, wq, 0, readers, writers)
  {
  }

  lemma NotStuckAfterWrite(rq: seq<nat>, wq: seq<nat>, length: nat, more: nat, readers: nat, writers: nat)
    ensures wq == [] && NobodyStuck(rq, wq, length, readers, writers) ==>
              NobodyStuck(Woken(rq), wq, more, readers, writers)
  {
  }

  lemma NotStuckAsleep(rq: seq<nat>, wq: seq<nat>, me: nat, readers: nat, writers: nat)
    requires readers > 0
    ensures wq == [] && NobodyStuck(rq, wq, PAGE_SIZE, readers, writers) ==>
              NobodyStuck(rq, [me] + wq, PAGE_SIZE, readers, writers)
  {
  }

  class Pipe {
    const page: array<Byte>
    var offset: nat
    var length: nat
    var readers: nat
    var writers: nat
    /** Processes asleep on either end, the one to be woken next first. */
    var readersQueue: seq<nat>
    var writersQueue: seq<nat>
    /** All bytes written and all bytes read so far. */
    ghost var sent: seq<Byte>
    ghost var received: seq<Byte>

    ghost predicate Shape()
      reads this`offset, this`length
    {
      page.Length == PAGE_SIZE && offset < PAGE_SIZE && length <= PAGE_SIZE
    }

    ghost function Contents(): seq<Byte>
      requires Shape()
      reads this`offset, this`length, page
    {
      Ring(page[..], offset, length)
    }

    ghost predicate Valid()
      reads this`offset, this`length, this`sent, this`received, page
    {
      Shape() && Conserved(sent, received, Contents())
    }

    /** `pipe_create` */
    constructor ()
      ensures Valid() && fresh(page) && sent == received == [] && Contents() == []
      ensures readers == writers == 1 && readersQueue == writersQueue == [] && offset == length == 0
    {
      page := new Byte[PAGE_SIZE];
      offset, length, readers, writers := 0, 0, 1, 1;
      readersQueue, writersQueue := [], [];
      sent, received := [], [];
      new;
    }

    /** With one process on each end: nobody sleeps who could go on. */
    ghost predicate Tight()
      reads this
    {
      NobodyStuck(readersQueue, writersQueue, length, readers, writers)
    }

    /** One chunk of `pipe_read`: at most up to the end of the page. */
    method Take(room: nat) returns (chunk: seq<Byte>)
      requires Valid() && length > 0
      modifies this`offset, this`length, this`received
      ensures Valid() && received == old(received) + chunk && Contents() == old(Contents())[|chunk|..]
      ensures |chunk| <= room && |chunk| <= old(length) && chunk == old(Contents())[..|chunk|]
      ensures |chunk| == room || length == 0
              || (offset == 0 && 0 < |chunk| == PAGE_SIZE - old(offset) && old(offset) > 0)
    {
      hide Ring, Wrap;
      var start := Wrap(offset + length);
      var remaining := if start > offset then start - offset else PAGE_SIZE - offset;
      var n := if remaining > room then room else remaining;
      ReadSpan(offset, length, n);
      RingDrop(page[..], offset, length, n);
      Regroup(received, Contents(), n);
      chunk := page[offset..offset + n];
      received := received + chunk;
      offset := Wrap(offset + n);
      length := length - n;
    }

    /** The `memcpy` into the page. */
    method CopyIn(start: nat, chunk: seq<Byte>)
      requires start + |chunk| <= page.Length
      modifies page
      ensures page[..] == old(page[..])[..start] + chunk + old(page[..])[start + |chunk|..]
    {
      forall i | 0 <= i < |chunk| {
        page[start + i] := chunk[i];
      }
    }

    /** One chunk of `pipe_write`: at most up to the offset or the end of the page. */
    method Append(data: seq<Byte>, written: nat) returns (n: nat)
      requires Valid() && length < PAGE_SIZE && written <= |data|
      modifies this`length, this`sent, page
      ensures Valid() && n <= |data| - written && (written < |data| ==> n > 0)
      ensures sent == old(sent) + data[written..written + n]
      ensures Contents() == old(Contents()) + data[written..written + n] && length == old(length) + n
      ensures offset + length - n + |data| - written <= PAGE_SIZE ==> n == |data| - written
    {
      hide Ring, Wrap;
      var start := Wrap(offset + length);
      var remaining := if start < offset then offset - start else PAGE_SIZE - start;
      WriteSpan(offset, length);
      n := if remaining < |data| - written then remaining else |data| - written;
      ghost var before, chunk := page[..], data[written..written + n];
      CopyIn(start, data[written..written + n]);
      RingAppend(before, page[..], offset, length, start, chunk);
      length := length + n;
      sent := sent + chunk;
    }

    /** One round of `pipe_write`: a chunk, and a reader to read it. */
    method AppendAndWake(data: seq<Byte>, written: nat) returns (n: nat)
      requires Valid() && length < PAGE_SIZE && written <= |data|
      modifies this`length, this`sent, this`readersQueue, page
      ensures Valid() && n <= |data| - written && (written < |data| ==> n > 0)
      ensures Contents() == old(Contents()) + data[written..written + n] && length == old(length) + n
      ensures offset + length - n + |data| - written <= PAGE_SIZE ==> n == |data| - written
      ensures readersQueue == Woken(old(readersQueue))
    {
      n := Append(data, written);
      readersQueue := Woken(readersQueue);
    }

    /** `pipe_read` from its start, or from where it woke up, until it returns or sleeps */
    method Read(me: nat, size: nat) returns (stop: Stop, data: seq<Byte>)
      requires Valid()
      modifies this`offset, this`length, this`received, this`readersQueue, this`writersQueue
      ensures Valid() && received == old(received) + data && Consumed(old(Contents()), Contents(), data)
      ensures |data| + length == old(length)
      ensures old(length) == 0 ==>
                && data == [] && length == 0 && offset == old(offset) && writersQueue == old(writersQueue)
                && stop == (if writers == 0 then Returned(0) else Asleep)
                && readersQueue == if writers == 0 then old(readersQueue) else [me] + old(readersQueue)
      ensures old(length) > 0 ==>
                && (stop == BugOn <==> size == 0 && old(length) == PAGE_SIZE)
                && readersQueue == old(readersQueue)
                && (stop != BugOn ==>
                     && stop == Returned(|data|) && |data| == (if size < old(length) then size else old(length))
                     && WokeIf(true, old(writersQueue), writersQueue)
                     && (|data| <= PAGE_SIZE - old(offset) ==> writersQueue == Woken(old(writersQueue))))
      ensures old(Tight()) && old(readersQueue) == [] && stop != BugOn ==> Tight()
    {
      hide Ring, WokeIf, Woken, NobodyStuck, Conserved, Consumed;
      data := [];
      ghost var all, received0 := Contents(), received;
      ConsumedNone(all);
      WokeNone(writersQueue);
      while true
        invariant Valid() && Consumed(all, Contents(), data) && |data| <= size && |data| + length == old(length)
        invariant |data| > 0 ==> length > 0 && |data| < size
        invariant readersQueue == old(readersQueue)
        invariant WokeIf(|data| > 0, old(writersQueue), writersQueue)
        invariant |data| == 0 ==> offset == old(offset) && writersQueue == old(writersQueue)
        invariant |data| > 0 ==> offset == 0 && |data| == PAGE_SIZE - old(offset)
        invariant old(Tight()) && old(readersQueue) == [] ==> Tight()
        decreases length
      {
        ReceivedFollows(sent, received0, received, all, Contents(), data);
        if length == 0 {
          NoneWoken(old(writersQueue), writersQueue);
          if writers == 0 {
            return Returned(0), data;
          }
          NotStuckReader(readersQueue, writersQueue, me, readers, writers);
          readersQueue := [me] + readersQueue;
          return Asleep, data;
        }
        ghost var contents, before, had := Contents(), length, |data| > 0;
        var chunk := Take(size - |data|);
        ConsumedMore(all, contents, data, |chunk|);
        data := data + chunk;
        ReceivedFollows(sent, received0, received, all, Contents(), data);
        if offset >= PAGE_SIZE || length >= PAGE_SIZE {
          return BugOn, data;
        }
        WokenAgain(had, old(writersQueue), writersQueue);
        NotStuckAfterRead(readersQueue, writersQueue, before, length, readers, writers);
        writersQueue := Woken(writersQueue);
        if length == 0 || size == |data| {
          return Returned(|data|), data;
        }
      }
    }

    /** `pipe_write` from its start, or from where it woke up with `from` bytes written, until it
        returns or sleeps */
    method Write(me: nat, data: seq<Byte>, from: nat) returns (stop: Stop, written: nat)
      requires Valid() && from <= |data| && (from < |data| || from == 0)
      modifies this`length, this`sent, this`readersQueue, this`writersQueue, page
      ensures Valid() && Extended(old(sent), sent, data, from, written)
      ensures Extended(old(Contents()), Contents(), data, from, written) && length == old(length) + written - from
      ensures readers == 0 ==>
                && stop == Returned(-EPIPE) && written == from
                && length == old(length) && readersQueue == old(readersQueue) && writersQueue == old(writersQueue)
      ensures readers > 0 ==>
                && (if old(length) + |data| - from <= PAGE_SIZE && old(length) < PAGE_SIZE
                    then stop == Returned(|data|) && written == |data|
                    else stop == Asleep && length == PAGE_SIZE)
                && writersQueue == (if stop == Asleep then [me] + old(writersQueue) else old(writersQueue))
                && WokeIf(old(length) < PAGE_SIZE, old(readersQueue), readersQueue)
                && (old(length) < PAGE_SIZE && offset + old(length) + |data| - from <= PAGE_SIZE ==>
                     readersQueue == Woken(old(readersQueue)))
      ensures old(Tight()) && old(writersQueue) == [] ==> Tight()
    {
      hide Ring, WokeIf, Woken, NobodyStuck, Conserved, Extended;
      written := from;
      ghost var sent0, contents0 := sent, Contents();
      ExtendedNone(contents0, data, from);
      WokeNone(readersQueue);
      while true
        invariant Valid() && from <= written <= |data| && length == old(length) + written - from
        invariant Extended(contents0, Contents(), data, from, written)
        invariant written > from ==> written < |data| && readers > 0
        invariant writersQueue == old(writersQueue)
        invariant WokeIf(written > from, old(readersQueue), readersQueue)
        invariant written == from ==> readersQueue == old(readersQueue)
        invariant written > from ==> offset + old(length) + |data| - from > PAGE_SIZE
        invariant old(Tight()) && old(writersQueue) == [] ==> Tight()
        decreases PAGE_SIZE - length
      {
        SentExtended(sent0, sent, received, contents0, Contents(), data, from, written);
        if readers == 0 {
          NoneWoken(old(readersQueue), readersQueue);
          return Returned(-EPIPE), written;
        }
        if length == PAGE_SIZE {
          NotStuckAsleep(readersQueue, writersQueue, me, readers, writers);
          writersQueue := [me] + writersQueue;
          return Asleep, written;
        }
        ghost var queue, contents := readersQueue, Contents();
        var n := AppendAndWake(data, written);
        ExtendedMore(contents0, contents, data, from, written, n);
        WokenAgain(written > from, old(readersQueue), queue);
        NotStuckAfterWrite(queue, writersQueue, length - n, length, readers, writers);
        written := written + n;
        if |data| == written {
          SentExtended(sent0, sent, received, contents0, Contents(), data, from, written);
          return Returned(written), written;
        }
      }
    }

    /** `pipe_countup` */
    method CountUp(writing: bool)
      requires Valid()
      modifies this`readers, this`writers
      ensures Valid()
      ensures if writing then writers == old(writers) + 1 && readers == old(readers)
              else readers == old(readers) + 1 && writers == old(writers)
      ensures old(Tight()) ==> Tight()
    {
      if writing {
        writers := writers + 1;
      } else {
        readers := readers + 1;
      }
    }

    /** `pipe_release`: the last one on an end wakes everybody asleep on the other. */
    method Release(writing: bool) returns (dead: bool)
      requires Valid() && if writing then writers > 0 else readers > 0
      modifies this`readers, this`writers, this`readersQueue, this`writersQueue
      ensures Valid() && (dead <==> readers == 0 && writers == 0)
      ensures if writing then writers == old(writers) - 1 && readers == old(readers)
              else readers == old(readers) - 1 && writers == old(writers)
      ensures readersQueue == if writing && writers == 0 then [] else old(readersQueue)
      ensures writersQueue == if !writing && readers == 0 then [] else old(writersQueue)
      ensures old(Tight()) ==> Tight()
    {
      if writing {
        writers := writers - 1;
        if writers == 0 {
          while readersQueue != []
            modifies this`readersQueue
            decreases |readersQueue|
          {
            readersQueue := Woken(readersQueue);
          }
        }
      } else {
        readers := readers - 1;
        if readers == 0 {
          while writersQueue != []
            modifies this`writersQueue
            decreases |writersQueue|
          {
            writersQueue := Woken(writersQueue);
          }
        }
      }
      dead := readers == 0 && writers == 0;
    }

    /** The two ends are never asleep together, and nobody sleeps on a closed end. */
    lemma NeverBothAsleep()
      requires Tight()
      ensures readersQueue == [] || writersQueue == []
      ensures (writers == 0 ==> readersQueue == []) && (readers == 0 ==> writersQueue == [])
    {
    }
  }

  /** `process_wake`: the first process of the queue leaves it. */
  function Woken(queue: seq<nat>): seq<nat> {
    if queue == [] then [] else queue[1..]
  }

  /** If `woke`, at least one sleeper, if there was any, was woken, in the order of the queue; if not, none was. */
  ghost predicate WokeIf(woke: bool, before: seq<nat>, after: seq<nat>) {
    && |after| <= |before| && after == before[|before| - |after|..]
    && (if woke then before != [] ==> |after| < |before| else after == before)
  }

  lemma WokeNone(queue: seq<nat>)
    ensures WokeIf(false, queue, queue)
  {
  }

  lemma NoneWoken(before: seq<nat>, after: seq<nat>)
    ensures WokeIf(false, before, after) ==> after == before
  {
  }

  lemma WokenAgain(woke: bool, before: seq<nat>, queue: seq<nat>)
    requires WokeIf(woke, before, queue)
    ensures WokeIf(true, before, Woken(queue))
  {
  }
}
