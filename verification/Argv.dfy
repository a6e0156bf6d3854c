/** Arguments and environment on the stack of a new program, and the program's start that reads them. */
module Argv {
  import opened Blocks

  const ARG_MAX := 4096
  const E2BIG := 7

  /** A C string without its NUL. */
  type Text = s: seq<Byte> | forall i :: 0 <= i < |s| ==> s[i] != 0

  // ----- memory

  /** A string and its NUL in memory. */
  ghost predicate TextAt(mem: seq<Byte>, a: nat, s: Text) {
    a + |s| < |mem| && (forall i :: 0 <= i < |s| ==> mem[a + i] == s[i]) && mem[a + |s|] == 0
  }

  /** Two memories agree outside two stretches. */
  ghost predicate SameBut(mem: seq<Byte>, now: seq<Byte>, p: nat, q: nat, c: nat, d: nat) {
    |now| == |mem| && forall k :: 0 <= k < |mem| && !(p <= k < q) && !(c <= k < d) ==> now[k] == mem[k]
  }

  lemma SameButMore(was: seq<Byte>, before: seq<Byte>, pointed: seq<Byte>, now: seq<Byte>, p: nat, q: nat, c: nat,
                    d: nat, n: nat)
    requires SameBut(was, before, p, q, c, d) && |before| == |pointed| == |now| && p <= q && c <= d
    requires forall k :: 0 <= k < |now| && !(q <= k < q + 4) ==> pointed[k] == before[k]
    requires forall k :: 0 <= k < |now| && !(d <= k < d + n) ==> now[k] == pointed[k]
    ensures SameBut(was, now, p, q + 4, c, d + n)
  {
  }

  /** The bytes a list of strings takes, NULs included. */
  function Total(list: seq<Text>): (n: nat) {
    if list == [] then 0 else Total(list[..|list| - 1]) + |list[|list| - 1]| + 1
  }

  /** The strings in turn, each with its NUL. */
  function Joined(list: seq<Text>): (bytes: seq<Byte>) {
    if list == [] then [] else list[0] + [0] + Joined(list[1..])
  }

  lemma {:induction false} TotalJoined(list: seq<Text>)
    ensures Total(list) == |Joined(list)|
    decreases |list|
  {
    if list != [] {
      TotalJoined(list[1..]);
      TotalFirst(list);
    }
  }

  lemma {:induction false} TotalFirst(list: seq<Text>)
    requires list != []
    ensures Total(list) == |list[0]| + 1 + Total(list[1..])
    decreases |list|
  {
    if |list| > 1 {
      var front := list[..|list| - 1];
      TotalFirst(front);
      assert front[1..] == list[1..][..|list| - 2] && list[1..][|list| - 2] == list[|list| - 1];
    }
  }

  lemma {:induction false} TotalPrefix(list: seq<Text>, i: nat)
    requires i <= |list|
    ensures Total(list[..i]) <= Total(list)
    ensures i < |list| ==> Total(list[..i]) + |list[i]| + 1 == Total(list[..i + 1]) <= Total(list)
    decreases |list|
  {
    if i < |list| {
      assert list[..i + 1][..i] == list[..i];
      var front := list[..|list| - 1];
      if i < |list| - 1 {
        TotalPrefix(front, i);
        assert front[..i] == list[..i] && front[..i + 1] == list[..i + 1];
      } else {
        assert list[..i] == front && list[..i + 1] == list;
      }
    } else {
      assert list[..i] == list;
    }
  }

  // ----- vectors of strings

  /** Pointers from `p` on to strings that lie one after the other from `c` on. */
  ghost predicate Laid(mem: seq<Byte>, p: nat, c: nat, list: seq<Text>)
    decreases |list|
  {
    list != [] ==>
      var n := |list| - 1;
      var at := c + Total(list[..n]);
      && p + 4 * n + 4 <= |mem| && WordAt(mem, p + 4 * n) == at
      && TextAt(mem, at, list[n])
      && Laid(mem, p, c, list[..n])
  }

  lemma {:induction false} LaidFrame(mem: seq<Byte>, now: seq<Byte>, p: nat, c: nat, list: seq<Text>)
    requires Laid(mem, p, c, list) && |now| == |mem|
    requires forall k :: 0 <= k < |mem| && (p <= k < p + 4 * |list| || c <= k < c + Total(list)) ==> now[k] == mem[k]
    ensures Laid(now, p, c, list)
    decreases |list|
  {
    if list != [] {
      var n := |list| - 1;
      var front, s := list[..n], list[n];
      var at := c + Total(front);
      assert Total(list) == Total(front) + |s| + 1;
      LaidFrame(mem, now, p, c, front);
      hide WordAt;
      WordFrame(mem, now, p + 4 * n);
    }
  }

  /** Storing a pointer and copying a string adds one entry. */
  lemma ExtendLaid(before: seq<Byte>, pointed: seq<Byte>, now: seq<Byte>, p: nat, c: nat, list: seq<Text>, i: nat)
    requires i < |list| && Laid(before, p, c, list[..i]) && p + 4 * |list| + 4 <= c
    requires |before| == |pointed| == |now| && p + 4 * i + 4 <= |before|
    requires var at := c + Total(list[..i]);
             && WordAt(pointed, p + 4 * i) == at && TextAt(now, at, list[i])
             && (forall k :: 0 <= k < |now| && !(p + 4 * i <= k < p + 4 * i + 4) ==> pointed[k] == before[k])
             && (forall k :: 0 <= k < |now| && !(at <= k < at + |list[i]| + 1) ==> now[k] == pointed[k])
    ensures Laid(now, p, c, list[..i + 1])
  {
    hide TextAt, WordAt;
    LaidFrame(before, now, p, c, list[..i]);
    WordFrame(pointed, now, p + 4 * i);
    assert list[..i + 1][..i] == list[..i];
  }

  /** What a program sees: a pointer to each string and a NULL after the last. */
  ghost predicate Vector(mem: seq<Byte>, p: nat, list: seq<Text>) {
    && p + 4 * |list| + 4 <= |mem| && WordAt(mem, p + 4 * |list|) == 0
    && forall i :: 0 <= i < |list| ==> Points(mem, p, i, list[i])
  }

  ghost predicate Points(mem: seq<Byte>, p: nat, i: nat, s: Text) {
    && p + 4 * i + 4 <= |mem|
    && WordAt(mem, p + 4 * i) > 0 && TextAt(mem, WordAt(mem, p + 4 * i), s)
  }

  lemma {:induction false} LaidPoints(mem: seq<Byte>, p: nat, c: nat, list: seq<Text>, i: nat)
    requires Laid(mem, p, c, list) && c > 0 && i < |list|
    ensures Points(mem, p, i, list[i])
    decreases |list|
  {
    var n := |list| - 1;
    if i < n {
      LaidPoints(mem, p, c, list[..n], i);
    }
  }

  lemma LaidIsVector(mem: seq<Byte>, p: nat, c: nat, list: seq<Text>)
    requires Laid(mem, p, c, list) && c > 0
    requires p + 4 * |list| + 4 <= |mem| && WordAt(mem, p + 4 * |list|) == 0
    ensures Vector(mem, p, list)
  {
    hide Laid, Points;
    forall i | 0 <= i < |list| ensures Points(mem, p, i, list[i]) {
      LaidPoints(mem, p, c, list, i);
    }
  }

  /** Memory holds one string at a place. */
  lemma TextUnique(mem: seq<Byte>, a: nat, s: Text, t: Text)
    requires TextAt(mem, a, s) && TextAt(mem, a, t)
    ensures s == t
  {
    forall k | a <= k < a + |s| ensures mem[k] != 0 { assert s[k - a] != 0; }
    forall k | a <= k < a + |t| ensures mem[k] != 0 { assert t[k - a] != 0; }
    assert |s| == |t|;
    forall i | 0 <= i < |s| ensures s[i] == t[i] { assert mem[a + i] == s[i]; }
  }

  /** A vector is one list of strings: what the program reads is determined. */
  lemma VectorUnique(mem: seq<Byte>, p: nat, s: seq<Text>, t: seq<Text>)
    requires Vector(mem, p, s) && Vector(mem, p, t)
    ensures s == t
  {
    hide TextAt;
    assert |s| < |t| ==> Points(mem, p, |s|, t[|s|]);
    assert |t| < |s| ==> Points(mem, p, |t|, s[|t|]);
    forall i | 0 <= i < |s| && i < |t| ensures s[i] == t[i] {
      assert Points(mem, p, i, s[i]) && Points(mem, p, i, t[i]);
      TextUnique(mem, WordAt(mem, p + 4 * i), s[i], t[i]);
    }
  }

  // ----- the image

  /** `ALIGN(n, 3)` */
  function AlignEight(n: nat): (r: nat)
    ensures n <= r < n + 8 && r % 8 == 0
  {
    (n + 7) / 8 * 8
  }

  /** The bytes of an image: the count, a pointer to each string and two NULLs, and the strings. */
  function ImageBytes(argv: seq<Text>, envp: seq<Text>): (n: nat) {
    4 + 4 * (|argv| + 1 + |envp| + 1) + |Joined(argv)| + |Joined(envp)|
  }

  /** The bytes set aside for an image: the least multiple of eight from 0x100 on that holds it. */
  function ImageSize(argv: seq<Text>, envp: seq<Text>): (n: nat)
    ensures n >= ImageBytes(argv, envp) == 4 + 4 * (|argv| + |envp| + 2) + Total(argv) + Total(envp)
    ensures n % 8 == 0 && n >= 0x100
    ensures forall m :: m % 8 == 0 && m >= 0x100 && m >= ImageBytes(argv, envp) ==> n <= m
  {
    TotalJoined(argv);
    TotalJoined(envp);
    var n := AlignEight(4 + 4 * (|argv| + |envp| + 2) + Total(argv) + Total(envp));
    if n < 0x100 then 0x100 else n
  }

  /** What a prepared exec knows about its strings. */
  datatype Prepared = Prepared(size: nat, nr: nat, argc: nat, argv: seq<Text>, envp: seq<Text>)

  ghost predicate Sized(a: Prepared) {
    && a.argc == |a.argv| && a.nr == |a.argv| + |a.envp| + 2
    && a.size == ImageSize(a.argv, a.envp) <= ARG_MAX
  }

  datatype Result = Ok(value: Prepared) | Err(errno: nat)

  /** The counting loop over one vector. */
  method Measure(list: seq<Text>) returns (count: nat, bytes: nat)
    ensures count == |list| && bytes == Total(list)
  {
    count, bytes := 0, 0;
    for i := 0 to |list|
      invariant count == i && bytes == Total(list[..i])
    {
      TotalPrefix(list, i);
      count, bytes := count + 1, bytes + |list[i]| + 1;
    }
    assert list[..|list|] == list;
  }

  /** `prepare_argv_and_envp` */
  method Prepare(argv: seq<Text>, envp: seq<Text>) returns (r: Result)
    ensures r.Err? <==> ImageBytes(argv, envp) > 4096
    ensures r.Err? ==> r.errno == E2BIG
    ensures r.Ok? ==> Sized(r.value) && r.value.argv == argv && r.value.envp == envp
  {
    ghost var least := ImageSize(argv, envp);
    var argc, a := Measure(argv);
    var n, e := Measure(envp);
    var nr := argc + n + 2;
    var size := AlignEight(4 + nr * 4 + (a + e));
    size := if size < 0x100 then 0x100 else size;
    if size > ARG_MAX {
      return Err(E2BIG);
    }
    r := Ok(Prepared(size, nr, argc, argv, envp));
  }

  /** The memory of the new program. */
  class Stack {
    var mem: seq<Byte>

    constructor (memory: seq<Byte>)
      ensures mem == memory
    {
      mem := memory;
    }

    method StoreWord(a: nat, w: Word)
      requires a + 4 <= |mem|
      modifies this
      ensures |mem| == |old(mem)| && WordAt(mem, a) == w
      ensures forall k :: 0 <= k < |mem| && !(a <= k < a + 4) ==> mem[k] == old(mem)[k]
    {
      WordBack(mem, a, w);
      mem := PutWord(mem, a, w);
    }

    /** The loop that copies a string and its NUL. */
    method CopyText(c: nat, s: Text)
      requires c + |s| + 1 <= |mem|
      modifies this
      ensures |mem| == |old(mem)| && TextAt(mem, c, s)
      ensures forall k :: 0 <= k < |mem| && !(c <= k < c + |s| + 1) ==> mem[k] == old(mem)[k]
    {
      var i := 0;
      while i < |s|
        invariant 0 <= i <= |s| && |mem| == |old(mem)|
        invariant forall k :: 0 <= k < i ==> mem[c + k] == s[k]
        invariant forall k :: 0 <= k < |mem| && !(c <= k < c + i) ==> mem[k] == old(mem)[k]
      {
        mem := mem[c + i := s[i]];
        i := i + 1;
      }
      mem := mem[c + |s| := 0];
    }

    /** The loop that copies one vector, its strings from `c` on and its pointers from `p` on. */
    method CopyVector(list: seq<Text>, p: nat, c: nat) returns (p': nat, c': nat)
      requires p + 4 * |list| + 4 <= c && c + Total(list) <= |mem| <= 0x1_0000_0000
      modifies this
      ensures p' == p + 4 * |list| + 4 && c' == c + Total(list)
      ensures SameBut(old(mem), mem, p, p', c, c')
      ensures Laid(mem, p, c, list) && WordAt(mem, p + 4 * |list|) == 0
    {
      p', c' := p, c;
      ghost var was := mem;
      for i := 0 to |list|
        invariant p' == p + 4 * i && c' == c + Total(list[..i]) && Total(list[..i]) <= Total(list)
        invariant |mem| == |was| && SameBut(was, mem, p, p', c, c')
        invariant Laid(mem, p, c, list[..i])
      {
        hide Laid, WordAt, TextAt, SameBut;
        TotalPrefix(list, i);
        ghost var before := mem;
        StoreWord(p', c');
        ghost var pointed := mem;
        CopyText(c', list[i]);
        ExtendLaid(before, pointed, mem, p, c, list, i);
        SameButMore(was, before, pointed, mem, p, p', c, c', |list[i]| + 1);
        p', c' := p' + 4, c' + |list[i]| + 1;
      }
      hide Laid, WordAt;
      assert list[..|list|] == list;
      ghost var before := mem;
      StoreWord(p', 0);
      LaidFrame(before, mem, p, c, list);
      p' := p' + 4;
    }

    /** `copy_argv_and_envp` */
    method Copy(a: Prepared, ustack: nat) returns (sp: nat)
      requires Sized(a) && a.size <= ustack <= |mem| <= 0x1_0000_0000
      modifies this
      ensures sp == ustack - a.size
      ensures |mem| == |old(mem)|
      ensures forall k :: 0 <= k < |mem| && !(ustack - a.size <= k < ustack) ==> mem[k] == old(mem)[k]
      ensures Image(mem, sp, a.argv, a.envp)
    {
      hide Laid, Total, ImageSize, WordAt;
      sp := ustack - a.size;
      StoreWord(sp, a.argc);
      var p, c := sp + 4, sp + 4 * a.nr + 4;
      ghost var counted := mem;
      p, c := CopyVector(a.argv, p, c);
      WordFrame(counted, mem, sp);
      ghost var first := mem;
      p, c := CopyVector(a.envp, p, c);
      BothLaid(first, mem, sp, a.argv, a.envp);
    }

    /**
     * An exec that fits and the start of the program it loads: the program is
     * given the argument count, the arguments and the environment of the exec.
     */
    method Exec(argv: seq<Text>, envp: seq<Text>, ustack: nat) returns (ok: bool, argc: int, args: nat, environ: nat)
      requires ARG_MAX <= ustack <= |mem| <= 0x1_0000_0000
      modifies this
      ensures ok <==> ImageBytes(argv, envp) <= 4096
      ensures ok ==> argc == |argv| && Vector(mem, args, argv) && Vector(mem, environ, envp)
    {
      hide Vector, ImageSize, ImageBytes, WordAt;
      ok, argc, args, environ := false, 0, 0, 0;
      var r := Prepare(argv, envp);
      if r.Ok? {
        ok := true;
        var sp := Copy(r.value, ustack);
        argc, args, environ := CStart(mem, sp, argv, envp);
      }
    }
  }

  /** The second vector leaves the first alone. */
  lemma BothLaid(first: seq<Byte>, mem: seq<Byte>, sp: nat, argv: seq<Text>, envp: seq<Text>)
    requires |mem| == |first| && sp + 4 * (|argv| + |envp| + 3) + Total(argv) + Total(envp) <= |mem|
    requires var p, c := sp + 4, sp + 4 * (|argv| + |envp| + 3);
             var q, d := p + 4 * |argv| + 4, c + Total(argv);
             && Laid(first, p, c, argv) && WordAt(first, p + 4 * |argv|) == 0
             && SameBut(first, mem, q, q + 4 * |envp| + 4, d, d + Total(envp))
             && Laid(mem, q, d, envp) && WordAt(mem, q + 4 * |envp|) == 0
             && WordAt(first, sp) == |argv|
    ensures Image(mem, sp, argv, envp)
  {
    hide Laid, Total, WordAt, Vector;
    var p, c := sp + 4, sp + 4 * (|argv| + |envp| + 3);
    WordFrame(first, mem, sp);
    WordFrame(first, mem, p + 4 * |argv|);
    LaidFrame(first, mem, p, c, argv);
    LaidIsVector(mem, p, c, argv);
    LaidIsVector(mem, p + 4 * |argv| + 4, c + Total(argv), envp);
  }

  /** `__cstart` */
  method CStart(mem: seq<Byte>, stack: nat, ghost argv: seq<Text>, ghost envp: seq<Text>)
    returns (argc: int, args: nat, environ: nat)
    requires Image(mem, stack, argv, envp)
    ensures argc == |argv| && Vector(mem, args, argv) && Vector(mem, environ, envp)
  {
    argc := WordAt(mem, stack);
    args := stack + 4;
    environ := args + 4 * (argc + 1);
  }

  /** The stack a program starts with: the count, the arguments, the environment. */
  ghost predicate Image(mem: seq<Byte>, sp: nat, argv: seq<Text>, envp: seq<Text>) {
    && sp + 4 * (|argv| + |envp| + 3) <= |mem| && WordAt(mem, sp) == |argv|
    && Vector(mem, sp + 4, argv) && Vector(mem, sp + 4 * (|argv| + 2), envp)
  }
}
