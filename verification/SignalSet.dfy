/** Sets of signals in two 32-bit words. */
module SignalSet {
  import opened Blocks

  const NSIG := 65

  datatype SigSet = SigSet(low: Word, high: Word)

  // ----- words

  /** `x & y` */
  function And(x: nat, y: nat): (r: nat)
    ensures r <= x
  {
    if x == 0 then 0 else 2 * And(x / 2, y / 2) + (if x % 2 == 1 then y % 2 else 0)
  }

  /** `x | y` on `n`-bit words */
  function Or(x: nat, y: nat, n: nat): (r: nat)
    ensures r < Width(n)
    decreases n
  {
    if n == 0 then 0 else 2 * Or(x / 2, y / 2, n - 1) + (if x % 2 == 1 then 1 else y % 2)
  }

  /** `~x` on `n`-bit words */
  function Not(x: nat, n: nat): (r: nat)
    ensures r < Width(n)
    decreases n
  {
    if n == 0 then 0 else 2 * Not(x / 2, n - 1) + 1 - x % 2
  }

  /** `__builtin_ffs`: one more than the position of the lowest set bit. */
  function FindFirst(x: nat): (r: nat) {
    if x == 0 then 0 else if x % 2 == 1 then 1 else 1 + FindFirst(x / 2)
  }

  lemma {:induction false} ZeroBits(b: nat)
    ensures !TestBit(0, b)
    decreases b
  {
    if b > 0 { ZeroBits(b - 1); }
  }

  lemma {:induction false} AndBit(x: nat, y: nat, b: nat)
    ensures TestBit(And(x, y), b) == (TestBit(x, b) && TestBit(y, b))
    decreases b
  {
    if x == 0 {
      ZeroBits(b);
    } else {
      var h := And(x / 2, y / 2);
      assert And(x, y) / 2 == h && (And(x, y) % 2 == 1 <==> x % 2 == 1 && y % 2 == 1);
      if b > 0 { AndBit(x / 2, y / 2, b - 1); }
    }
  }

  lemma {:induction false} OrBit(x: nat, y: nat, n: nat, b: nat)
    requires b < n
    ensures TestBit(Or(x, y, n), b) == (TestBit(x, b) || TestBit(y, b))
    decreases n
  {
    var h := Or(x / 2, y / 2, n - 1);
    assert Or(x, y, n) / 2 == h && (Or(x, y, n) % 2 == 1 <==> x % 2 == 1 || y % 2 == 1);
    if b > 0 { OrBit(x / 2, y / 2, n - 1, b - 1); }
  }

  lemma {:induction false} NotBit(x: nat, n: nat, b: nat)
    requires b < n
    ensures TestBit(Not(x, n), b) == !TestBit(x, b)
    decreases n
  {
    var h := Not(x / 2, n - 1);
    assert Not(x, n) / 2 == h && (Not(x, n) % 2 == 1 <==> x % 2 == 0);
    if b > 0 { NotBit(x / 2, n - 1, b - 1); }
  }

  lemma {:induction false} FirstIsLeast(x: nat, n: nat)
    requires x < Width(n)
    ensures FindFirst(x) <= n
    ensures FindFirst(x) == 0 <==> x == 0
    ensures FindFirst(x) > 0 ==> TestBit(x, FindFirst(x) - 1)
    ensures forall b :: 0 <= b < FindFirst(x) - 1 ==> !TestBit(x, b)
    decreases n
  {
    if x != 0 && x % 2 == 0 {
      FirstIsLeast(x / 2, n - 1);
      forall b | 0 <= b < FindFirst(x) - 1 ensures !TestBit(x, b) {
        if b > 0 { assert !TestBit(x / 2, b - 1); }
      }
    }
  }

  lemma WordWidth()
    ensures Width(32) == 0x1_0000_0000
  {
    assert Width(16) == 0x1_0000 by {
      assert Width(8) == 2 * Width(7) == 4 * Width(6) == 8 * Width(5) == 16 * Width(4);
      assert Width(16) == 2 * Width(15) == 4 * Width(14) == 8 * Width(13) == 16 * Width(12);
      assert Width(12) == 2 * Width(11) == 4 * Width(10) == 8 * Width(9) == 16 * Width(8);
    }
    assert Width(24) == 2 * Width(23) == 4 * Width(22) == 8 * Width(21) == 16 * Width(20);
    assert Width(20) == 2 * Width(19) == 4 * Width(18) == 8 * Width(17) == 16 * Width(16);
    assert Width(32) == 2 * Width(31) == 4 * Width(30) == 8 * Width(29) == 16 * Width(28);
    assert Width(28) == 2 * Width(27) == 4 * Width(26) == 8 * Width(25) == 16 * Width(24);
  }

  function OrWord(x: Word, y: Word): (r: Word) {
    WordWidth();
    Or(x, y, 32)
  }

  function NotWord(x: Word): (r: Word) {
    WordWidth();
    Not(x, 32)
  }

  function SetInWord(x: Word, b: nat): (r: Word)
    requires b < 32
  {
    WordWidth();
    BitInWidth(x, b, 32);
    SetBit(x, b)
  }

  function ClearInWord(x: Word, b: nat): (r: Word)
    requires b < 32
  {
    WordWidth();
    BitInWidth(x, b, 32);
    ClearBit(x, b)
  }

  // ----- sets

  predicate InRange(sig: int) {
    1 <= sig < NSIG
  }

  /** `sigismember` */
  predicate Has(s: SigSet, sig: int)
    requires InRange(sig)
  {
    if sig > 32 then TestBit(s.high, sig - 33) else TestBit(s.low, sig - 1)
  }

  /** `sigaddset` */
  function Add(s: SigSet, sig: int): (r: SigSet) {
    if !InRange(sig) then s
    else if sig > 32 then s.(high := SetInWord(s.high, sig - 33))
    else s.(low := SetInWord(s.low, sig - 1))
  }

  /** `sigdelset` */
  function Del(s: SigSet, sig: int): (r: SigSet) {
    if !InRange(sig) then s
    else if sig > 32 then s.(high := ClearInWord(s.high, sig - 33))
    else s.(low := ClearInWord(s.low, sig - 1))
  }

  /** `signotset` */
  function Complement(s: SigSet): (r: SigSet) {
    SigSet(NotWord(s.low), NotWord(s.high))
  }

  /** `sigorset` */
  function Union(s: SigSet, t: SigSet): (r: SigSet) {
    SigSet(OrWord(s.low, t.low), OrWord(s.high, t.high))
  }

  /** `sigandset` */
  function Meet(s: SigSet, t: SigSet): (r: SigSet) {
    SigSet(And(s.low, t.low), And(s.high, t.high))
  }

  /** `sigpeekset` */
  function Peek(s: SigSet): (sig: nat) {
    var low, high := FindFirst(s.low), FindFirst(s.high);
    if low > 0 then low else if high > 0 then high + 32 else 0
  }

  /** Adding and removing one signal changes the membership of that signal alone. */
  lemma AddDelHas(s: SigSet, sig: int, k: int)
    requires InRange(k)
    ensures Has(Add(s, sig), k) <==> k == sig || Has(s, k)
    ensures Has(Del(s, sig), k) <==> k != sig && Has(s, k)
  {
    if InRange(sig) {
      if sig > 32 && k > 32 { BitAfter(s.high, sig - 33, k - 33); }
      if sig <= 32 && k <= 32 { BitAfter(s.low, sig - 1, k - 1); }
    }
  }

  lemma {:induction false} WidthUp(b: nat)
    ensures Width(b + 32) == 0x1_0000_0000 * Width(b)
    decreases b
  {
    if b == 0 { WordWidth(); } else { WidthUp(b - 1); }
  }

  /** A set is a number of 64 bits, the low word first, and signal `sig` is worth 2 to the power of `sig - 1`. */
  lemma AsNumber(s: SigSet, sig: int)
    requires InRange(sig)
    ensures var number := (x: SigSet) => x.low + 0x1_0000_0000 * x.high;
            && (!Has(s, sig) ==> number(Add(s, sig)) == number(s) + Width(sig - 1))
            && (Has(s, sig) ==> number(Del(s, sig)) == number(s) - Width(sig - 1))
  {
    if sig > 32 {
      BitWorth(s.high, sig - 33);
      WidthUp(sig - 33);
    } else {
      BitWorth(s.low, sig - 1);
    }
  }

  /** The word operations are complement, union and intersection. */
  lemma SetAlgebra(s: SigSet, t: SigSet, k: int)
    requires InRange(k)
    ensures Has(Complement(s), k) <==> !Has(s, k)
    ensures Has(Union(s, t), k) <==> Has(s, k) || Has(t, k)
    ensures Has(Meet(s, t), k) <==> Has(s, k) && Has(t, k)
  {
    hide And, Or, Not, TestBit, Width;
    if k > 32 {
      NotBit(s.high, 32, k - 33);
      OrBit(s.high, t.high, 32, k - 33);
      AndBit(s.high, t.high, k - 33);
    } else {
      NotBit(s.low, 32, k - 1);
      OrBit(s.low, t.low, 32, k - 1);
      AndBit(s.low, t.low, k - 1);
    }
  }

  /** `sig` is the least member of `s`. */
  ghost predicate Least(s: SigSet, sig: int) {
    InRange(sig) && Has(s, sig) && forall k :: 1 <= k < sig ==> !Has(s, k)
  }

  /** Peeking finds the least member, and finds nothing only in the empty set. */
  lemma PeekIsLeast(s: SigSet)
    ensures Peek(s) == 0 ==> forall k :: InRange(k) ==> !Has(s, k)
    ensures Peek(s) != 0 ==> Least(s, Peek(s))
  {
    hide FindFirst, TestBit, Width;
    WordWidth();
    FirstIsLeast(s.low, 32);
    FirstIsLeast(s.high, 32);
    forall k | InRange(k) && (Peek(s) == 0 || k < Peek(s))
      ensures !Has(s, k)
    {
      if k <= 32 {
        if s.low == 0 { ZeroBits(k - 1); }
      } else if s.high == 0 {
        ZeroBits(k - 33);
      }
    }
  }
}
