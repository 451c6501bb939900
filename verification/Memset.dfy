/** lib/string.c: the wide-store memset, which bytes it writes, and when those are
    exactly the bytes a byte-by-byte fill would write. */
module Memset {
  import opened Bits
  import opened Translation
  import opened MapSteps

  /** Bytes of memory; an address never written reads as anything, here 0. */
  type Bytes = map<int, int>

  function Peek(m: Bytes, at: int): int { if at in m then m[at] else 0 }

  /** `m1` is `m0` with byte b at every address of [a, a + n). */
  ghost predicate Filled(m0: Bytes, m1: Bytes, a: int, n: int, b: int) {
    forall at :: Peek(m1, at) == if a <= at < a + n then b else Peek(m0, at)
  }

  lemma FilledMore(m0: Bytes, m1: Bytes, a: int, n: nat, b: int)
    requires Filled(m0, m1, a, n, b)
    ensures Filled(m0, m1[a + n := b], a, n + 1, b)
  {
    forall at ensures Peek(m1[a + n := b], at) == if a <= at < a + n + 1 then b else Peek(m0, at) {
      assert Peek(m1, at) == if a <= at < a + n then b else Peek(m0, at);
    }
  }

  // ----- widths -----

  /** unsigned int arithmetic */
  function U32(x: int): int { x % 0x1_0000_0000 }

  /** an int holding the 32-bit value x */
  function S32(x: int): int {
    if x % 0x1_0000_0000 < 0x8000_0000 then x % 0x1_0000_0000 else x % 0x1_0000_0000 - 0x1_0000_0000
  }

  // ----- the data word -----

  function Ones(i: nat): nat { if i == 0 then 0 else 0x100 * Ones(i - 1) + 1 }

  lemma {:induction false} OnesGrow(i: nat)
    ensures Ones(i + 1) == Ones(i) + Pow2(8 * i)
    ensures 255 * Ones(i) + 1 == Pow2(8 * i)
  {
    if i > 0 {
      OnesGrow(i - 1);
      EightBits(i - 1);
    }
  }

  lemma EightBits(i: nat)
    ensures Pow2(8 * (i + 1)) == 0x100 * Pow2(8 * i)
  {
    var k := 8 * i;
    assert Pow2(k + 8) == 2 * Pow2(k + 7) && Pow2(k + 7) == 2 * Pow2(k + 6) && Pow2(k + 6) == 2 * Pow2(k + 5);
    assert Pow2(k + 5) == 2 * Pow2(k + 4) && Pow2(k + 4) == 2 * Pow2(k + 3) && Pow2(k + 3) == 2 * Pow2(k + 2);
    assert Pow2(k + 2) == 2 * Pow2(k + 1) && Pow2(k + 1) == 2 * Pow2(k);
  }

  /** One more byte ORed in above the i bytes already there. */
  lemma OrByte(b: nat, i: nat)
    requires b < 0x100
    ensures Or(b * Ones(i), b * Pow2(8 * i)) == b * Ones(i + 1)
  {
    hide Or, Pow2, Ones;
    OnesGrow(i);
    var p, y := Pow2(8 * i), b * Ones(i);
    assert y < p by { ByteTimesOnes(b, Ones(i), p); }
    OrSplit(0, y, b, 0, 8 * i);
    OrZero(b, y);
    Distribute(b, Ones(i), p);
  }

  lemma ByteTimesOnes(b: nat, o: nat, p: nat)
    requires b < 0x100 && 255 * o + 1 == p
    ensures b * o < p
  {
    assert b * o <= 255 * o;
  }

  lemma Distribute(b: nat, o: nat, p: nat)
    ensures b * (o + p) == b * o + b * p && 0 * p == 0
  {
  }

  lemma OrZero(b: nat, y: nat)
    ensures Or(0, b) == b && Or(y, 0) == y
  {
  }

  /** Byte k of a word, counted from the low end. */
  function ByteOf(data: nat, k: nat): nat { Shr(data, 8 * k) % 0x100 }

  lemma {:induction false} OnesSplit(j: nat, k: nat)
    ensures Ones(j + k) == Ones(j) * Pow2(8 * k) + Ones(k)
  {
    hide Pow2;
    if k == 0 {
      assert Pow2(0) == 1 by { PowZero(); }
    } else {
      OnesSplit(j, k - 1);
      EightBits(k - 1);
      Shuffle(Ones(j), Pow2(8 * (k - 1)));
    }
  }

  lemma PowZero()
    ensures Pow2(0) == 1
  {
  }

  lemma Shuffle(x: nat, p: nat)
    ensures x * (0x100 * p) == 0x100 * (x * p)
  {
  }

  /** Every byte of the repeated word is the byte. */
  lemma BytesOfRepeat(b: nat, k: nat)
    requires b < 0x100 && k < 8
    ensures ByteOf(b * Ones(8), k) == b
  {
    hide Pow2, Shr, Ones;
    OnesSplit(8 - k, k);
    OnesGrow(k);
    ByteTimesOnes(b, Ones(k), Pow2(8 * k));
    Regroup(b, Ones(8 - k), Pow2(8 * k), Ones(k));
    ShrSplit(b * Ones(8 - k), b * Ones(k), 8 * k);
    LowestByte(b, 7 - k);
  }

  lemma LowestByte(b: nat, i: nat)
    requires b < 0x100
    ensures b * Ones(i + 1) % 0x100 == b
  {
    var x := Ones(i);
    Regroup(b, x, 0x100, 1);
    Quotient(b * Ones(i + 1), 0x100, b * x, b);
  }

  lemma Regroup(b: nat, x: nat, p: nat, y: nat)
    ensures b * (x * p + y) == b * x * p + b * y
  {
  }

  class Ram {
    var bytes: Bytes

    /** `while (count--) *xs++ = c;` */
    method Memset1Bytes(s: int, b: int, count: nat)
      modifies this
      ensures Filled(old(bytes), bytes, s, count, b)
    {
      var xs, left := s, count;
      while left != 0
        invariant 0 <= left <= count && xs == s + count - left
        invariant Filled(old(bytes), bytes, s, xs - s, b)
      {
        FilledMore(old(bytes), bytes, s, xs - s, b);
        bytes := bytes[xs := b];
        xs := xs + 1;
        left := left - 1;
      }
    }

    /** The stp loop: 16 bytes a turn, until the 32-bit counter meets `count`. */
    method Memset16Bytes(p0: int, data: nat, b: int, count: nat)
      requires 0 < count < 0x1_0000_0000 && count % 16 == 0
      requires forall k :: 0 <= k < 8 ==> ByteOf(data, k) == b
      modifies this
      ensures Filled(old(bytes), bytes, p0, count, b)
    {
      var p, i := p0, 0;
      while true
        invariant 0 <= i < count && i % 16 == 0 && p == p0 + i
        invariant Filled(old(bytes), bytes, p0, i, b)
        decreases count - i
      {
        StoreWord(p, data, b);
        StoreWord(p + 8, data, b);
        p := p + 16;
        i := i + 16;
        if i == count { break; }
      }
    }

    /** A little-endian 64-bit store. */
    method StoreWord(at: int, data: nat, ghost b: int)
      requires forall k :: 0 <= k < 8 ==> ByteOf(data, k) == b
      modifies this
      ensures Filled(old(bytes), bytes, at, 8, b)
    {
      hide ByteOf;
      bytes := bytes[at := ByteOf(data, 0)][at + 1 := ByteOf(data, 1)]
                    [at + 2 := ByteOf(data, 2)][at + 3 := ByteOf(data, 3)]
                    [at + 4 := ByteOf(data, 4)][at + 5 := ByteOf(data, 5)]
                    [at + 6 := ByteOf(data, 6)][at + 7 := ByteOf(data, 7)];
    }

    /** The byte c & 0xff in every byte of a word. */
    method DataWord(c: int) returns (data: nat)
      ensures forall k :: 0 <= k < 8 ==> ByteOf(data, k) == c % 0x100
    {
      hide Or, Ones, ByteOf;
      data := 0;
      assert Ones(0) == 0 by { OnesZero(); }
      for i := 0 to 8
        invariant data == c % 0x100 * Ones(i)
      {
        OrByte(c % 0x100, i);
        data := Or(data, c % 0x100 * Pow2(8 * i));
      }
      forall k | 0 <= k < 8 ensures ByteOf(data, k) == c % 0x100 {
        BytesOfRepeat(c % 0x100, k);
      }
    }

    /** The wide stores and the tail, once the start counts as aligned. */
    method MemsetBody(p: int, data: nat, b: int, left: nat)
      requires left < 0x1_0000_0000 && forall k :: 0 <= k < 8 ==> ByteOf(data, k) == b
      modifies this
      ensures forall at :: Peek(bytes, at) == if TouchedBody(p, left, at) then b else Peek(old(bytes), at)
    {
      hide ByteOf, S32, Peek;
      if left > 16 {
        var n := left / 16;
        var tail := left % 16;
        DivisionParts(left, 16);
        Quotient(16 * n, 16, n, 0);
        Memset16Bytes(p, data, b, U32(16 * n));
        if tail != 0 {
          Memset1Bytes(p + S32(16 * n), b, tail);
        }
      }
    }

    method Memset(s: int, c: int, count: nat)
      requires count < 0x1_0000_0000
      modifies this
      ensures forall at :: Peek(bytes, at) == if Touched(s, count, at) then c % 0x100 else Peek(old(bytes), at)
    {
      hide ByteOf, TouchedBody, Peek;
      var p, left := s, count;
      var data := DataWord(c);
      if s % 16 != 0 {
        var size := s % 16;
        Memset1Bytes(p, c % 0x100, size);
        p := p + size;
        left := U32(count - size);
      }
      MemsetBody(p, data, c % 0x100, left);
    }
  }

  lemma OnesZero()
    ensures Ones(0) == 0
  {
  }

  /** What is left after the leading bytes, as an unsigned int. */
  function Left(s: int, count: nat): nat { U32(count - s % 16) }

  predicate TouchedBody(p: int, left: nat, at: int) {
    || (left > 16 && p <= at < p + left / 16 * 16)
    || (left > 16 && p + S32(left / 16 * 16) <= at < p + S32(left / 16 * 16) + left % 16)
  }

  /** Is the byte at `at` written by memset(s, c, count)? */
  predicate Touched(s: int, count: nat, at: int) {
    var off := s % 16;
    s <= at < s + off || TouchedBody(s + off, Left(s, count), at)
  }

  /** The bytes written, case by case, from a start `off` bytes above a multiple of 16: only the
      leading ones, when at most 16 more are asked for; all of them; from 2 GB on, the tail
      4 GB too low; and almost 4 GB, when fewer than the leading ones are asked for. */
  lemma TouchedCases(s: int, off: nat, count: nat, at: int)
    requires s % 16 == off && count < 0x1_0000_0000
    ensures off <= count <= off + 16 ==> (Touched(s, count, at) <==> s <= at < s + off)
    ensures off + 16 < count < off + 0x8000_0000 ==> (Touched(s, count, at) <==> s <= at < s + count)
    ensures off + 0x8000_0000 <= count ==>
              var wide := s + off + (count - off) / 16 * 16;
              Touched(s, count, at) <==>
                s <= at < wide || wide - 0x1_0000_0000 <= at < s + count - 0x1_0000_0000
    ensures count < off ==> (Touched(s, count, at) <==> s + off - 16 <= at < s + off + 0xFFFF_FFF0)
  {
    hide TouchedBody, S32;
    var left := if count < off then 0x1_0000_0000 + count - off else count - off;
    if count < off { Quotient(left, 16, 0xFFF_FFFF, 16 + count - off); }
    BodyCase(s + off, left, left / 16, left % 16, at);
  }

  lemma BodyCase(p: int, left: nat, n: nat, tail: nat, at: int)
    requires left == 16 * n + tail && tail < 16 && n == left / 16 && tail == left % 16 && left < 0x1_0000_0000
    ensures var low := p + 16 * n - if 16 * n < 0x8000_0000 then 0 else 0x1_0000_0000;
            TouchedBody(p, left, at) <==> left > 16 && (p <= at < p + 16 * n || low <= at < low + tail)
  {
  }

  /** Exactly when memset writes the bytes it was asked to, and no others. */
  predicate Exact(s: int, count: nat) {
    || count == s % 16
    || (count > s % 16 + 16 && (count - s % 16 < 0x8000_0000 || (count - s % 16) % 16 == 0))
  }

  /** memset is the byte-by-byte fill if and only if `Exact`: a 16-byte-aligned start needs
      count 0 or above 16, and 2 GB or more only without a tail. */
  lemma FillsExactlyIff(s: int, count: nat)
    requires count < 0x1_0000_0000
    ensures (forall at :: Touched(s, count, at) <==> s <= at < s + count) <==> Exact(s, count)
  {
    var off, left := s % 16, Left(s, count);
    if Exact(s, count) {
      forall at ensures Touched(s, count, at) <==> s <= at < s + count {
      }
    } else if count < off {
      assert Touched(s, count, s + count);
    } else if count <= off + 16 {
      assert !Touched(s, count, s + count - 1);
    } else {
      assert left == count - off;
      assert Touched(s, count, s + off + S32(left / 16 * 16));
    }
  }

  /** From an aligned start, no count from 1 to 16 is met: nothing at all is written. */
  lemma ShortFillWritesNothing(s: int, count: nat, at: int)
    requires s % 16 == 0 && count <= 16
    ensures !Touched(s, count, at) && (count > 0 ==> !Exact(s, count))
  {
    assert Left(s, count) == count;
  }

  /** The callers: a page table, a new task and the two parts of its context. */
  lemma CallersExact(page: nat)
    requires page % 0x1000 == 0
    ensures Exact(page, 0x1000)            // early_pgtable_alloc
    ensures Exact(page, 168)               // struct task_struct
    ensures Exact(page + 0x1000 - 320, 320) // struct pt_regs, at the top of the page
    ensures Exact(page + 16, 104)          // struct cpu_context
  {
    var q := page / 0x1000;
    assert page == (q * 256) * 16;
  }

  // ----- words of cleared memory -----

  function WordAt(m: Bytes, at: int): int {
    Peek(m, at) + 0x100 * (Peek(m, at + 1) + 0x100 * (Peek(m, at + 2) + 0x100 * (Peek(m, at + 3)
      + 0x100 * (Peek(m, at + 4) + 0x100 * (Peek(m, at + 5) + 0x100 * (Peek(m, at + 6) + 0x100 * Peek(m, at + 7)))))))
  }

  /** A page cleared by memset reads as 512 zero words, and every other byte is as it was. */
  lemma ClearedPage(m0: Bytes, m1: Bytes, page: nat)
    requires page % 0x1000 == 0
    requires forall at :: Peek(m1, at) == if Touched(page, 0x1000, at) then 0 else Peek(m0, at)
    ensures forall i :: 0 <= i < 512 ==> WordAt(m1, page + 8 * i) == 0
    ensures forall at :: !(page <= at < page + 0x1000) ==> Peek(m1, at) == Peek(m0, at)
  {
    CallersExact(page);
    FillsExactlyIff(page, 0x1000);
    hide Touched, Peek;
    forall i | 0 <= i < 512 ensures WordAt(m1, page + 8 * i) == 0 {
      assert forall k :: page <= k < page + 0x1000 ==> Peek(m1, k) == 0;
    }
  }

  /** A word memory holds the bytes, eight to each multiple of 8. */
  ghost predicate Holds(w: Memory, m: Bytes) {
    forall at: nat :: Load(w, at) == if at % 8 == 0 then WordAt(m, at) else 0
  }

  /** memset of a page, seen as words, is the clearing the page-table builder relies on. */
  lemma ClearedWords(m0: Bytes, m1: Bytes, w0: Memory, w1: Memory, page: nat)
    requires page % 0x1000 == 0 && Holds(w0, m0) && Holds(w1, m1)
    requires forall at :: Peek(m1, at) == if Touched(page, 0x1000, at) then 0 else Peek(m0, at)
    ensures Cleared(w0, w1, page)
  {
    ClearedPage(m0, m1, page);
    hide WordAt, Peek, Touched, Load;
    forall i | 0 <= i < 512 ensures Load(w1, page + 8 * i) == 0 {
      assert (page + 8 * i) % 8 == 0 by { WordsOfPage(page, i); }
      assert WordAt(m1, page + 8 * i) == 0;
    }
    forall at: nat | !(page <= at < page + 0x1000) ensures Load(w1, at) == Load(w0, at) {
      if at % 8 == 0 { WordElsewhere(m0, m1, page, at); }
    }
  }

  lemma WordsOfPage(page: nat, i: nat)
    requires page % 0x1000 == 0
    ensures (page + 8 * i) % 8 == 0
  {
    var q := page / 0x1000;
    assert page + 8 * i == 8 * (512 * q + i);
  }

  lemma WordElsewhere(m0: Bytes, m1: Bytes, page: nat, at: nat)
    requires page % 0x1000 == 0 && at % 8 == 0 && !(page <= at < page + 0x1000)
    requires forall b :: !(page <= b < page + 0x1000) ==> Peek(m1, b) == Peek(m0, b)
    ensures WordAt(m1, at) == WordAt(m0, at)
  {
    hide Peek;
    if at < page { WholeWord(page, at); }
  }

  lemma WholeWord(page: nat, at: nat)
    requires page % 0x1000 == 0 && at % 8 == 0 && at < page
    ensures at + 7 < page
  {
    var q, k := page / 0x1000, at / 8;
    assert at == 8 * k && page == 8 * (512 * q);
  }
}
