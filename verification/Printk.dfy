/** lib/printk.c: the integer formatter and the decimal scanner. */
module Printk {
  import opened Bits

  /** The flag bits of `type`. */
  datatype Flags = Flags(zeroPad: bool, sign: bool, plus: bool, space: bool, left: bool, special: bool, small: bool)

  const SIGN_BIT: nat := 0x8000_0000_0000_0000

  // ----- digits -----

  function DigitChar(d: nat, small: bool): char
    requires d < 36
  {
    if d < 10 then '0' + d as char else (if small then 'a' else 'A') + (d - 10) as char
  }

  function DigitValue(c: char): int {
    if '0' <= c <= '9' then c as int - '0' as int
    else if 'a' <= c <= 'z' then c as int - 'a' as int + 10
    else c as int - 'A' as int + 10
  }

  /** What the digits of s denote, most significant first. */
  function Value(s: string, base: nat): int {
    if s == [] then 0 else Value(s[..|s| - 1], base) * base + DigitValue(s[|s| - 1])
  }

  /** Unsigned division and remainder, the two halves of do_div. */
  function Quot(n: nat, base: nat): (q: nat)
    requires base >= 2
  {
    n / base
  }

  function Rem(n: nat, base: nat): (d: nat)
    requires base >= 2
    ensures d < base
  {
    n % base
  }

  /** The digits of n from the least significant; none for 0. */
  function Backward(n: nat, base: nat, small: bool): string
    requires 2 <= base <= 36
  {
    if n == 0 then [] else Smaller(n, base); [DigitChar(Rem(n, base), small)] + Backward(Quot(n, base), base, small)
  }

  /** tmp once the conversion is over. */
  function Converted(n: nat, base: nat, small: bool): string
    requires 2 <= base <= 36
  {
    if n == 0 then ['0'] else Backward(n, base, small)
  }

  function Reversed(s: string): (r: string)
    ensures |r| == |s| && forall k :: 0 <= k < |s| ==> r[k] == s[|s| - 1 - k]
  {
    seq(|s|, k requires 0 <= k < |s| => s[|s| - 1 - k])
  }

  function Digits(n: nat, base: nat, small: bool): string
    requires 2 <= base <= 36
  {
    Reversed(Converted(n, base, small))
  }

  lemma Smaller(n: nat, base: nat)
    requires n > 0 && base >= 2
    ensures Quot(n, base) < n && Quot(n, base) <= n / 2
  {
    var q := n / base;
    Product(q, base);
  }

  lemma Product(q: nat, base: nat)
    requires base >= 2
    ensures q * base >= q * 2
  {
  }

  lemma DivMod(n: nat, base: nat)
    requires base >= 2
    ensures n == Quot(n, base) * base + Rem(n, base)
  {
  }

  lemma ValueStep(d: nat, rest: string, base: nat, small: bool)
    requires d < 36
    ensures Value(Reversed([DigitChar(d, small)] + rest), base) == Value(Reversed(rest), base) * base + d
  {
    var r := Reversed([DigitChar(d, small)] + rest);
    assert r[..|r| - 1] == Reversed(rest);
  }

  lemma {:induction false} BackwardValue(n: nat, base: nat, small: bool)
    requires 2 <= base <= 36
    ensures Value(Reversed(Backward(n, base, small)), base) == n
  {
    if n > 0 {
      hide Value, DigitChar, Reversed, Quot, Rem;
      Smaller(n, base);
      DivMod(n, base);
      BackwardValue(Quot(n, base), base, small);
      ValueStep(Rem(n, base), Backward(Quot(n, base), base, small), base, small);
    } else {
      assert Reversed(Backward(0, base, small)) == [];
    }
  }

  /** The digits denote the number. */
  lemma DigitsValue(n: nat, base: nat, small: bool)
    requires 2 <= base <= 36
    ensures Value(Digits(n, base, small), base) == n
  {
    BackwardValue(n, base, small);
    if n == 0 {
      var r := Digits(0, base, small);
      assert r == ['0'] && r[..0] == [];
    }
  }

  /** A number below 2^k has at most k digits in any base. */
  lemma {:induction false} BackwardLength(n: nat, base: nat, small: bool, k: nat)
    requires 2 <= base <= 36 && n < Pow2(k)
    ensures |Backward(n, base, small)| <= k
    decreases k
  {
    if n > 0 {
      hide DigitChar, Quot, Rem;
      Smaller(n, base);
      BackwardLength(Quot(n, base), base, small, k - 1);
    }
  }

  /** Its most significant digit is not 0. */
  lemma {:induction false} LeadingDigit(n: nat, base: nat, small: bool)
    requires 2 <= base <= 36 && n > 0
    ensures var b := Backward(n, base, small); |b| > 0 && b[|b| - 1] != '0'
  {
    hide Quot, Rem;
    Smaller(n, base);
    DivMod(n, base);
    if Quot(n, base) > 0 { LeadingDigit(Quot(n, base), base, small); }
  }

  lemma DigitsShape(n: Word, base: nat, small: bool)
    requires 2 <= base <= 36
    ensures 1 <= |Digits(n, base, small)| <= 64
    ensures n > 0 ==> Digits(n, base, small)[0] != '0'
    ensures n == 0 ==> Digits(n, base, small) == "0"
  {
    assert Pow2(64) == 0x1_0000_0000_0000_0000 by { Powers(); }
    BackwardLength(n, base, small, 64);
    if n > 0 { LeadingDigit(n, base, small); }
  }

  // ----- the text -----

  function Repeat(c: char, n: int): (s: string)
    ensures |s| == if n > 0 then n else 0
    ensures forall k :: 0 <= k < |s| ==> s[k] == c
  {
    seq(if n > 0 then n else 0, _ => c)
  }

  function Max(a: int, b: int): int { if a > b then a else b }

  predicate Negative(num: Word, f: Flags) { f.sign && num >= SIGN_BIT }

  /** The number whose digits are printed. */
  function Magnitude(num: Word, f: Flags): Word {
    if Negative(num, f) then 0x1_0000_0000_0000_0000 - num else num
  }

  function SignText(num: Word, f: Flags): string {
    if !f.sign then ""
    else if num >= SIGN_BIT then "-"
    else if f.plus then "+"
    else if f.space then " "
    else ""
  }

  function Prefix(base: int, f: Flags): string {
    if !f.special then ""
    else if base == 8 then "0"
    else if base == 16 then ['0', DigitChar(33, f.small)]
    else ""
  }

  /** The digits with the zeros the precision asks for. */
  function Body(num: Word, base: int, precision: int, f: Flags): string
    requires 2 <= base <= 36
  {
    var d := Digits(Magnitude(num, f), base, f.small);
    Repeat('0', precision - |d|) + d
  }

  /** The width the code counts: everything but a minus sign. */
  function Counted(num: Word, base: int, precision: int, f: Flags): nat
    requires 2 <= base <= 36
  {
    |Prefix(base, f)| + |Body(num, base, precision, f)| + if Negative(num, f) then 0 else |SignText(num, f)|
  }

  /** The head and the body with the width left over as spaces in front, or zeros between, or
      spaces behind, and never more than one of these. */
  function Layout(head: string, body: string, pad: int, f: Flags): string {
    Repeat(' ', if !f.zeroPad && !f.left then pad else 0) + head
    + Repeat('0', if f.zeroPad && !f.left then pad else 0) + body
    + Repeat(' ', if f.left then pad else 0)
  }

  /** The whole field. */
  function Text(num: Word, base: int, size: int, precision: int, f: Flags): string
    requires 2 <= base <= 36
  {
    Layout(SignText(num, f) + Prefix(base, f), Body(num, base, precision, f),
           size - Counted(num, base, precision, f), f)
  }

  /** The length of the field. A minus sign is not counted against the width, so a negative
      number that is padded comes out one longer than the width, and only then. */
  lemma TextLength(num: Word, base: int, size: int, precision: int, f: Flags)
    requires 2 <= base <= 36
    ensures var content := |SignText(num, f)| + |Prefix(base, f)| + |Body(num, base, precision, f)|;
            var n := |Text(num, base, size, precision, f)|;
            && |Body(num, base, precision, f)| == Max(precision, |Digits(Magnitude(num, f), base, f.small)|)
            && n == Max(size, Counted(num, base, precision, f)) + (if Negative(num, f) then 1 else 0)
            && (n == Max(size, content) <==> !(Negative(num, f) && size > Counted(num, base, precision, f)))
  {
  }

  const LOWER: string := "0123456789abcdefghijklmnopqrstuvwxyz"
  const UPPER: string := "0123456789ABCDEFGHIJKLMNOPQRSTUVWXYZ"

  /** The digits are those of the table chosen by SMALL. */
  lemma DigitTable(d: nat)
    requires d < 36
    ensures |LOWER| == |UPPER| == 36 && DigitChar(d, true) == LOWER[d] && DigitChar(d, false) == UPPER[d]
    ensures DigitValue(LOWER[d]) == d && DigitValue(UPPER[d]) == d
  {
  }

  /** A character of the digits, by the case asked for. */
  predicate IsDigitOf(c: char, base: nat, small: bool) {
    || ('0' <= c <= '9' && c as int - '0' as int < base)
    || (small && 'a' <= c <= 'z' && c as int - 'a' as int + 10 < base)
    || (!small && 'A' <= c <= 'Z' && c as int - 'A' as int + 10 < base)
  }

  lemma {:induction false} BackwardDigits(n: nat, base: nat, small: bool, k: nat)
    requires 2 <= base <= 36 && k < |Backward(n, base, small)|
    ensures IsDigitOf(Backward(n, base, small)[k], base, small)
    decreases n
  {
    DivMod(n, base);
    if n > 0 && k > 0 {
      Smaller(n, base);
      BackwardDigits(Quot(n, base), base, small, k - 1);
    }
  }

  lemma DigitsCase(n: nat, base: nat, small: bool)
    requires 2 <= base <= 36
    ensures forall k :: 0 <= k < |Digits(n, base, small)| ==> IsDigitOf(Digits(n, base, small)[k], base, small)
  {
    hide Backward, IsDigitOf;
    var b := Backward(n, base, small);
    forall k | 0 <= k < |b|
      ensures IsDigitOf(b[k], base, small)
    {
      BackwardDigits(n, base, small, k);
    }
    assert n == 0 ==> IsDigitOf('0', base, small) by { ZeroIsDigit(base, small); }
  }

  lemma ZeroIsDigit(base: nat, small: bool)
    requires base >= 2
    ensures IsDigitOf('0', base, small)
  {
  }

  /** The sign: '-' for a negative signed number, and else '+' or ' ' where asked for. */
  lemma SignMeans(num: Word, f: Flags)
    ensures SignText(num, f) == if f.sign && num >= 0x8000_0000_0000_0000 then "-"
                                else if f.sign && f.plus then "+"
                                else if f.sign && f.space then " " else ""
  {
  }

  /** The prefix: "0" for octal, "0x" or "0X" for hexadecimal, where asked for. */
  lemma PrefixMeans(base: int, f: Flags)
    ensures Prefix(base, f) == if f.special && base == 8 then "0"
                               else if f.special && base == 16 then (if f.small then "0x" else "0X") else ""
  {
    assert DigitChar(33, true) == 'x' && DigitChar(33, false) == 'X';
  }

  /** The body: the digits, after as many zeros as the precision is longer. */
  lemma BodyMeans(num: Word, base: int, precision: int, f: Flags)
    requires 2 <= base <= 36
    ensures var b, d := Body(num, base, precision, f), Digits(Magnitude(num, f), base, f.small);
            && |b| == Max(precision, |d|) && b[|b| - |d|..] == d && forall k :: 0 <= k < |b| - |d| ==> b[k] == '0'
  {
    hide Digits;
  }

  /** Where and with what a field is padded: with spaces in front; with LEFT, with spaces behind;
      and with ZEROPAD alone, with zeros between the sign and prefix and the digits. */
  lemma TextSides(num: Word, base: int, size: int, precision: int, f: Flags)
    requires 2 <= base <= 36
    ensures var t, h, b := Text(num, base, size, precision, f), SignText(num, f) + Prefix(base, f),
                           Body(num, base, precision, f);
            && |t| >= |h + b|
            && (!f.left && !f.zeroPad ==>
                  t[|t| - |h + b|..] == h + b && forall k :: 0 <= k < |t| - |h + b| ==> t[k] == ' ')
            && (f.left ==> t[..|h + b|] == h + b && forall k :: |h + b| <= k < |t| ==> t[k] == ' ')
            && (!f.left && f.zeroPad ==>
                  && t[..|h|] == h && t[|t| - |b|..] == b
                  && forall k :: |h| <= k < |t| - |b| ==> t[k] == '0')
  {
    hide SignText, Prefix, Body, Counted;
  }

  const PLAIN: Flags := Flags(false, false, false, false, false, false, false)

  /** 42 in five columns, right and left justified and with zeros. */
  lemma FortyTwo()
    ensures Text(42, 10, 5, -1, PLAIN) == "   42"
    ensures Text(42, 10, 5, -1, PLAIN.(left := true)) == "42   "
    ensures Text(42, 10, 5, -1, PLAIN.(zeroPad := true)) == "00042"
  {
    FortyTwoText(PLAIN);
    FortyTwoText(PLAIN.(left := true));
    FortyTwoText(PLAIN.(zeroPad := true));
    assert Repeat(' ', 3) == "   " && Repeat('0', 3) == "000" && Repeat(' ', 0) == "" == Repeat('0', 0);
    hide Text, Repeat;
  }

  lemma FortyTwoText(f: Flags)
    requires !f.sign && !f.special && !f.small
    ensures Text(42, 10, 5, -1, f) == Layout("", "42", 3, f)
  {
    hide Layout, Digits;
    FortyTwoDigits();
    RepeatNone('0', -3);
    assert Body(42, 10, -1, f) == "42" by {
      assert Repeat('0', -3) + "42" == "42";
    }
    assert SignText(42, f) + Prefix(10, f) == "";
    assert Counted(42, 10, -1, f) == 2;
  }

  lemma FortyTwoDigits()
    ensures Digits(42, 10, false) == "42"
  {
    assert Backward(4, 10, false) == "4";
    assert Backward(42, 10, false) == "24";
  }

  const PLAIN_SIGNED: Flags := Flags(false, true, false, false, false, false, false)

  /** -1 in a field of width 5 takes six characters. */
  lemma MinusOneIsWide()
    ensures |Text(0xFFFF_FFFF_FFFF_FFFF, 10, 5, 0, PLAIN_SIGNED)| == 6
  {
    TextLength(0xFFFF_FFFF_FFFF_FFFF, 10, 5, 0, PLAIN_SIGNED);
    assert Backward(1, 10, false) == ['1'];
  }

  // ----- number -----

  lemma RepeatMore(s: string, c: char, n: nat)
    ensures s + Repeat(c, n) + [c] == s + Repeat(c, n + 1)
  {
  }

  lemma RepeatNone(c: char, n: int)
    ensures Repeat(c, 0) == "" && (n <= 0 ==> Repeat(c, n) == "")
  {
  }

  /** quotient and rem are n divided by base with remainder. */
  predicate Divides(n: nat, base: nat, quotient: nat, rem: nat) { n == quotient * base + rem && rem < base }

  /** do_div: the quotient replaces n, the remainder is the result. */
  method DoDiv(n: Word, base: nat) returns (quotient: Word, rem: nat)
    requires 2 <= base <= 36
    ensures Divides(n, base, quotient, rem) && quotient <= n
  {
    DivMod(n, base);
    Smaller0(n, base);
    rem := n % base;
    quotient := n / base;
  }

  /** Division with remainder has one answer. */
  lemma DividesOnce(n: nat, base: nat, quotient: nat, rem: nat)
    requires base >= 2 && Divides(n, base, quotient, rem)
    ensures quotient == Quot(n, base) && rem == Rem(n, base)
  {
    DivMod(n, base);
    Unique(base, quotient, rem, Quot(n, base), Rem(n, base));
  }

  lemma Smaller0(n: nat, base: nat)
    requires base >= 2
    ensures Quot(n, base) <= n
  {
    if n > 0 { Smaller(n, base); }
  }

  /** The caller's buffer and the moving pointer into it; `text` is what was written since
      the pointer stood at `start`, and `before` the buffer then. */
  class Output {
    const buf: array<char>
    var pos: nat
    ghost const start: nat
    ghost const before: string
    ghost var text: string

    /** Nothing but `text` has been written. */
    ghost predicate Valid()
      reads this, buf
    {
      && pos == start + |text| <= buf.Length == |before|
      && buf[..] == before[..start] + text + before[pos..]
    }

    ghost predicate Room(n: int)
      reads this`text
    {
      start + |text| + n <= buf.Length
    }

    constructor (b: array<char>, at: nat)
      requires at <= b.Length
      ensures Valid() && buf == b && pos == start == at && text == "" && before == b[..]
    {
      buf, pos := b, at;
      start, before, text := at, b[..], "";
    }

    lemma Written()
      requires Valid()
      ensures buf[start..pos] == text
    {
      assert buf[start..pos] == buf[..][start..pos];
    }

    method Put(c: char)
      requires Valid() && Room(1)
      modifies this`pos, this`text, buf
      ensures Valid() && text == old(text) + [c]
    {
      buf[pos] := c;
      pos := pos + 1;
      text := text + [c];
    }

    /** while (size-- > 0) *str++ = c */
    method Fill(c: char, size: int) returns (left: int)
      requires Valid() && Room(size)
      modifies this`pos, this`text, buf
      ensures Valid() && text == old(text) + Repeat(c, size)
      ensures left == (if size > 0 then 0 else size) - 1
    {
      hide Repeat, Valid;
      ghost var done: nat := 0;
      RepeatNone(c, size);
      left := size;
      while left > 0
        invariant Valid() && text == old(text) + Repeat(c, done)
        invariant if size > 0 then 0 <= left == size - done else left == size && done == 0
        decreases left
      {
        left := left - 1;
        Put(c);
        RepeatMore(old(text), c, done);
        done := done + 1;
      }
      left := left - 1;
    }

    /** while (i < precision--) *str++ = '0' */
    method Zeros(i: nat, precision: int)
      requires Valid() && Room(precision - i)
      modifies this`pos, this`text, buf
      ensures Valid() && text == old(text) + Repeat('0', precision - i)
    {
      hide Repeat, Valid;
      ghost var done: nat := 0;
      RepeatNone('0', precision - i);
      var p := precision;
      while i < p
        invariant Valid() && text == old(text) + Repeat('0', done)
        invariant if precision > i then i <= p == precision - done else p == precision && done == 0
        decreases p - i
      {
        p := p - 1;
        Put('0');
        RepeatMore(old(text), '0', done);
        done := done + 1;
      }
    }

    /** while (i-- > 0) *str++ = tmp[i] */
    method PutBackward(tmp: array<char>, i: nat)
      requires Valid() && Room(i) && tmp != buf && i <= tmp.Length
      modifies this`pos, this`text, buf
      ensures Valid() && text == old(text) + Reversed(tmp[..i])
    {
      hide Valid;
      ghost var r := Reversed(tmp[..i]);
      var k := i;
      while k > 0
        invariant 0 <= k <= i && Valid() && text == old(text) + r[..i - k]
      {
        k := k - 1;
        Put(tmp[k]);
        assert r[..i - k] == r[..i - k - 1] + [tmp[k]];
      }
      assert r[..i] == r;
    }
  }

  lemma BackwardTurn(n: nat, base: nat, small: bool)
    requires 2 <= base <= 36
    ensures n > 0 ==> Quot(n, base) < n
    ensures Backward(n, base, small) ==
              if n == 0 then [] else [DigitChar(Rem(n, base), small)] + Backward(Quot(n, base), base, small)
  {
    hide Quot, Rem, DigitChar;
    if n > 0 { Smaller(n, base); }
  }

  /** tmp[i++] = c */
  method Append(tmp: array<char>, i: nat, c: char) returns (next: nat)
    requires i < tmp.Length
    modifies tmp
    ensures next == i + 1 && tmp[..next] == old(tmp[..i]) + [c]
  {
    tmp[i] := c;
    next := i + 1;
  }

  lemma Regroup(s: string, c: char, t: string)
    ensures s + ([c] + t) == s + [c] + t
  {
  }

  /** The conversion loop: tmp holds the digits from the least significant, at most 64. */
  method Convert(n: Word, base: nat, small: bool, tmp: array<char>) returns (i: nat)
    requires 2 <= base <= 36 && tmp.Length == 128
    modifies tmp
    ensures i <= 64 && tmp[..i] == Converted(n, base, small)
  {
    hide DigitChar, Quot, Rem, Backward, Reversed, Divides;
    DigitsShape(n, base, small);
    BackwardTurn(0, base, small);
    i := 0;
    if n == 0 {
      i := Append(tmp, i, '0');
    } else {
      var num := n;
      ghost var done := "";
      while num != 0
        invariant |done| == i && Backward(n, base, small) == done + Backward(num, base, small)
        invariant i <= 64 && tmp[..i] == done
        decreases num
      {
        BackwardTurn(num, base, small);
        Regroup(done, DigitChar(Rem(num, base), small), Backward(Quot(num, base), base, small));
        var rem;
        ghost var n0 := num;
        num, rem := DoDiv(num, base);
        DividesOnce(n0, base, num, rem);
        i := Append(tmp, i, DigitChar(rem, small));
        done := done + [DigitChar(rem, small)];
      }
    }
  }

  const NUL: char := 0 as char

  function CharText(c: char): string { if c == NUL then "" else [c] }

  /** The sign character (NUL for none), the number to print, and the width left for it. */
  method TakeSign(num: Word, base: int, size: int, f: Flags) returns (sign: char, n: Word, left: int)
    ensures CharText(sign) == SignText(num, f) && n == Magnitude(num, f)
    ensures left == size - |Prefix(base, f)| - (if Negative(num, f) then 0 else |SignText(num, f)|)
  {
    sign, n, left := NUL, num, size;
    if f.sign {
      if num >= SIGN_BIT {
        sign := '-';
        n := 0x1_0000_0000_0000_0000 - num;
      } else if f.plus {
        sign := '+';
        left := left - 1;
      } else if f.space {
        sign := ' ';
        left := left - 1;
      }
    }
    if f.special {
      if base == 16 { left := left - 2; } else if base == 8 { left := left - 1; }
    }
  }

  /** The sign and the base prefix. */
  method PutHead(out: Output, sign: char, base: int, f: Flags)
    requires out.Valid() && out.Room(|CharText(sign) + Prefix(base, f)|)
    modifies out`pos, out`text, out.buf
    ensures out.Valid() && out.text == old(out.text) + (CharText(sign) + Prefix(base, f))
  {
    hide DigitChar;
    if sign != NUL { out.Put(sign); }
    if f.special {
      if base == 8 {
        out.Put('0');
      } else if base == 16 {
        out.Put('0');
        out.Put(DigitChar(33, f.small));
      }
    }
  }

  /** The zeros for the precision and the digits, last first in tmp. */
  method PutBody(out: Output, tmp: array<char>, i: nat, precision: int)
    requires out.Valid() && out.Room(precision) && tmp != out.buf && i <= tmp.Length && i <= precision
    modifies out`pos, out`text, out.buf
    ensures out.Valid() && out.text == old(out.text) + (Repeat('0', precision - i) + Reversed(tmp[..i]))
  {
    hide Repeat, Reversed;
    out.Zeros(i, precision);
    out.PutBackward(tmp, i);
  }

  lemma TextLayout(num: Word, base: int, size: int, precision: int, flags: Flags, f: Flags)
    requires 2 <= base <= 36 && f == flags.(zeroPad := flags.zeroPad && !flags.left)
    ensures Text(num, base, size, precision, flags) ==
              Layout(SignText(num, f) + Prefix(base, f), Body(num, base, precision, f),
                     size - Counted(num, base, precision, f), f)
  {
    hide Repeat, Digits;
  }

  lemma Assemble(t: string, a: string, b: string, c: string, d: string, e: string)
    ensures t + a + b + c + d + e == t + (a + b + c + d + e)
  {
  }

  lemma AddNothing(s: string)
    ensures s + "" == s
  {
  }

  /** The three padding loops around what they pad. `f` has no zero padding when it is left
      justified. */
  method PutField(out: Output, sign: char, base: int, tmp: array<char>, i: nat, size: int, precision: int, f: Flags)
    requires out.Valid() && tmp != out.buf && i <= tmp.Length && i <= precision && (f.left ==> !f.zeroPad)
    requires var digits := Repeat('0', precision - i) + Reversed(tmp[..i]);
             out.Room(|Layout(CharText(sign) + Prefix(base, f), digits, size, f)|)
    modifies out`pos, out`text, out.buf
    ensures out.Valid()
    ensures out.text == old(out.text)
                        + Layout(CharText(sign) + Prefix(base, f),
                            Repeat('0', precision - i) + Reversed(tmp[..i]), size, f)
  {
    hide Repeat, Reversed, CharText, Prefix, Output.Valid;
    ghost var t0 := out.text;
    ghost var head, body := CharText(sign) + Prefix(base, f), Repeat('0', precision - i) + Reversed(tmp[..i]);
    ghost var w0 := Repeat(' ', if !f.zeroPad && !f.left then size else 0);
    ghost var w2 := Repeat('0', if f.zeroPad && !f.left then size else 0);
    ghost var w4 := Repeat(' ', if f.left then size else 0);
    Assemble(t0, w0, head, w2, body, w4);
    RepeatNone(' ', 0);
    RepeatNone('0', 0);
    AddNothing(t0);
    var left := size;
    var c := if f.zeroPad then '0' else ' ';
    if !f.zeroPad && !f.left { left := out.Fill(' ', left); }
    assert out.text == t0 + w0;
    PutHead(out, sign, base, f);
    AddNothing(out.text);
    RepeatNone(c, left);
    if !f.left { left := out.Fill(c, left); }
    assert out.text == t0 + w0 + head + w2;
    PutBody(out, tmp, i, precision);
    AddNothing(out.text);
    RepeatNone(' ', left);
    left := out.Fill(' ', left);
    assert out.text == t0 + w0 + head + w2 + body + w4;
  }

  /** number: appends the field at the moving pointer, or writes nothing for a bad base. */
  method Number(out: Output, num: Word, base: int, size: int, precision: int, flags: Flags) returns (ok: bool)
    requires out.Valid()
    requires 2 <= base <= 36 ==> out.Room(|Text(num, base, size, precision, flags)|)
    modifies out`pos, out`text, out.buf
    ensures ok == (2 <= base <= 36) && out.Valid()
    ensures out.text == old(out.text) + if ok then Text(num, base, size, precision, flags) else ""
  {
    hide Output.Valid, Layout, Reversed, Repeat, Converted;
    var f := flags;
    if f.left { f := f.(zeroPad := false); }
    if base < 2 || base > 36 { return false; }
    var sign, n, left := TakeSign(num, base, size, f);
    var tmp := new char[128];
    var i := Convert(n, base, f.small, tmp);
    var p := precision;
    if i > p { p := i; }
    left := left - p;
    TextLayout(num, base, size, precision, flags, f);
    PutField(out, sign, base, tmp, i, left, p, f);
    return true;
  }

  // ----- what the field says -----

  lemma {:induction false} ZerosValue(n: int, base: nat)
    ensures Value(Repeat('0', n), base) == 0
    decreases if n > 0 then n else 0
  {
    var z := Repeat('0', n);
    if n > 0 {
      assert z[..|z| - 1] == Repeat('0', n - 1);
      ZerosValue(n - 1, base);
    }
  }

  lemma {:induction false} PaddedValue(n: int, d: string, base: nat)
    ensures Value(Repeat('0', n) + d, base) == Value(d, base)
    decreases |d|
  {
    var z := Repeat('0', n);
    if d == [] {
      assert z + d == z;
      ZerosValue(n, base);
    } else {
      assert (z + d)[..|z + d| - 1] == z + d[..|d| - 1];
      PaddedValue(n, d[..|d| - 1], base);
    }
  }

  /** num as a long. */
  function AsLong(num: Word): int { if num >= SIGN_BIT then num - 0x1_0000_0000_0000_0000 else num }

  /** The sign and the digits denote the number, as a long if the flag says so, whatever the
      base, the precision and the width. */
  lemma TextDenotes(num: Word, base: int, precision: int, f: Flags)
    requires 2 <= base <= 36
    ensures Value(Body(num, base, precision, f), base) * (if SignText(num, f) == "-" then -1 else 1)
              == if f.sign then AsLong(num) else num
  {
    var n := Magnitude(num, f);
    DigitsValue(n, base, f.small);
    PaddedValue(precision - |Digits(n, base, f.small)|, Digits(n, base, f.small), base);
  }

  // ----- scan_number -----

  predicate IsDigit(c: char) { '0' <= c <= '9' }

  /** The number of digits from position `at` on. */
  function Run(s: string, at: nat): (n: nat)
    requires at <= |s|
    ensures at + n <= |s| && (at + n < |s| ==> !IsDigit(s[at + n]))
    ensures forall i :: at <= i < at + n ==> IsDigit(s[i])
    decreases |s| - at
  {
    if at < |s| && IsDigit(s[at]) then 1 + Run(s, at + 1) else 0
  }

  /** A C int: a value out of range would be an overflow. */
  type Int = x: int | -0x8000_0000 <= x < 0x8000_0000

  function RunText(s: string, at: nat): string
    requires at <= |s|
  {
    s[at..at + Run(s, at)]
  }

  lemma {:induction false} PrefixSmaller(d: string, k: nat)
    requires k <= |d| && forall i :: 0 <= i < |d| ==> IsDigit(d[i])
    ensures 0 <= Value(d[..k], 10) <= Value(d, 10)
    decreases |d|
  {
    if k == |d| {
      assert d[..k] == d;
      if d != [] { PrefixSmaller(d[..|d| - 1], |d| - 1); assert d[..|d| - 1][..|d| - 1] == d[..|d| - 1]; }
    } else {
      var e := d[..|d| - 1];
      PrefixSmaller(e, k);
      assert e[..k] == d[..k];
    }
  }

  lemma NoDigits(d: string)
    ensures Value(d[..0], 10) == 0
  {
  }

  /** One more digit of the run. */
  lemma NextDigit(d: string, k: nat)
    requires k < |d| && forall i :: 0 <= i < |d| ==> IsDigit(d[i])
    ensures 0 <= Value(d[..k], 10)
    ensures Value(d[..k + 1], 10) == Value(d[..k], 10) * 10 + (d[k] as int - '0' as int) <= Value(d, 10)
  {
    PrefixSmaller(d, k);
    PrefixSmaller(d, k + 1);
    assert d[..k + 1][..k] == d[..k];
  }

  /** scan_number, on a terminated string whose digits fit an int. */
  method ScanNumber(s: string, at: nat) returns (next: nat, number: Int)
    requires at < |s| && !IsDigit(s[|s| - 1]) && Value(RunText(s, at), 10) < 0x8000_0000
    ensures next == at + Run(s, at) < |s| && !IsDigit(s[next])
    ensures number == Value(RunText(s, at), 10)
  {
    hide Value;
    ghost var d, k: nat := RunText(s, at), 0;
    NoDigits(d);
    next := at;
    var tmp: Int := 0;
    while IsDigit(s[next])
      invariant k <= |d| && next == at + k < |s|
      invariant tmp == Value(d[..k], 10) >= 0
      decreases |d| - k
    {
      NextDigit(d, k);
      tmp := tmp * 10;
      tmp := tmp + (s[next] as int - '0' as int);
      next := next + 1;
      k := k + 1;
    }
    number := tmp;
    assert d[..k] == d;
  }

  // ----- round trip -----

  lemma {:induction false} DecimalDigits(n: nat, small: bool)
    ensures forall i :: 0 <= i < |Backward(n, 10, small)| ==> IsDigit(Backward(n, 10, small)[i])
  {
    if n > 0 { DecimalDigits(n / 10, small); }
  }

  lemma DigitsAreDecimal(n: nat, small: bool)
    ensures forall i :: 0 <= i < |Digits(n, 10, small)| ==> IsDigit(Digits(n, 10, small)[i])
  {
    hide Backward;
    DecimalDigits(n, small);
  }

  lemma {:induction false} RunOfDigits(d: string, tail: string, k: nat)
    requires k <= |d| && tail != "" && !IsDigit(tail[0]) && forall i :: 0 <= i < |d| ==> IsDigit(d[i])
    ensures Run(d + tail, k) == |d| - k
    decreases |d| - k
  {
    if k < |d| { RunOfDigits(d, tail, k + 1); }
  }

  /** No width, precision, prefix or shown sign. */
  predicate Plain(size: int, precision: int, f: Flags) {
    size <= 1 && precision <= 1 && !f.special && !(f.sign && (f.plus || f.space))
  }

  /** A plain decimal field is the number's digits, and the scanner reads the number back. */
  lemma RoundTrip(n: nat, size: int, precision: int, f: Flags, tail: string)
    requires n < 0x8000_0000 && Plain(size, precision, f) && tail != "" && !IsDigit(tail[0])
    ensures var t := Text(n, 10, size, precision, f);
            t == Digits(n, 10, f.small) && RunText(t + tail, 0) == t && Value(t, 10) == n
  {
    hide Digits, Text, Value, Run, IsDigit;
    var d := Digits(n, 10, f.small);
    DigitsShape(n, 10, f.small);
    DigitsValue(n, 10, f.small);
    DigitsAreDecimal(n, f.small);
    RunOfDigits(d, tail, 0);
    assert (d + tail)[..|d|] == d;
    PlainText(n, size, precision, f);
  }

  lemma PlainText(n: nat, size: int, precision: int, f: Flags)
    requires n < 0x8000_0000 && Plain(size, precision, f) && |Digits(n, 10, f.small)| >= 1
    ensures Text(n, 10, size, precision, f) == Digits(n, 10, f.small)
  {
    hide Digits;
    TextLength(n, 10, size, precision, f);
    assert Body(n, 10, precision, f) == Digits(n, 10, f.small);
  }

  /** number into a buffer, a terminator, and scan_number from its start. */
  method PrintThenScan(n: nat, size: int, precision: int, f: Flags) returns (back: Int)
    requires n < 0x8000_0000 && Plain(size, precision, f)
    ensures back == n
  {
    hide Text, Digits, Value, Run, Output.Valid;
    DigitsShape(n, 10, f.small);
    RoundTrip(n, size, precision, f, [NUL]);
    AddNothing("");
    var buf := new char[65];
    var out := new Output(buf, 0);
    var ok := Number(out, n, 10, size, precision, f);
    out.Put(NUL);
    out.Written();
    assert out.text == Text(n, 10, size, precision, f) + [NUL];
    var next;
    next, back := ScanNumber(buf[..out.pos], 0);
  }
}
