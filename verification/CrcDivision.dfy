/**
 The CRC register is polynomial division (RFC 2083, section 3.4): the CRC is the complement of the
 remainder of the message, its first 32 bits complemented and 32 zeros appended, modulo the generator.
 A polynomial is the sequence of its coefficients, the highest power first. Bits of a byte come least
 significant first, and bit 0 of the register is the coefficient of x^31.
 */
module CrcDivision {
  import opened Crc32

  type Poly = seq<bool>

  /** x^32+x^26+x^23+x^22+x^16+x^12+x^11+x^10+x^8+x^7+x^5+x^4+x^2+x+1 */
  const EXPONENTS: set<int> := {32, 26, 23, 22, 16, 12, 11, 10, 8, 7, 5, 4, 2, 1, 0}

  function Generator(): (g: Poly)
    ensures |g| == 33
  {
    seq(33, i => (32 - i) in EXPONENTS)
  }

  function Zeros(n: nat): Poly { seq(n, _ => false) }
  function Ones(n: nat): Poly { seq(n, _ => true) }

  function Sum(p: Poly, q: Poly): (r: Poly)
    requires |p| == |q|
    ensures |r| == |p|
  {
    seq(|p|, i requires 0 <= i < |p| => p[i] != q[i])
  }

  /** Adds q to the leading coefficients of p. */
  function AddFront(p: Poly, q: Poly): (r: Poly)
    requires |q| <= |p|
    ensures |r| == |p|
  {
    Sum(p[..|q|], q) + p[|q|..]
  }

  /** Schoolbook division by the generator; what is left is the remainder. */
  function Remainder(p: Poly): (r: Poly)
    requires |p| >= 32
    ensures |r| == 32
    decreases |p|
  {
    if |p| == 32 then p
    else if p[0] then Remainder(AddFront(p, Generator())[1..])
    else Remainder(p[1..])
  }

  // ---- that is division: the polynomial is the quotient times the generator, plus the remainder ----

  function Quotient(p: Poly): (q: Poly)
    requires |p| >= 32
    ensures |q| == |p| - 32
    decreases |p|
  {
    if |p| == 32 then []
    else [p[0]] + Quotient(if p[0] then AddFront(p, Generator())[1..] else p[1..])
  }

  /** q times the generator: a sum of shifted copies. */
  function TimesGenerator(q: Poly): (r: Poly)
    ensures |r| == |q| + 32
    decreases |q|
  {
    if q == [] then Zeros(32)
    else
      var rest := [false] + TimesGenerator(q[1..]);
      if q[0] then AddFront(rest, Generator()) else rest
  }

  lemma {:induction false} DivisionExact(p: Poly)
    requires |p| >= 32
    ensures p == Sum(TimesGenerator(Quotient(p)), Zeros(|p| - 32) + Remainder(p))
    decreases |p|
  {
    if |p| == 32 {
      assert Zeros(0) + p == p;
    } else {
      var next := if p[0] then AddFront(p, Generator())[1..] else p[1..];
      DivisionExact(next);
      DivisionStep(p, next, TimesGenerator(Quotient(next)), Remainder(p));
      assert Quotient(p)[1..] == Quotient(next);
    }
  }

  /** One step of the division: the leading coefficient is the quotient's. */
  lemma DivisionStep(p: Poly, next: Poly, product: Poly, r: Poly)
    requires |p| > 32 && |r| == 32 && |product| == |p| - 1
    requires next == if p[0] then AddFront(p, Generator())[1..] else p[1..]
    requires next == Sum(product, Zeros(|p| - 33) + r)
    ensures p == Sum(if p[0] then AddFront([false] + product, Generator()) else [false] + product, Zeros(|p| - 32) + r)
  {
    var left := if p[0] then AddFront([false] + product, Generator()) else [false] + product;
    var padded, shorter := Zeros(|p| - 32) + r, Zeros(|p| - 33) + r;
    assert padded == [false] + shorter;
    hide Generator;
    GeneratorLeads();
    forall i | 0 <= i < |p| ensures p[i] == (left[i] != padded[i]) {
      if i > 0 {
        assert next[i - 1] == (product[i - 1] != shorter[i - 1]);
        assert next[i - 1] == if p[0] && i < 33 then p[i] != Generator()[i] else p[i];
      }
    }
  }

  /** A polynomial has only one quotient and remainder, so `Remainder` is the remainder. */
  lemma {:induction false} DivisionUnique(q: Poly, r: Poly, q': Poly, r': Poly)
    requires |q| == |q'| && |r| == |r'| == 32
    requires Sum(TimesGenerator(q), Zeros(|q|) + r) == Sum(TimesGenerator(q'), Zeros(|q|) + r')
    ensures q == q' && r == r'
    decreases |q|
  {
    var a, b := Zeros(|q|) + r, Zeros(|q|) + r';
    var left, right := Sum(TimesGenerator(q), a), Sum(TimesGenerator(q'), b);
    if q == [] {
      assert forall i :: 0 <= i < 32 ==> left[i] == r[i] && right[i] == r'[i];
    } else {
      LeadingBit(q, a);
      LeadingBit(q', b);
      assert a[1..] == Zeros(|q| - 1) + r && b[1..] == Zeros(|q| - 1) + r';
      SameTail(q, q', a, b);
      DivisionUnique(q[1..], r, q'[1..], r');
      assert q == [q[0]] + q[1..] && q' == [q'[0]] + q'[1..];
    }
  }

  /** The leading coefficient of a product and a short polynomial is the quotient's. */
  lemma LeadingBit(q: Poly, a: Poly)
    requires q != [] && |a| == |q| + 32 && !a[0]
    ensures Sum(TimesGenerator(q), a)[0] == q[0]
  {
    hide TimesGenerator, Generator;
    ProductBit(q, 0);
    GeneratorLeads();
  }

  lemma GeneratorLeads()
    ensures Generator()[0]
  {
  }

  lemma ProductBit(q: Poly, j: nat)
    requires q != [] && j < |q| + 32
    ensures TimesGenerator(q)[j] == ((j > 0 && TimesGenerator(q[1..])[j - 1]) != (q[0] && j < 33 && Generator()[j]))
  {
    var rest := [false] + TimesGenerator(q[1..]);
    assert TimesGenerator(q) == if q[0] then AddFront(rest, Generator()) else rest;
    hide TimesGenerator, Generator, AddFront;
    FrontBit(rest, Generator(), j);
  }

  lemma FrontBit(p: Poly, q: Poly, j: nat)
    requires |q| <= |p| && j < |p|
    ensures AddFront(p, q)[j] == (p[j] != (j < |q| && q[j]))
  {
    var sum := Sum(p[..|q|], q);
    if j < |q| { assert sum[j] == (p[..|q|][j] != q[j]); }
  }

  /** Equal sums with equal leading coefficients stay equal without them. */
  lemma SameTail(q: Poly, q': Poly, a: Poly, b: Poly)
    requires q != [] && |q| == |q'| && |a| == |b| == |q| + 32 && q[0] == q'[0]
    requires Sum(TimesGenerator(q), a) == Sum(TimesGenerator(q'), b)
    ensures Sum(TimesGenerator(q[1..]), a[1..]) == Sum(TimesGenerator(q'[1..]), b[1..])
  {
    var s, t := Sum(TimesGenerator(q[1..]), a[1..]), Sum(TimesGenerator(q'[1..]), b[1..]);
    forall i | 0 <= i < |s| ensures s[i] == t[i] {
      assert Sum(TimesGenerator(q), a)[i + 1] == Sum(TimesGenerator(q'), b)[i + 1];
      TailBit(q, a, i);
      TailBit(q', b, i);
    }
  }

  lemma TailBit(q: Poly, a: Poly, i: nat)
    requires q != [] && |a| == |q| + 32 && i + 1 < |a|
    ensures Sum(TimesGenerator(q), a)[i + 1]
         == (Sum(TimesGenerator(q[1..]), a[1..])[i] != (q[0] && i + 1 < 33 && Generator()[i + 1]))
  {
    hide TimesGenerator, Generator;
    ProductBit(q, i + 1);
  }

  /** The lowest n bits of a word, the least significant first. */
  function Bits(c: Word, n: nat): (p: Poly)
    ensures |p| == n
    decreases n
  {
    if n == 0 then [] else [Odd(c)] + Bits(Half(c), n - 1)
  }

  function MessageBits(data: seq<Byte>): Poly {
    if data == [] then [] else MessageBits(data[..|data| - 1]) + Bits(Widen(data[|data| - 1]), 8)
  }

  // ---- the register as a sequence of bits ----

  /** Takes one message bit into the register. */
  function Step(r: Poly, bit: bool): (s: Poly)
    requires |r| == 32
    ensures |s| == 32
  {
    var moved := r[1..] + [false];
    if r[0] != bit then Sum(moved, Generator()[1..]) else moved
  }

  function Feed(r: Poly, m: Poly): (s: Poly)
    requires |r| == 32
    ensures |s| == 32
    decreases |m|
  {
    if m == [] then r else Feed(Step(r, m[0]), m[1..])
  }

  lemma {:induction false} FeedJoined(r: Poly, m: Poly, n: Poly)
    requires |r| == 32
    ensures Feed(r, m + n) == Feed(Feed(r, m), n)
    decreases |m|
  {
    hide Step;
    if m == [] {
      assert m + n == n;
    } else {
      assert (m + n)[1..] == m[1..] + n;
      FeedJoined(Step(r, m[0]), m[1..], n);
    }
  }

  lemma DropFront(p: Poly, q: Poly)
    requires 0 < |q| <= |p|
    ensures AddFront(p, q)[1..] == AddFront(p[1..], q[1..])
    ensures AddFront(p, q)[0] == (p[0] != q[0])
  {
  }

  lemma AddTwice(p: Poly, q: Poly, g: Poly)
    requires |q| == |g| <= |p|
    ensures AddFront(AddFront(p, q), g) == AddFront(p, Sum(q, g))
  {
  }

  lemma AddPadded(p: Poly, q: Poly)
    requires |q| + 1 <= |p|
    ensures AddFront(p, q) == AddFront(p, q + [false])
  {
  }

  /** Feeding m into the register divides m, followed by 32 zeros and with r added in front. */
  lemma {:induction false} FeedDivides(r: Poly, m: Poly)
    requires |r| == 32
    ensures Remainder(AddFront(m + Zeros(32), r)) == Feed(r, m)
    decreases |m|
  {
    var p := m + Zeros(32);
    if m == [] {
      assert AddFront(p, r) == r;
    } else {
      assert p[1..] == m[1..] + Zeros(32);
      FeedStep(p, r);
      FeedDivides(Step(r, m[0]), m[1..]);
      hide AddFront, Step, Generator;
    }
  }

  lemma FeedStep(p: Poly, r: Poly)
    requires |r| == 32 && |p| > 32
    ensures Remainder(AddFront(p, r)) == Remainder(AddFront(p[1..], Step(r, p[0])))
  {
    var q := AddFront(p, r);
    DropFront(p, r);
    AddPadded(p[1..], r[1..]);
    if q[0] {
      DropFront(q, Generator());
      AddTwice(p[1..], r[1..] + [false], Generator()[1..]);
      hide AddFront, Generator, Sum;
    }
  }

  // ---- the word register is that sequence ----

  lemma {:induction false} BitsXor(a: Word, b: Word, n: nat)
    ensures Bits(Xor(a, b), n) == Sum(Bits(a, n), Bits(b, n))
    decreases n
  {
    hide Xor, Half, Odd;
    if n > 0 {
      HalfXor(a, b);
      OddXor(a, b);
      BitsXor(Half(a), Half(b), n - 1);
    }
  }

  lemma {:induction false} BitsLast(c: Word, n: nat)
    ensures Bits(c, n + 1) == Bits(c, n) + [Odd(Down(c, n))]
    decreases n
  {
    hide Half, Odd;
    if n > 0 { BitsLast(Half(c), n - 1); }
  }

  lemma DownAll(c: Word)
    ensures Down(c, 32) == 0
  {
    DownSum(c, 8, 24);
    DownSum(c >> 8, 8, 16);
    DownSum(c >> 8 >> 8, 8, 8);
    DownByte(c);
    DownByte(c >> 8);
    DownByte(c >> 8 >> 8);
    DownByte(c >> 8 >> 8 >> 8);
    hide *;
    AllOut(c);
  }

  lemma AllOut(c: Word)
    ensures c >> 8 >> 8 >> 8 >> 8 == 0
  {
  }

  lemma {:induction false} DownSum(c: Word, m: nat, n: nat)
    ensures Down(c, m + n) == Down(Down(c, m), n)
    decreases m
  {
    hide Half;
    if m > 0 { DownSum(Half(c), m - 1, n); }
  }

  lemma BitsHalf(c: Word)
    ensures Bits(Half(c), 32) == Bits(c, 32)[1..] + [false]
  {
    BitsLast(Half(c), 31);
    DownAll(c);
    assert Down(c, 32) == Down(Half(c), 31) by { hide Half; }
    assert !Odd(0);
    hide Half, Odd, Down;
  }

  lemma BitsPair(c: Word, n: nat)
    requires n >= 2
    ensures Bits(c, n) == [Odd(c), Odd(Half(c))] + Bits(Half(Half(c)), n - 2)
  {
    hide Odd, Half;
    assert Bits(c, n) == [Odd(c)] + Bits(Half(c), n - 1);
  }

  lemma BitsNibble(c: Word, n: nat)
    requires n >= 4
    ensures Bits(c, n) == [Odd(c), Odd(Half(c)), Odd(Half(Half(c))), Odd(Half(Half(Half(c))))] + Bits(Half(Half(Half(Half(c)))), n - 4)
  {
    hide *;
    BitsPair(c, n);
    BitsPair(Half(Half(c)), n - 2);
  }

  function Join(rest: Word, digit: Word): Word { (rest << 4) | digit }

  function DigitBits(digit: Word): Poly { [digit & 1 != 0, digit & 2 != 0, digit & 4 != 0, digit & 8 != 0] }

  lemma JoinDigit(rest: Word, digit: Word)
    requires rest < 0x1000_0000 && digit < 16
    ensures var c := Join(rest, digit);
            && Odd(c) == (digit & 1 != 0) && Odd(Half(c)) == (digit & 2 != 0)
            && Odd(Half(Half(c))) == (digit & 4 != 0) && Odd(Half(Half(Half(c)))) == (digit & 8 != 0)
            && Half(Half(Half(Half(c)))) == rest
  {
  }

  lemma Nibble(rest: Word, n: nat, digit: Word)
    requires n >= 4 && rest < 0x1000_0000 && digit < 16
    ensures Bits(Join(rest, digit), n) == DigitBits(digit) + Bits(rest, n - 4)
  {
    JoinDigit(rest, digit);
    assert DigitBits(digit) == [digit & 1 != 0, digit & 2 != 0, digit & 4 != 0, digit & 8 != 0];
    hide *;
    BitsNibble(Join(rest, digit), n);
  }

  lemma NoBits()
    ensures Bits(0, 0) == []
  {
  }

  lemma LowerBits()
    ensures Bits(POLYNOMIAL, 32) == [false, false, false, false, false, true, false, false, true, true, false, false, false, false, false, true]
                                    + Bits(0xedb8, 16)
  {
    hide Bits;
    Nibble(0xedb8, 20, 0x8);
    assert Join(0xedb8, 0x8) == 0xedb88 && DigitBits(0x8) == [false, false, false, true];
    Nibble(0xedb88, 24, 0x3);
    assert Join(0xedb88, 0x3) == 0xedb883 && DigitBits(0x3) == [true, true, false, false];
    Nibble(0xedb883, 28, 0x2);
    assert Join(0xedb883, 0x2) == 0xedb8832 && DigitBits(0x2) == [false, true, false, false];
    Nibble(0xedb8832, 32, 0x0);
    assert Join(0xedb8832, 0x0) == 0xedb88320 && DigitBits(0x0) == [false, false, false, false];
  }

  lemma UpperBits()
    ensures Bits(0xedb8, 16) == [false, false, false, true, true, true, false, true, true, false, true, true, false, true, true, true]
  {
    hide Bits;
    NoBits();
    Nibble(0x0, 4, 0xe);
    assert Join(0x0, 0xe) == 0xe && DigitBits(0xe) == [false, true, true, true];
    Nibble(0xe, 8, 0xd);
    assert Join(0xe, 0xd) == 0xed && DigitBits(0xd) == [true, false, true, true];
    Nibble(0xed, 12, 0xb);
    assert Join(0xed, 0xb) == 0xedb && DigitBits(0xb) == [true, true, false, true];
    Nibble(0xedb, 16, 0x8);
    assert Join(0xedb, 0x8) == 0xedb8 && DigitBits(0x8) == [false, false, false, true];
  }

  /** The constant of the source holds the generator's coefficients below x^32, mirrored. */
  lemma PolynomialBits()
    ensures Bits(POLYNOMIAL, 32) == Generator()[1..]
  {
    LowerBits();
    UpperBits();
    hide Bits;
  }

  function BitWord(bit: bool): Word { if bit then 1 else 0 }

  lemma FirstBit(c: Word, bit: bool)
    ensures Odd(Xor(c, BitWord(bit))) <==> Odd(c) != bit
    ensures Half(Xor(c, BitWord(bit))) == Half(c)
  {
  }

  lemma BitsShift(c: Word, bit: bool)
    ensures Bits(Shift(Xor(c, BitWord(bit))), 32) == Step(Bits(c, 32), bit)
  {
    FirstBit(c, bit);
    BitsHalf(c);
    PolynomialBits();
    BitsXor(POLYNOMIAL, Half(c), 32);
    BitsFirst(c);
    SumCommutes(Generator()[1..], Bits(Half(c), 32));
    hide Bits, Xor, Half, Odd, BitWord, Generator, Sum;
  }

  lemma SumCommutes(p: Poly, q: Poly)
    requires |p| == |q|
    ensures Sum(p, q) == Sum(q, p)
  {
  }

  lemma BitsFirst(c: Word)
    ensures Bits(c, 32)[0] == Odd(c)
  {
    hide Odd, Half;
  }

  function Even(w: Word): Word { w & 0xfffffffe }

  lemma EvenPart(w: Word)
    ensures Xor(BitWord(Odd(w)), Even(w)) == w
  {
  }

  lemma EvenIsEven(w: Word)
    ensures !Odd(Even(w)) && Half(Even(w)) == Half(w)
  {
  }

  lemma SplitWord(c: Word, w: Word)
    ensures Xor(c, w) == Xor(Xor(c, BitWord(Odd(w))), Even(w))
  {
    EvenPart(w);
    XorAssociates(c, BitWord(Odd(w)), Even(w));
    hide Xor, Odd, Even, BitWord;
  }

  /** Adding n message bits at once and shifting n times feeds them one by one. */
  lemma {:induction false} BitsFed(c: Word, w: Word, n: nat)
    requires Down(w, n) == 0
    ensures Bits(Shifts(Xor(c, w), n), 32) == Feed(Bits(c, 32), Bits(w, n))
    decreases n
  {
    if n == 0 {
      XorZero(c);
      hide Xor, Bits;
    } else {
      SplitWord(c, w);
      EvenIsEven(w);
      BitsFedStep(c, w, Even(w), n);
    }
  }

  lemma {:induction false} BitsFedStep(c: Word, w: Word, h: Word, n: nat)
    requires n > 0 && Down(w, n) == 0
    requires Xor(c, w) == Xor(Xor(c, BitWord(Odd(w))), h) && !Odd(h) && Half(h) == Half(w)
    ensures Bits(Shifts(Xor(c, w), n), 32) == Feed(Bits(c, 32), Bits(w, n))
    decreases n, 0
  {
    hide Xor, Half, Odd, BitWord, Step, Shift;
    var next := Shift(Xor(c, BitWord(Odd(w))));
    ShiftHigh(Xor(c, BitWord(Odd(w))), h);
    BitsShift(c, Odd(w));
    assert Shifts(Xor(c, w), n) == Shifts(Xor(next, Half(w)), n - 1);
    assert Down(w, n) == Down(Half(w), n - 1);
    BitsFed(next, Half(w), n - 1);
    assert Bits(w, n) == [Odd(w)] + Bits(Half(w), n - 1);
    assert Bits(w, n)[1..] == Bits(Half(w), n - 1);
    hide Bits, Shifts;
  }

  lemma XorZero(c: Word)
    ensures Xor(c, 0) == c
  {
  }

  lemma WidenedByte(b: Byte)
    ensures Widen(b) >> 8 == 0
  {
  }

  lemma {:induction false} RegisterBits(c: Word, data: seq<Byte>)
    ensures Bits(Register(c, data), 32) == Feed(Bits(c, 32), MessageBits(data))
  {
    hide Bits, Shifts, Widen;
    if data != [] {
      var n := |data| - 1;
      RegisterBits(c, data[..n]);
      WidenedByte(data[n]);
      DownByte(Widen(data[n]));
      BitsFed(Register(c, data[..n]), Widen(data[n]), 8);
      FeedJoined(Bits(c, 32), MessageBits(data[..n]), Bits(Widen(data[n]), 8));
    }
  }

  lemma OnesBits()
    ensures Bits(ONES, 32) == Ones(32)
  {
    hide Bits;
    NoBits();
    Nibble(0xfffffff, 32, 0xf);
    Nibble(0xffffff, 28, 0xf);
    Nibble(0xfffff, 24, 0xf);
    Nibble(0xffff, 20, 0xf);
    Nibble(0xfff, 16, 0xf);
    Nibble(0xff, 12, 0xf);
    Nibble(0xf, 8, 0xf);
    Nibble(0x0, 4, 0xf);
  }

  /** The bit order of the CRC: bit 0 of the word is the coefficient of x^31. */
  lemma CrcIsDivision(data: seq<Byte>)
    ensures Bits(Crc(data), 32) == Sum(Remainder(AddFront(MessageBits(data) + Zeros(32), Ones(32))), Ones(32))
  {
    RegisterBits(ONES, data);
    OnesBits();
    FeedDivides(Ones(32), MessageBits(data));
    BitsXor(Register(ONES, data), ONES, 32);
    hide Bits, Register, MessageBits, Feed, Remainder, AddFront, Sum, Ones, Xor;
  }
}
