/**
 The CRC of a PNG chunk (src/brand/mark-renderer.ts:147-161) against section 3.4 of RFC 2083: the
 table-driven loop, the bit-serial register, and long division of polynomials over GF(2).
 */
module Crc32 {

  type Byte = bv8
  type Word = bv32

  // Word operations have names so that proofs can treat them as unknown.

  function Xor(a: Word, b: Word): Word { a ^ b }
  function Half(c: Word): Word { c >> 1 }
  predicate Odd(c: Word) { c & 1 == 1 }
  function Low(c: Word): Word { c & 0xff }
  function High(c: Word): Word { c & 0xffffff00 }
  function Widen(b: Byte): Word { b as Word }

  // ---- the register ----

  const POLYNOMIAL: Word := 0xedb88320

  /** One bit of the source's inner loop. */
  function Shift(c: Word): Word {
    if Odd(c) then Xor(POLYNOMIAL, Half(c)) else Half(c)
  }

  function Shifts(c: Word, n: nat): Word
    decreases n
  {
    if n == 0 then c else Shifts(Shift(c), n - 1)
  }

  /** Takes one byte into the register, bit by bit. */
  function Update(c: Word, b: Byte): Word { Shifts(Xor(c, Widen(b)), 8) }

  function Register(c: Word, data: seq<Byte>): Word {
    if data == [] then c else Update(Register(c, data[..|data| - 1]), data[|data| - 1])
  }

  const ONES: Word := 0xffffffff

  /** The CRC of the data, bit by bit: preset to ones, complemented at the end. */
  function Crc(data: seq<Byte>): Word { Xor(Register(ONES, data), ONES) }

  // ---- the table ----

  /** Plain shifting, one bit at a time. */
  function Down(c: Word, n: nat): Word
    decreases n
  {
    if n == 0 then c else Down(Half(c), n - 1)
  }

  /** The lowest n bits are zero. */
  predicate LowClear(h: Word, n: nat)
    decreases n
  {
    n == 0 || (!Odd(h) && LowClear(Half(h), n - 1))
  }

  lemma ShiftHigh(a: Word, h: Word)
    requires !Odd(h)
    ensures Shift(Xor(a, h)) == Xor(Shift(a), Half(h))
  {
    HalfXor(a, h);
    OddXor(a, h);
    XorAssociates(POLYNOMIAL, Half(a), Half(h));
    hide Xor, Half, Odd;
  }

  lemma HalfXor(a: Word, b: Word)
    ensures Half(Xor(a, b)) == Xor(Half(a), Half(b))
  {
  }

  lemma OddXor(a: Word, b: Word)
    ensures Odd(Xor(a, b)) <==> Odd(a) != Odd(b)
  {
  }

  lemma XorAssociates(a: Word, b: Word, c: Word)
    ensures Xor(Xor(a, b), c) == Xor(a, Xor(b, c))
  {
  }

  /** Bits that never reach the bottom only move down. */
  lemma {:induction false} ShiftsHigh(a: Word, h: Word, n: nat)
    requires LowClear(h, n)
    ensures Shifts(Xor(a, h), n) == Xor(Shifts(a, n), Down(h, n))
    decreases n
  {
    hide Xor, Half, Odd, Shift;
    if n > 0 {
      ShiftHigh(a, h);
      ShiftsHigh(Shift(a), Half(h), n - 1);
    }
  }

  lemma HalvedEightTimes(c: Word)
    ensures Half(Half(Half(Half(Half(Half(Half(Half(c)))))))) == c >> 8
  {
  }

  lemma DownByte(c: Word)
    ensures Down(c, 8) == c >> 8
  {
    HalvedEightTimes(c);
    hide Half;
  }

  lemma HighBits(c: Word)
    ensures !Odd(High(c)) && !Odd(Half(High(c))) && !Odd(Half(Half(High(c)))) && !Odd(Half(Half(Half(High(c)))))
    ensures var g := Half(Half(Half(Half(High(c)))));
            !Odd(g) && !Odd(Half(g)) && !Odd(Half(Half(g))) && !Odd(Half(Half(Half(g))))
  {
  }

  lemma HighIsClear(c: Word)
    ensures LowClear(High(c), 8)
  {
    HighBits(c);
    hide Half, High, Odd;
  }

  lemma LowAndHigh(c: Word)
    ensures Xor(Low(c), High(c)) == c && High(c) >> 8 == c >> 8
  {
  }

  lemma LowIsSmall(c: Word)
    ensures Low(c) < 256
  {
  }

  lemma Index(x: Word)
    requires x < 256
    ensures (x as int) as Word == x && x as int < 256
  {
  }

  /** Eight shifts depend on the low byte alone; the rest moves down by a byte. */
  lemma TableStep(c: Word)
    ensures Shifts(c, 8) == Xor(Shifts(Low(c), 8), c >> 8)
  {
    hide *;
    HighIsClear(c);
    DownByte(High(c));
    LowAndHigh(c);
    ShiftsHigh(Low(c), High(c), 8);
  }

  function Entry(n: nat): Word
    requires n < 256
  {
    Shifts(n as Word, 8)
  }

  predicate IsTable(table: seq<Word>) {
    |table| == 256 && forall n :: 0 <= n < 256 ==> table[n] == Entry(n)
  }

  /** The inner loop of the table's construction. */
  method BuildEntry(n: nat) returns (c: Word)
    requires n < 256
    ensures c == Entry(n)
  {
    hide Shift, Shifts;
    c := n as Word;
    var k := 0;
    while k < 8
      invariant 0 <= k <= 8
      invariant Shifts(c, 8 - k) == Entry(n)
    {
      OneShift(c, 8 - k);
      c := if c & 1 == 1 then 0xedb88320 ^ (c >> 1) else c >> 1;
      k := k + 1;
    }
    NoShift(c);
  }

  /** One turn of the inner loop is one shift. */
  lemma OneShift(c: Word, k: nat)
    requires k > 0
    ensures Shifts(c, k) == Shifts(if c & 1 == 1 then 0xedb88320 ^ (c >> 1) else c >> 1, k - 1)
  {
    assert Shift(c) == if c & 1 == 1 then 0xedb88320 ^ (c >> 1) else c >> 1;
    hide Shift;
  }

  lemma NoShift(c: Word)
    ensures Shifts(c, 0) == c
  {
  }

  method BuildTable() returns (table: array<Word>)
    ensures fresh(table) && IsTable(table[..])
  {
    hide Entry;
    table := new Word[256];
    var n := 0;
    while n < 256
      invariant 0 <= n <= 256
      invariant forall i :: 0 <= i < n ==> table[i] == Entry(i)
    {
      var c := BuildEntry(n);
      table[n] := c;
      n := n + 1;
    }
  }

  lemma TableEntry(table: seq<Word>, c: Word)
    requires IsTable(table)
    ensures |table| == 256 && 0 <= Low(c) as int < 256 && table[Low(c) as int] == Shifts(Low(c), 8)
  {
    hide Low, Shifts;
    LowIsSmall(c);
    Index(Low(c));
  }

  lemma ByteOut(c: Word, b: Byte)
    ensures Xor(c, Widen(b)) >> 8 == c >> 8
  {
  }

  /** One turn of the source's loop takes one byte into the register. */
  method TakeByte(table: array<Word>, c: Word, b: Byte) returns (next: Word)
    requires IsTable(table[..])
    ensures next == Update(c, b)
  {
    assert Update(c, b) == Shifts(Xor(c, Widen(b)), 8);
    hide *;
    var index := Low(Xor(c, Widen(b)));
    TableEntry(table[..], Xor(c, Widen(b)));
    TableStep(Xor(c, Widen(b)));
    ByteOut(c, b);
    next := Xor(table[index as int], c >> 8);
  }

  lemma RegisterNext(c: Word, data: seq<Byte>, i: nat)
    requires i < |data|
    ensures Register(c, data[..i + 1]) == Update(Register(c, data[..i]), data[i])
  {
    hide Update;
    assert data[..i + 1][..i] == data[..i];
  }

  /** The table-driven loop computes the bit-serial CRC of every byte string. */
  method Compute(table: array<Word>, data: seq<Byte>) returns (crc: Word)
    requires IsTable(table[..])
    ensures crc == Crc(data)
  {
    var c := ONES;
    assert data[..0] == [];
    var i := 0;
    while i < |data|
      invariant 0 <= i <= |data| && c == Register(ONES, data[..i])
    {
      hide Register, Update;
      RegisterNext(ONES, data, i);
      c := TakeByte(table, c, data[i]);
      i := i + 1;
    }
    assert data[..i] == data;
    crc := Xor(c, ONES);
  }
}
