/**
 Which damage the CRC always shows (src/brand/mark-renderer.ts:157-161): the byte update is a bijection on the
 register, and a change within four consecutive bytes changes the CRC.
 */
module CrcDetection {
  import opened Crc32
  import opened CrcDivision

  // ---- the byte update is a bijection ----

  function Unshift(d: Word): Word {
    if Top(d) then DoublePlus(Xor(d, POLYNOMIAL)) else Double(d)
  }

  function Unshifts(d: Word, n: nat): Word
    decreases n
  {
    if n == 0 then d else Unshift(Unshifts(d, n - 1))
  }

  predicate Top(d: Word) { d & 0x80000000 != 0 }
  function Double(d: Word): Word { d << 1 }
  function DoublePlus(d: Word): Word { (d << 1) | 1 }

  lemma OddShift(c: Word)
    requires Odd(c)
    ensures Top(Xor(POLYNOMIAL, Half(c))) && DoublePlus(Half(c)) == c
  {
  }

  lemma EvenShift(c: Word)
    requires !Odd(c)
    ensures !Top(Half(c)) && Double(Half(c)) == c
  {
  }

  lemma TopUnshift(d: Word)
    requires Top(d)
    ensures Odd(DoublePlus(Xor(d, POLYNOMIAL))) && Half(DoublePlus(Xor(d, POLYNOMIAL))) == Xor(d, POLYNOMIAL)
  {
  }

  lemma LowUnshift(d: Word)
    requires !Top(d)
    ensures !Odd(Double(d)) && Half(Double(d)) == d
  {
  }

  lemma XorTwice(a: Word, b: Word)
    ensures Xor(Xor(a, b), b) == a && Xor(b, a) == Xor(a, b)
  {
  }

  lemma ShiftInverse(c: Word)
    ensures Unshift(Shift(c)) == c && Shift(Unshift(c)) == c
  {
    XorTwice(Half(c), POLYNOMIAL);
    XorTwice(c, POLYNOMIAL);
    XorTwice(Xor(c, POLYNOMIAL), POLYNOMIAL);
    if Odd(c) { OddShift(c); } else { EvenShift(c); }
    if Top(c) { TopUnshift(c); } else { LowUnshift(c); }
    hide Xor, Half, Odd, Top, Double, DoublePlus;
  }

  lemma {:induction false} ShiftsLast(c: Word, n: nat)
    requires n > 0
    ensures Shifts(c, n) == Shift(Shifts(c, n - 1))
    decreases n
  {
    hide Shift;
    if n > 1 { ShiftsLast(Shift(c), n - 1); }
  }

  lemma {:induction false} ShiftsInverse(c: Word, n: nat)
    ensures Unshifts(Shifts(c, n), n) == c
    decreases n
  {
    hide Shift, Unshift;
    if n > 0 {
      ShiftsLast(c, n);
      ShiftInverse(Shifts(c, n - 1));
      UnshiftsFirst(Shifts(c, n), n);
      ShiftsInverse(c, n - 1);
    }
  }

  lemma {:induction false} UnshiftsFirst(d: Word, n: nat)
    requires n > 0
    ensures Unshifts(d, n) == Unshifts(Unshift(d), n - 1)
    decreases n
  {
    hide Unshift;
    if n > 1 { UnshiftsFirst(d, n - 1); }
  }

  lemma {:induction false} UnshiftsInverse(d: Word, n: nat)
    ensures Shifts(Unshifts(d, n), n) == d
    decreases n
  {
    hide Shift, Unshift;
    if n > 0 {
      ShiftInverse(Unshifts(d, n - 1));
      UnshiftsInverse(d, n - 1);
    }
  }

  /** The state before a byte was taken in. */
  function Restore(d: Word, b: Byte): Word { Xor(Unshifts(d, 8), Widen(b)) }

  /** For each byte the update is a bijection on the 32-bit states. */
  lemma UpdateIsBijection(c: Word, b: Byte)
    ensures Restore(Update(c, b), b) == c && Update(Restore(c, b), b) == c
  {
    ShiftsInverse(Xor(c, Widen(b)), 8);
    UnshiftsInverse(c, 8);
    XorTwice(c, Widen(b));
    XorTwice(Unshifts(c, 8), Widen(b));
    hide Shifts, Unshifts, Xor, Widen;
  }

  // ---- damage that is always seen ----

  /** A short run of bytes as one word, the first byte lowest. */
  function Pack(run: seq<Byte>): Word {
    if run == [] then 0 else Place(run[0], Pack(run[1..]))
  }

  function Place(b: Byte, v: Word): Word { Xor(Widen(b), v << 8) }

  /** v needs at most k bytes. */
  predicate Fits(v: Word, k: nat) {
    match k
    case 0 => v == 0
    case 1 => v < 0x100
    case 2 => v < 0x1_0000
    case 3 => v < 0x100_0000
    case _ => true
  }

  lemma PlaceFits(b: Byte, v: Word, k: nat)
    requires Fits(v, k)
    ensures Fits(Place(b, v), k + 1)
  {
  }

  lemma PlaceShifts(b: Byte, v: Word, k: nat)
    requires Fits(v, k) && k <= 3
    ensures Low(Place(b, v)) == Widen(b) && Place(b, v) >> 8 == v
  {
  }

  lemma WidenInjective(b: Byte, d: Byte)
    requires Widen(b) == Widen(d)
    ensures b == d
  {
  }

  lemma {:induction false} PackFits(run: seq<Byte>)
    ensures Fits(Pack(run), |run|)
  {
    assert Fits(0, 0);
    hide Place, Fits;
    if run != [] {
      PackFits(run[1..]);
      PlaceFits(run[0], Pack(run[1..]), |run| - 1);
    }
  }

  lemma {:induction false} PackInjective(run: seq<Byte>, other: seq<Byte>)
    requires |run| == |other| <= 4 && Pack(run) == Pack(other)
    ensures run == other
  {
    if run != [] {
      PlaceInjective(run[0], Pack(run[1..]), other[0], Pack(other[1..]), |run| - 1) by {
        PackFits(run[1..]);
        PackFits(other[1..]);
        hide Place, Fits;
      }
      PackInjective(run[1..], other[1..]);
      hide *;
      assert run == [run[0]] + run[1..] && other == [other[0]] + other[1..];
    }
  }

  lemma PlaceInjective(b: Byte, v: Word, d: Byte, w: Word, k: nat)
    requires Fits(v, k) && Fits(w, k) && k <= 3 && Place(b, v) == Place(d, w)
    ensures b == d && v == w
  {
    PlaceShifts(b, v, k);
    PlaceShifts(d, w, k);
    hide *;
    WidenInjective(b, d);
  }

  /** Up to four bytes taken in one after the other enter the register as one word. */
  lemma {:induction false} RunAsWord(c: Word, run: seq<Byte>)
    requires |run| <= 4
    ensures Register(c, run) == Shifts(Xor(c, Pack(run)), 8 * |run|)
    decreases |run|
  {
    hide Xor, Place, Shift, Widen;
    if run == [] {
      XorZero(c);
    } else {
      var v := Pack(run[1..]);
      RegisterFirst(c, run);
      RunAsWord(Update(c, run[0]), run[1..]);
      PackFits(run[1..]);
      FirstByte(c, run[0], v, |run| - 1);
      ShiftsSum(Xor(c, Place(run[0], v)), 8, 8 * (|run| - 1));
      hide Register, Shifts, Update;
    }
  }

  lemma {:induction false} RegisterFirst(c: Word, data: seq<Byte>)
    requires data != []
    ensures Register(c, data) == Register(Update(c, data[0]), data[1..])
    decreases |data|
  {
    hide Update;
    var n := |data| - 1;
    if n > 0 {
      RegisterFirst(c, data[..n]);
      assert data[..n][1..] == data[1..][..n - 1];
    } else {
      assert data[..0] == [] && data[1..] == [];
      assert Register(c, data[..0]) == c;
    }
  }

  lemma {:induction false} ShiftsSum(c: Word, m: nat, n: nat)
    ensures Shifts(c, m + n) == Shifts(Shifts(c, m), n)
    decreases m
  {
    hide Shift;
    if m > 0 { ShiftsSum(Shift(c), m - 1, n); }
  }

  lemma FirstByte(c: Word, b: Byte, v: Word, k: nat)
    requires Fits(v, k) && k <= 3
    ensures Shifts(Xor(c, Place(b, v)), 8) == Xor(Update(c, b), v)
  {
    var w := Place(b, v);
    PlaceShifts(b, v, k);
    LowAndHigh(w);
    XorAssociates(c, Low(w), High(w));
    HighIsClear(w);
    DownByte(High(w));
    ShiftsHigh(Xor(c, Widen(b)), High(w), 8);
    assert Update(c, b) == Shifts(Xor(c, Widen(b)), 8);
    hide *;
  }

  lemma {:induction false} RegisterJoined(c: Word, data: seq<Byte>, more: seq<Byte>)
    ensures Register(c, data + more) == Register(Register(c, data), more)
    decreases |more|
  {
    hide Update;
    if more == [] {
      assert data + more == data;
    } else {
      var n := |more| - 1;
      assert (data + more)[..|data| + n] == data + more[..n];
      RegisterJoined(c, data, more[..n]);
    }
  }

  lemma {:induction false} RegisterInjective(c: Word, d: Word, data: seq<Byte>)
    requires Register(c, data) == Register(d, data)
    ensures c == d
    decreases |data|
  {
    hide Update, Restore;
    if data != [] {
      var n := |data| - 1;
      UpdateIsBijection(Register(c, data[..n]), data[n]);
      UpdateIsBijection(Register(d, data[..n]), data[n]);
      RegisterInjective(c, d, data[..n]);
    }
  }

  lemma RunInjective(c: Word, run: seq<Byte>, other: seq<Byte>)
    requires |run| == |other| <= 4 && Register(c, run) == Register(c, other)
    ensures run == other
  {
    RunAsWord(c, run);
    RunAsWord(c, other);
    hide *;
    ShiftsInverse(Xor(c, Pack(run)), 8 * |run|);
    ShiftsInverse(Xor(c, Pack(other)), 8 * |run|);
    XorCancels(c, Pack(run), Pack(other));
    PackInjective(run, other);
  }

  lemma XorCancels(c: Word, v: Word, w: Word)
    requires Xor(c, v) == Xor(c, w)
    ensures v == w
  {
  }

  /** Replacing up to four consecutive bytes by others always changes the CRC. */
  lemma BurstChangesCrc(before: seq<Byte>, run: seq<Byte>, other: seq<Byte>, after: seq<Byte>)
    requires |run| == |other| <= 4 && run != other
    ensures Crc(before + run + after) != Crc(before + other + after)
  {
    var c := Register(ONES, before);
    RegisterJoined(ONES, before + run, after);
    RegisterJoined(ONES, before + other, after);
    RegisterJoined(ONES, before, run);
    RegisterJoined(ONES, before, other);
    if Crc(before + run + after) == Crc(before + other + after) {
      XorTwice(Register(ONES, before + run + after), ONES);
      XorTwice(Register(ONES, before + other + after), ONES);
      assert Crc(before + run + after) == Xor(Register(ONES, before + run + after), ONES);
      assert Crc(before + other + after) == Xor(Register(ONES, before + other + after), ONES);
      hide *;
      RegisterInjective(Register(c, run), Register(c, other), after);
      RunInjective(c, run, other);
    }
  }

  /** Two equal-length messages that differ in exactly one byte never share a CRC. */
  lemma OneByteChangesCrc(data: seq<Byte>, i: nat, b: Byte)
    requires i < |data| && data[i] != b
    ensures Crc(data[i := b]) != Crc(data)
  {
    BurstChangesCrc(data[..i], [data[i]], [b], data[i + 1..]);
    hide *;
    assert data[..i] + [data[i]] + data[i + 1..] == data;
    assert data[..i] + [b] + data[i + 1..] == data[i := b];
  }
}
