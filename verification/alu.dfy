/**
  Register arithmetic of the 7XNN, 8XY? and FX?? groups, shared by both
  engine generations: C++ `unsigned char` arithmetic is bv8 arithmetic,
  `unsigned short` arithmetic is bv16 arithmetic. Each operation is written
  in the order the source performs its assignments, because that order
  decides what VF holds when X is F.
 */
module Alu {
  import opened Layout

  /** Register x replaced, the other fifteen untouched. */
  function Put(v: Registers, x: Nibble, b: bv8): (r: Registers)
    ensures r[x] == b
    ensures forall i: Nibble :: i != x ==> r[i] == v[i]
  {
    v[x := b]
  }

  /** Byte addition: the sum modulo 256. */
  function Sum(a: bv8, b: bv8): (s: bv8)
    ensures s as bv16 == (a as bv16 + b as bv16) % 256
  {
    a + b
  }

  /** The source's overflow test `r > 0xFF - s`: 1 exactly when r + s carries. */
  function Carry(a: bv8, b: bv8): (f: bv8)
    ensures f == 1 <==> a as int + b as int > 255
    ensures f == 0 <==> a as int + b as int <= 255
  {
    if a > 0xFF - b then 1 else 0
  }

  /** Byte subtraction: undoes addition, and is exact when it does not borrow. */
  function Difference(a: bv8, b: bv8): (d: bv8)
    ensures d + b == a
    ensures b <= a ==> d as bv16 == a as bv16 - b as bv16
  {
    a - b
  }

  /** The source's borrow test for a - b, `b > a ? 0 : 1`: 1 means no borrow. */
  function NoBorrow(a: bv8, b: bv8): (f: bv8)
    ensures f == 0 <==> b > a
    ensures f == 1 <==> b <= a
  {
    if b > a then 0 else 1
  }

  /** `s >> 1`, `s & 1`, `s << 1` and `s >> 7` as the arithmetic they are. */
  function Half(s: bv8): (h: bv8)
    ensures h as int == s as int / 2
  {
    s >> 1
  }

  function LowBit(s: bv8): (b: bv8)
    ensures b as int == s as int % 2
  {
    s & 1
  }

  function Double(s: bv8): (d: bv8)
    ensures d as int == (s as int * 2) % 256
  {
    s << 1
  }

  function HighBit(s: bv8): (b: bv8)
    ensures b == 1 <==> s as int >= 128
    ensures b == 0 <==> s as int < 128
  {
    s >> 7
  }

  /** 7XNN: V[X] += NN, wrapping; VF is not a carry here. */
  function AddImm(v: Registers, x: Nibble, nn: bv8): (r: Registers)
    ensures r[x] == Sum(v[x], nn)
    ensures forall i: Nibble :: i != x ==> r[i] == v[i]
  {
    Put(v, x, Sum(v[x], nn))
  }

  /** 8XY4: the sum is stored first, then the carry, so with X = F the carry
      is what VF keeps. */
  function AddCarry(v: Registers, x: Nibble, y: Nibble): (r: Registers)
    ensures r[VF] == Carry(v[x], v[y])
    ensures x != VF ==> r[x] == Sum(v[x], v[y])
    ensures forall i: Nibble :: i != x && i != VF ==> r[i] == v[i]
  {
    var a, b := v[x], v[y];
    Put(Put(v, x, Sum(a, b)), VF, Carry(a, b))
  }

  /** 8XY5: V[X] -= V[Y], then the no-borrow flag, which wins when X = F. */
  function Sub(v: Registers, x: Nibble, y: Nibble): (r: Registers)
    ensures r[VF] == NoBorrow(v[x], v[y])
    ensures x != VF ==> r[x] == Difference(v[x], v[y])
    ensures forall i: Nibble :: i != x && i != VF ==> r[i] == v[i]
  {
    var a, b := v[x], v[y];
    Put(Put(v, x, Difference(a, b)), VF, NoBorrow(a, b))
  }

  /** 8XY7: V[X] = V[Y] - V[X], then the no-borrow flag of that difference. */
  function SubReversed(v: Registers, x: Nibble, y: Nibble): (r: Registers)
    ensures r[VF] == NoBorrow(v[y], v[x])
    ensures x != VF ==> r[x] == Difference(v[y], v[x])
    ensures forall i: Nibble :: i != x && i != VF ==> r[i] == v[i]
  {
    var a, b := v[x], v[y];
    Put(Put(v, x, Difference(b, a)), VF, NoBorrow(b, a))
  }

  /** A right shift of `s` into V[X] with the flag written first, as the newer
      engine does (there `s` is V[X] itself): when X is F the shifted value
      overwrites the flag. */
  function ShiftRightFlagFirst(v: Registers, x: Nibble, s: bv8): (r: Registers)
    ensures r[x] == Half(s)
    ensures x != VF ==> r[VF] == LowBit(s)
    ensures forall i: Nibble :: i != x && i != VF ==> r[i] == v[i]
  {
    Put(Put(v, VF, s & 1), x, s >> 1)
  }

  /** A right shift of `s` into V[X] with the flag written last, as the older
      engine does (there `s` is V[Y]): when X is F the flag survives. */
  function ShiftRightFlagLast(v: Registers, x: Nibble, s: bv8): (r: Registers)
    ensures r[VF] == LowBit(s)
    ensures x != VF ==> r[x] == Half(s)
    ensures forall i: Nibble :: i != x && i != VF ==> r[i] == v[i]
  {
    Put(Put(v, x, s >> 1), VF, s & 1)
  }

  /** A left shift of `s` into V[X], flag (the bit shifted out) first; both
      engines write in this order, so the value wins when X is F. */
  function ShiftLeftFlagFirst(v: Registers, x: Nibble, s: bv8): (r: Registers)
    ensures r[x] == Double(s)
    ensures x != VF ==> r[VF] == HighBit(s)
    ensures forall i: Nibble :: i != x && i != VF ==> r[i] == v[i]
  {
    Put(Put(v, VF, s >> 7), x, s << 1)
  }

  /** CXNN: the random byte masked with NN. */
  function Masked(rnd: bv8, nn: bv8): (b: bv8)
    ensures b & !nn == 0
    ensures b | nn == nn
    ensures nn == 0xFF ==> b == rnd
  {
    rnd & nn
  }

  /** FX1E: index += V[X] in 16-bit arithmetic, so the sum wraps at 65536. */
  function AddIndex(index: bv16, b: bv8): (r: bv16)
    ensures r as bv32 == (index as bv32 + b as bv32) % 0x1_0000
  {
    index + b as bv16
  }

  /** BNNN: V0 + NNN, computed in `int` and stored in the 16-bit program
      counter; it cannot wrap, the largest value being 0xFF + 0xFFF. */
  function Offset(b: bv8, t: bv16): (p: bv16)
    requires t < 0x1000
    ensures p as bv32 == b as bv32 + t as bv32
    ensures p < 0x1100
  {
    b as bv16 + t
  }

  /** FX29: index = V[X] * 5, the address of glyph V[X] when V[X] < 16. */
  function FontAddress(b: bv8): (a: bv16)
    ensures a as int == b as int * BytesPerFontChar
    ensures b < 16 ==> a as int + BytesPerFontChar <= FontSize
  {
    (b as bv16) * 5
  }

  /** FX33: hundreds, tens and units of a byte. */
  function Bcd(t: bv8): (d: seq<bv8>)
    ensures |d| == 3 && d[0] < 10 && d[1] < 10 && d[2] < 10
    ensures d[0] as int * 100 + d[1] as int * 10 + d[2] as int == t as int
  {
    [t / 100, t / 10 % 10, t % 10]
  }

  /** One 60 Hz tick of a timer: count down, but never below zero. */
  function Tick(t: bv8): (r: bv8)
    ensures t == 0 ==> r == 0
    ensures t > 0 ==> r as int == t as int - 1
  {
    if t > 0 then t - 1 else t
  }

  /** `k` consecutive ticks. */
  function Ticks(t: bv8, k: nat): bv8
  {
    if k == 0 then t else Tick(Ticks(t, k - 1))
  }

  /** Ticking saturates: after k ticks a timer holds max(t - k, 0). */
  lemma {:induction false} TicksSaturate(t: bv8, k: nat)
    ensures Ticks(t, k) as int == if t as int >= k then t as int - k else 0
  {
    if k > 0 {
      TicksSaturate(t, k - 1);
    }
  }
}
