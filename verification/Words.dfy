/** The shifts, masks and ors of the codec on machine words, and the arithmetic the rest of the model uses. */
module Words {
  import opened Bytes

  // ---- What the code computes ------------------------------------------------------------------------------------

  /** `append_u32`: the octets pushed, first to last. */
  function Shifted(w: bv32): seq<bv32>
  {
    [(w >> 24) & 0xFF, (w >> 16) & 0xFF, (w >> 8) & 0xFF, w & 0xFF]
  }

  /** `read_u32` on four octets. */
  function Ored(a: bv8, b: bv8, c: bv8, d: bv8): bv32
  {
    ((a as bv32) << 24) | ((b as bv32) << 16) | ((c as bv32) << 8) | (d as bv32)
  }

  /** Reading the octets pushed gives the word back. */
  lemma OrsUndoShifts(w: bv32)
    ensures Ored(((w >> 24) & 0xFF) as bv8, ((w >> 16) & 0xFF) as bv8, ((w >> 8) & 0xFF) as bv8, (w & 0xFF) as bv8) == w
  {
  }

  /** Pushing the word read gives the octets back. */
  lemma ShiftsUndoOrs(a: bv8, b: bv8, c: bv8, d: bv8)
    ensures Shifted(Ored(a, b, c, d)) == [a as bv32, b as bv32, c as bv32, d as bv32]
  {
  }

  // ---- The value of a word, bit by bit -----------------------------------------------------------------------------

  function Bit(w: bv32): (b: nat)
    ensures b <= 1
  {
    if w & 1 == 1 then 1 else 0
  }

  /** The number written by the `n` lowest bits. */
  function Value(w: bv32, n: nat): nat
  {
    if n == 0 then 0 else 2 * Value(w >> 1, n - 1) + Bit(w)
  }

  function LowOctet(w: bv32): (r: nat)
    ensures r < 256
  {
    Sum8(Bit(w), Bit(w >> 1), Bit(w >> 2), Bit(w >> 3), Bit(w >> 4), Bit(w >> 5), Bit(w >> 6), Bit(w >> 7))
  }

  /** `next` is `w` without its lowest bit. */
  ghost predicate Halves(w: bv32, next: bv32) { next == w >> 1 }

  lemma {:induction false} OneBit(w: bv32, next: bv32, n: nat)
    requires Halves(w, next)
    ensures Value(w, n + 1) == 2 * Value(next, n) + Bit(w)
  {
    hide Bit;
  }

  lemma {:induction false} FourBits(w: bv32, w1: bv32, w2: bv32, w3: bv32, w4: bv32, n: nat)
    requires Halves(w, w1) && Halves(w1, w2) && Halves(w2, w3) && Halves(w3, w4)
    ensures Value(w, n + 4) == 16 * Value(w4, n) + 8 * Bit(w3) + 4 * Bit(w2) + 2 * Bit(w1) + Bit(w)
  {
    hide Bit, Value, Halves;
    OneBit(w, w1, n + 3);
    OneBit(w1, w2, n + 2);
    OneBit(w2, w3, n + 1);
    OneBit(w3, w4, n);
  }

  lemma ShiftSteps(w: bv32)
    ensures Halves(w, w >> 1) && Halves(w >> 1, w >> 2) && Halves(w >> 2, w >> 3) && Halves(w >> 3, w >> 4)
    ensures Halves(w >> 4, w >> 5) && Halves(w >> 5, w >> 6) && Halves(w >> 6, w >> 7) && Halves(w >> 7, w >> 8)
  {
  }

  /** The sum of eight bits. */
  function Sum8(b0: nat, b1: nat, b2: nat, b3: nat, b4: nat, b5: nat, b6: nat, b7: nat): nat
  {
    b0 + 2 * b1 + 4 * b2 + 8 * b3 + 16 * b4 + 32 * b5 + 64 * b6 + 128 * b7
  }

  lemma {:induction false} EightSteps(w: bv32, w1: bv32, w2: bv32, w3: bv32, w4: bv32, w5: bv32, w6: bv32, w7: bv32, w8: bv32, n: nat)
    requires Halves(w, w1) && Halves(w1, w2) && Halves(w2, w3) && Halves(w3, w4)
    requires Halves(w4, w5) && Halves(w5, w6) && Halves(w6, w7) && Halves(w7, w8)
    ensures Value(w, n + 8) == 256 * Value(w8, n) + Sum8(Bit(w), Bit(w1), Bit(w2), Bit(w3), Bit(w4), Bit(w5), Bit(w6), Bit(w7))
  {
    hide Bit, Value, Halves;
    FourBits(w, w1, w2, w3, w4, n + 4);
    FourBits(w4, w5, w6, w7, w8, n);
  }

  /** `next` is `w` without its lowest octet. */
  ghost predicate Drops8(w: bv32, next: bv32) { next == w >> 8 }

  lemma {:induction false} EightBits(w: bv32, next: bv32, n: nat)
    requires Drops8(w, next)
    ensures Value(w, n + 8) == 256 * Value(next, n) + LowOctet(w)
  {
    ShiftSteps(w);
    hide Bit, Value, Halves;
    EightSteps(w, w >> 1, w >> 2, w >> 3, w >> 4, w >> 5, w >> 6, w >> 7, next, n);
  }

  lemma MaskedBits(w: bv32)
    ensures Bit(w & 0xFF) == Bit(w) && Bit((w & 0xFF) >> 1) == Bit(w >> 1) && Bit((w & 0xFF) >> 2) == Bit(w >> 2)
    ensures Bit((w & 0xFF) >> 3) == Bit(w >> 3) && Bit((w & 0xFF) >> 4) == Bit(w >> 4) && Bit((w & 0xFF) >> 5) == Bit(w >> 5)
    ensures Bit((w & 0xFF) >> 6) == Bit(w >> 6) && Bit((w & 0xFF) >> 7) == Bit(w >> 7)
  {
  }

  /** `low` is `w` masked with 0xFF. */
  ghost predicate IsMasked(w: bv32, low: bv32) { low == w & 0xFF }

  lemma {:induction false} MaskedOctet(w: bv32, low: bv32)
    requires IsMasked(w, low)
    ensures LowOctet(low) == LowOctet(w)
  {
    MaskedBits(w);
    hide Bit;
  }

  lemma NoBits(w: bv32)
    ensures Value(w, 0) == 0
  {
  }

  /** The values of octets held in words. */
  function Values(octets: seq<bv32>): (r: seq<byte>)
    ensures |r| == |octets|
  {
    seq(|octets|, i requires 0 <= i < |octets| => LowOctet(octets[i]))
  }

  lemma {:induction false} OneOctet(x: nat, high: nat, low: nat, width: nat)
    requires x == 256 * high + low && low < 256 && width > 0
    ensures BigEndian(x, width) == BigEndian(high, width - 1) + [low]
  {
    assert x / 256 == high && x % 256 == low;
  }

  lemma {:induction false} FourOctets(x: nat, x8: nat, x16: nat, x24: nat, top: nat, a: nat, b: nat, c: nat, d: nat)
    requires x == 256 * x8 + a && x8 == 256 * x16 + b && x16 == 256 * x24 + c && x24 == 256 * top + d
    requires a < 256 && b < 256 && c < 256 && d < 256
    ensures BigEndian(x, 4) == [d, c, b, a] && (top == 0 ==> x < TWO_32)
  {
    OneOctet(x, x8, a, 4);
    OneOctet(x8, x16, b, 3);
    OneOctet(x16, x24, c, 2);
    OneOctet(x24, top, d, 1);
    assert BigEndian(top, 0) == [];
  }

  lemma {:induction false} BigEndianOfOctets(w: bv32, w8: bv32, w16: bv32, w24: bv32, top: bv32)
    requires Drops8(w, w8) && Drops8(w8, w16) && Drops8(w16, w24) && Drops8(w24, top)
    ensures BigEndian(Value(w, 32), 4) == [LowOctet(w24), LowOctet(w16), LowOctet(w8), LowOctet(w)]
    ensures Value(w, 32) < TWO_32
  {
    NoBits(top);
    hide Value, LowOctet, BigEndian, Drops8;
    EightBits(w, w8, 24);
    EightBits(w8, w16, 16);
    EightBits(w16, w24, 8);
    EightBits(w24, top, 0);
    FourOctets(Value(w, 32), Value(w8, 24), Value(w16, 16), Value(w24, 8), Value(top, 0),
               LowOctet(w), LowOctet(w8), LowOctet(w16), LowOctet(w24));
  }

  lemma OctetShifts(w: bv32)
    ensures Drops8(w, w >> 8) && Drops8(w >> 8, w >> 16) && Drops8(w >> 16, w >> 24) && Drops8(w >> 24, (w >> 24) >> 8)
    ensures IsMasked(w, w & 0xFF) && IsMasked(w >> 8, (w >> 8) & 0xFF)
    ensures IsMasked(w >> 16, (w >> 16) & 0xFF) && IsMasked(w >> 24, (w >> 24) & 0xFF)
  {
  }

  lemma ValuesOfFour(a: bv32, b: bv32, c: bv32, d: bv32)
    ensures Values([a, b, c, d]) == [LowOctet(a), LowOctet(b), LowOctet(c), LowOctet(d)]
  {
    hide LowOctet;
  }

  /** The octets that the shifts and masks push are the big-endian octets of the word's value. */
  lemma {:induction false} ShiftsAreBigEndianOctets(w: bv32)
    ensures Values(Shifted(w)) == BigEndian(Value(w, 32), 4) && Value(w, 32) < TWO_32
  {
    hide Value, LowOctet, BigEndian, Bit, Values, Drops8, IsMasked;
    OctetShifts(w);
    BigEndianOfOctets(w, w >> 8, w >> 16, w >> 24, (w >> 24) >> 8);
    MaskedOctet(w, w & 0xFF);
    MaskedOctet(w >> 8, (w >> 8) & 0xFF);
    MaskedOctet(w >> 16, (w >> 16) & 0xFF);
    MaskedOctet(w >> 24, (w >> 24) & 0xFF);
    ValuesOfFour((w >> 24) & 0xFF, (w >> 16) & 0xFF, (w >> 8) & 0xFF, w & 0xFF);
  }

  /** The word that the shifts and ors read is the big-endian number of its octets. */
  lemma {:induction false} OrsAreBigEndianWord(a: bv8, b: bv8, c: bv8, d: bv8)
    ensures Value(Ored(a, b, c, d), 32) == FromBigEndian(Values([a as bv32, b as bv32, c as bv32, d as bv32]))
  {
    hide Value, LowOctet, BigEndian, FromBigEndian, Values, Power256;
    var w := Ored(a, b, c, d);
    ShiftsAreBigEndianOctets(w);
    ShiftsUndoOrs(a, b, c, d);
    Power256Of4();
    BigEndianInverse(Value(w, 32), 4);
  }
}
