/**
 * The linear-feedback shift register of lib/capricious/lfsr.rb: a Fibonacci
 * register of 16, 32 or 64 bits whose feedback bit is the XOR of four fixed
 * taps. The three Ruby shifter modules become one datatype indexed by size.
 */
module Lfsr {
  import opened Bits
  import opened Wrappers

  /** SixtyFourBitShifter, ThirtyTwoBitShifter and SixteenBitShifter. */
  datatype Shifter = SixtyFour | ThirtyTwo | Sixteen {

    /** SIZE */
    function Size(): nat
    {
      match this
      case SixtyFour => 64
      case ThirtyTwo => 32
      case Sixteen => 16
    }

    /** MASK, the SIZE-bit all-ones value */
    function Mask(): nat
    {
      Pow2(Size()) - 1
    }

    /** BITS, the tap list in the 1-based, most-significant-first numbering */
    function TapBits(): seq<nat>
    {
      match this
      case SixtyFour => [64, 63, 61, 60]
      case ThirtyTwo => [32, 31, 30, 10]
      case Sixteen => [16, 14, 13, 11]
    }
  }

  /** The shifter that `initialize` selects; `nil` means `0.size * 8`. */
  function SelectShifter(size: Option<int>, fixnumBytes: int): (s: Shifter)
    ensures var n := if size.Some? then size.value else fixnumBytes * 8;
            s.Size() == (if n == 64 || n == 16 then n else 32)
  {
    var n := if size.Some? then size.value else fixnumBytes * 8;
    if n == 64 then SixtyFour
    else if n == 32 then ThirtyTwo
    else if n == 16 then Sixteen
    else ThirtyTwo
  }

  /** `v & MASK` for any Ruby Integer: two's-complement masking is the Euclidean remainder. */
  function MaskTo(v: int, k: nat): (r: nat)
    ensures r < Pow2(k)
  {
    v % Pow2(k)
  }

  /** On non-negative values the remainder is exactly the bitwise `&` with the mask. */
  lemma MaskToIsAnd(v: nat, k: nat)
    ensures MaskTo(v, k) == And(v, Pow2(k) - 1)
  {
    AndLowMask(v, k);
  }

  /** BITSELECT: `@reg[SIZE-b1] ^ @reg[SIZE-b2] ^ ...`, folded from the left. */
  function Feedback(reg: nat, size: nat, bits: seq<nat>): nat
  {
    if |bits| == 0 then 0
    else if |bits| == 1 then BitAt(reg, if bits[0] <= size then size - bits[0] else 0)
    else
      var last := bits[|bits| - 1];
      Xor(Feedback(reg, size, bits[..|bits| - 1]), BitAt(reg, if last <= size then size - last else 0))
  }

  /** The feedback bit of a shifter. */
  function TapBit(s: Shifter, reg: nat): nat
  {
    Feedback(reg, s.Size(), s.TapBits())
  }

  /** `shift_reg`: `@reg = (@reg >> 1) | (bit << (SIZE - 1))` */
  function ShiftReg(s: Shifter, reg: nat): nat
  {
    Or(Shr(reg, 1), Shl(TapBit(s, reg), s.Size() - 1))
  }

  /** The register positions XORed together, counted from the least significant bit. */
  function TapPositions(s: Shifter): seq<nat>
  {
    match s
    case SixtyFour => [0, 1, 3, 4]
    case ThirtyTwo => [0, 1, 2, 22]
    case Sixteen => [0, 2, 3, 5]
  }

  lemma BitIsBit(a: nat, i: nat)
    ensures BitAt(a, i) < 2
  {
  }

  /** A left fold of XOR over single bits is a single bit. */
  lemma {:induction false} FeedbackIsBit(reg: nat, size: nat, bits: seq<nat>)
    ensures Feedback(reg, size, bits) < 2
  {
    if |bits| > 1 {
      var last := bits[|bits| - 1];
      FeedbackIsBit(reg, size, bits[..|bits| - 1]);
      BitIsBit(reg, if last <= size then size - last else 0);
      XorBit(Feedback(reg, size, bits[..|bits| - 1]), BitAt(reg, if last <= size then size - last else 0));
    }
  }

  /** A four-tap BITSELECT is `((b0 ^ b1) ^ b2) ^ b3`. */
  lemma FeedbackOfFour(reg: nat, size: nat, bits: seq<nat>)
    requires |bits| == 4 && bits[0] <= size && bits[1] <= size && bits[2] <= size && bits[3] <= size
    ensures Feedback(reg, size, bits) ==
            Xor(Xor(Xor(BitAt(reg, size - bits[0]), BitAt(reg, size - bits[1])),
                    BitAt(reg, size - bits[2])), BitAt(reg, size - bits[3]))
  {
    var b3, b2, b1 := bits[..3], bits[..2], bits[..1];
    assert b3[..2] == b2 && b2[..1] == b1;
    assert Feedback(reg, size, b1) == BitAt(reg, size - bits[0]);
    assert Feedback(reg, size, b2) == Xor(Feedback(reg, size, b1), BitAt(reg, size - bits[1]));
    assert Feedback(reg, size, b3) == Xor(Feedback(reg, size, b2), BitAt(reg, size - bits[2]));
  }

  /** The feedback bit is the XOR of the register bits at the listed positions. */
  lemma TapBitIsXorOfPositions(s: Shifter, reg: nat)
    ensures var p := TapPositions(s);
            TapBit(s, reg) == Xor(Xor(Xor(BitAt(reg, p[0]), BitAt(reg, p[1])), BitAt(reg, p[2])), BitAt(reg, p[3]))
  {
    FeedbackOfFour(reg, s.Size(), s.TapBits());
  }

  /** `(reg >> 1) | (bit << k)` on a (k+1)-bit register is an addition and stays k+1 bits wide. */
  lemma ShiftIn(reg: nat, bit: nat, k: nat)
    requires reg < Pow2(k + 1) && bit < 2
    ensures Or(Shr(reg, 1), Shl(bit, k)) == reg / 2 + bit * Pow2(k)
    ensures reg / 2 + bit * Pow2(k) < Pow2(k + 1)
  {
    assert Pow2(k + 1) == 2 * Pow2(k);
    assert Shr(reg, 1) == reg / 2 < Pow2(k);
    OrDisjoint(reg / 2, bit, k);
  }

  /**
   * One shift: the register moves right by one and the feedback bit enters at
   * the top, so a SIZE-bit register stays a SIZE-bit register.
   */
  lemma ShiftStep(s: Shifter, reg: nat)
    requires reg <= s.Mask()
    ensures TapBit(s, reg) < 2
    ensures ShiftReg(s, reg) == reg / 2 + TapBit(s, reg) * Pow2(s.Size() - 1)
    ensures ShiftReg(s, reg) <= s.Mask()
  {
    FeedbackIsBit(reg, s.Size(), s.TapBits());
    ShiftIn(reg, TapBit(s, reg), s.Size() - 1);
  }

  /** The all-zero register is a fixed point. */
  lemma ZeroIsFixed(s: Shifter)
    ensures ShiftReg(s, 0) == 0
  {
    FeedbackOfZero(s.Size(), s.TapBits());
    assert Shr(0, 1) == 0 && Shl(0, s.Size() - 1) == 0;
  }

  /** Every bit of the all-zero register is clear, so its feedback is 0. */
  lemma {:induction false} FeedbackOfZero(size: nat, bits: seq<nat>)
    ensures Feedback(0, size, bits) == 0
  {
    if |bits| > 1 {
      var last := bits[|bits| - 1];
      FeedbackOfZero(size, bits[..|bits| - 1]);
      assert BitAt(0, if last <= size then size - last else 0) == 0;
    }
  }

  /** The register holding 1 has bit 0 set and every other bit clear. */
  lemma BitsOfOne(i: nat)
    ensures BitAt(1, i) == if i == 0 then 1 else 0
  {
    if i > 0 {
      Pow2Monotone(1, i);
    }
  }

  /** Bit 0 is always a tap, so a nonzero register never shifts to zero. */
  lemma NonzeroStaysNonzero(s: Shifter, reg: nat)
    requires 0 < reg <= s.Mask()
    ensures ShiftReg(s, reg) != 0
  {
    ShiftStep(s, reg);
    if reg == 1 {
      TapBitIsXorOfPositions(s, 1);
      var p := TapPositions(s);
      BitsOfOne(p[0]);
      BitsOfOne(p[1]);
      BitsOfOne(p[2]);
      BitsOfOne(p[3]);
      assert TapBit(s, 1) == Xor(Xor(Xor(1, 0), 0), 0) == 1;
    }
  }

  /** One shift keeps a SIZE-bit register SIZE bits wide, and a nonzero one nonzero. */
  lemma ShiftKeepsRange(s: Shifter, reg: nat)
    requires reg <= s.Mask()
    ensures ShiftReg(s, reg) <= s.Mask()
    ensures reg != 0 ==> ShiftReg(s, reg) != 0
  {
    ShiftStep(s, reg);
    if reg != 0 {
      NonzeroStaysNonzero(s, reg);
    }
  }

  /** The values `next` returns, `count` calls in a row, from register `reg`. */
  function Stream(s: Shifter, reg: nat, count: nat): (r: seq<nat>)
    ensures |r| == count
    decreases count
  {
    if count == 0 then [] else [ShiftReg(s, reg)] + Stream(s, ShiftReg(s, reg), count - 1)
  }

  /** Every value of a stream fits the register and, from a nonzero register, is nonzero. */
  lemma {:induction false} StreamInRange(s: Shifter, reg: nat, count: nat)
    requires reg <= s.Mask()
    ensures |Stream(s, reg, count)| == count
    ensures forall i :: 0 <= i < count ==> Stream(s, reg, count)[i] <= s.Mask()
    ensures reg != 0 ==> forall i :: 0 <= i < count ==> Stream(s, reg, count)[i] != 0
  {
    forall i | 0 <= i < count
      ensures Stream(s, reg, count)[i] <= s.Mask()
      ensures reg != 0 ==> Stream(s, reg, count)[i] != 0
    {
      StreamAt(s, reg, count, i);
    }
  }

  /** The i-th value of a stream, by induction on i: in range, and nonzero from a nonzero register. */
  lemma {:induction false} StreamAt(s: Shifter, reg: nat, count: nat, i: nat)
    requires reg <= s.Mask() && i < count
    ensures Stream(s, reg, count)[i] <= s.Mask()
    ensures reg != 0 ==> Stream(s, reg, count)[i] != 0
    decreases i
  {
    var next := ShiftReg(s, reg);
    ShiftKeepsRange(s, reg);
    if i == 0 {
      assert Stream(s, reg, count)[0] == next;
    } else {
      assert Stream(s, reg, count)[i] == Stream(s, next, count - 1)[i - 1];
      StreamAt(s, next, count - 1, i - 1);
    }
  }

  /** Every shifter's MASK is positive, so `next_f` never divides by zero. */
  lemma MaskPositive(s: Shifter)
    ensures s.Mask() >= 1
  {
    Pow2Monotone(1, s.Size());
  }

  /** A register value over MASK lies in the unit interval. */
  lemma FractionInUnit(a: nat, m: nat)
    requires 0 < m && a <= m
    ensures 0.0 <= a as real / m as real <= 1.0
    ensures a > 0 ==> a as real / m as real > 0.0
  {
  }

  class LFSR {
    /** `@ns`, the shifter module chosen at construction */
    var shifter: Shifter
    /** `@seed`, set by the first `reset` only */
    var seed: Option<nat>
    /** `@reg` */
    var reg: nat

    ghost predicate Valid()
      reads this
    {
      && seed.Some?
      && seed.value <= shifter.Mask()
      && reg <= shifter.Mask()
    }

    /**
     * `initialize(size, seed)`. The seed argument is not passed on to `reset`,
     * so the register is seeded from the clock `now`; `fixnumBytes` is `0.size`.
     */
    constructor (size: Option<int>, seed: Option<int>, fixnumBytes: int, now: int)
      ensures Valid()
      ensures shifter == SelectShifter(size, fixnumBytes)
      ensures this.seed == Some(MaskTo(now, shifter.Size()))
      ensures reg == this.seed.value
    {
      shifter := SelectShifter(size, fixnumBytes);
      this.seed := None;
      reg := 0;
      new;
      Reset(None, now);
    }

    /** `reset(seed)`: `@seed ||= (seed || now) & MASK`, then the register restarts at `@seed`. */
    method Reset(seed: Option<int>, now: int)
      requires this.seed.Some? ==> this.seed.value <= shifter.Mask()
      modifies this
      ensures Valid()
      ensures shifter == old(shifter)
      ensures this.seed == if old(this.seed).Some? then old(this.seed)
                           else Some(MaskTo(if seed.Some? then seed.value else now, shifter.Size()))
      ensures reg == this.seed.value
    {
      if this.seed.None? {
        this.seed := Some(MaskTo(if seed.Some? then seed.value else now, shifter.Size()));
      }
      reg := this.seed.value;
    }

    /** `next`: shift once and return the new register. */
    method Next() returns (r: nat)
      requires Valid()
      modifies this
      ensures Valid()
      ensures shifter == old(shifter) && seed == old(seed)
      ensures reg == ShiftReg(shifter, old(reg)) && r == reg
      ensures old(reg) != 0 ==> r != 0
    {
      ShiftStep(shifter, reg);
      if reg != 0 {
        NonzeroStaysNonzero(shifter, reg);
      }
      reg := ShiftReg(shifter, reg);
      r := reg;
    }

    /** `next_f`: the new register divided by MASK, a value in [0, 1]. */
    method NextF() returns (f: real)
      requires Valid()
      modifies this
      ensures Valid()
      ensures shifter == old(shifter) && seed == old(seed)
      ensures reg == ShiftReg(shifter, old(reg))
      ensures f == reg as real / shifter.Mask() as real
      ensures 0.0 <= f <= 1.0
      ensures old(reg) != 0 ==> f > 0.0
    {
      var r := Next();
      MaskPositive(shifter);
      FractionInUnit(reg, shifter.Mask());
      f := reg as real / shifter.Mask() as real;
    }
  }
}
