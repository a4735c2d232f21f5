/**
 * The five-word generator of lib/capricious/mwc5.rb: an xorshift over the
 * words x, y, z, w, v whose output is the product of the (odd) y with the new
 * v, truncated to 32 bits. Ruby integers never overflow, so every `& 0xffffffff`
 * of the source appears here as an explicit `And` with `Mask32`.
 */
module Mwc5 {
  import opened Bits
  import opened Wrappers
  import opened Lfsr

  /** 2^32 */
  const M32: nat := 0x1_0000_0000
  /** `0xffffffff` */
  const Mask32: nat := 0xffff_ffff
  /** `0x7fffffff << 1`, which is what `@y & 0x7fffffff << 1` masks with */
  const EvenMask32: nat := 0xffff_fffe

  lemma Pow2ThirtyTwo()
    ensures Pow2(31) == 0x8000_0000 && Pow2(32) == M32
  {
    assert Pow2(4) == 16;
    Pow2Add(4, 4);
    Pow2Add(8, 8);
    Pow2Add(16, 16);
  }

  /** The low 32 bits of a word. */
  function Low32(a: nat): (r: nat)
    ensures r < M32
  {
    a % M32
  }

  /** `a & 0xffffffff` keeps exactly the low 32 bits. */
  lemma AndMask32(a: nat)
    ensures And(a, Mask32) == Low32(a)
  {
    Pow2ThirtyTwo();
    AndLowMask(a, 32);
  }

  /** The five state words `@x, @y, @z, @w, @v`. */
  datatype Words = Words(x: nat, y: nat, z: nat, w: nat, v: nat)

  /** Every word fits in 32 bits. */
  predicate Fits(s: Words)
  {
    s.x < M32 && s.y < M32 && s.z < M32 && s.w < M32 && s.v < M32
  }

  /** `t = (x ^ (x >> 7)) & 0xffffffff` */
  function Tmix(x: nat): nat
  {
    And(Xor(x, Shr(x, 7)), Mask32)
  }

  /**
   * `(v ^ (v << 6)) ^ (t ^ (t << 13)) & 0xffffffff` as Ruby parses it: `&` binds
   * tighter than `^`, so only the t-part is masked and v keeps its high bits.
   */
  function NewVAsWritten(v: nat, t: nat): nat
  {
    Xor(Xor(v, Shl(v, 6)), And(Xor(t, Shl(t, 13)), Mask32))
  }

  /** The new v with the whole expression masked, as the bignum-avoidance comment intends. */
  function NewVCorrected(v: nat, t: nat): nat
  {
    And(Xor(Xor(v, Shl(v, 6)), Xor(t, Shl(t, 13))), Mask32)
  }

  /** `((y & 0x7fffffff << 1) + 1) & 0xffffffff`: y with bit 0 forced on. */
  function Yy(y: nat): nat
  {
    And(And(y, EvenMask32) + 1, Mask32)
  }

  /** `(yy * v) & 0xffffffff` */
  function Output(yy: nat, v: nat): nat
  {
    And(yy * v, Mask32)
  }

  /** `shift_ks` on the state, as written: the words rotate and the new v enters last. */
  function StepAsWritten(s: Words): Words
  {
    Words(s.y, s.z, s.w, s.v, NewVAsWritten(s.v, Tmix(s.x)))
  }

  /** `shift_ks` with the new v truncated to 32 bits. */
  function StepCorrected(s: Words): Words
  {
    Words(s.y, s.z, s.w, s.v, NewVCorrected(s.v, Tmix(s.x)))
  }

  /** The value `shift_ks` returns, computed from the state it has just produced. */
  function OutputOf(s: Words): nat
  {
    Output(Yy(s.y), s.v)
  }

  /** `t` is a 32-bit word. */
  lemma TmixFits(x: nat)
    ensures Tmix(x) < M32
  {
    AndMask32(Xor(x, Shr(x, 7)));
  }

  /** `y & (2^(k+1) - 2)` is y's bits 1..k: the low k+1 bits with bit 0 cleared. */
  lemma AndEvenMask(y: nat, k: nat)
    ensures And(y, 2 * (Pow2(k) - 1)) == 2 * ((y / 2) % Pow2(k))
  {
    if y != 0 && k != 0 {
      var m := Pow2(k) - 1;
      assert (2 * m) / 2 == m && (2 * m) % 2 == 0;
      assert And(y, 2 * m) == 2 * And(y / 2, m);
      AndLowMask(y / 2, k);
    }
  }

  /**
   * `yy` is the low 32 bits of y with bit 0 set: it is odd, fits in 32 bits, and
   * needs no final mask.
   */
  lemma YyIsOddLow32(y: nat)
    ensures Yy(y) == 2 * (Low32(y) / 2) + 1
    ensures Yy(y) % 2 == 1 && Yy(y) < M32
  {
    Pow2ThirtyTwo();
    assert EvenMask32 == 2 * (Pow2(31) - 1);
    AndEvenMask(y, 31);
    var h := (y / 2) % Pow2(31);
    assert And(y, EvenMask32) == 2 * h;
    DivModPow2Step(y, 32);
    assert Low32(y) == 2 * h + y % 2;
    DivModUnique(Low32(y), 2, h, y % 2);
    assert 2 * h + 1 < M32;
    DivModUnique(2 * h + 1, M32, 0, 2 * h + 1);
    calc {
      Yy(y);
      And(And(y, EvenMask32) + 1, Mask32);
      And(2 * h + 1, Mask32);
      { AndMask32(2 * h + 1); }
      (2 * h + 1) % M32;
      2 * h + 1;
      2 * (Low32(y) / 2) + 1;
    }
  }

  /** `(a * v) mod m` depends only on `v mod m`. */
  lemma MulMod(a: nat, v: nat, m: nat)
    requires m > 0
    ensures (a * v) % m == (a * (v % m)) % m
  {
    var q, r := v / m, v % m;
    var q2, r2 := (a * r) / m, (a * r) % m;
    assert a * v == a * (m * q + r) == m * (a * q) + a * r;
    assert a * r == m * q2 + r2;
    assert a * v == m * (a * q + q2) + r2;
    DivModUnique(a * v, m, a * q + q2, r2);
  }

  /** Each output is the 32-bit product of yy and the low 32 bits of v. */
  lemma OutputIsLowProduct(yy: nat, v: nat)
    ensures Output(yy, v) == (yy * Low32(v)) % M32
    ensures Output(yy, v) <= Mask32
  {
    AndMask32(yy * v);
    MulMod(yy, v, M32);
  }

  /** The corrected v keeps the state in 32-bit words. */
  lemma CorrectedStepFits(s: Words)
    ensures Fits(s) ==> Fits(StepCorrected(s))
  {
    AndMask32(Xor(Xor(s.v, Shl(s.v, 6)), Xor(Tmix(s.x), Shl(Tmix(s.x), 13))));
  }

  /** Whatever its high bits, the v the source produces has the corrected v as its low 32 bits. */
  lemma AsWrittenAgreesLow32(v: nat, t: nat)
    ensures Low32(NewVAsWritten(v, t)) == NewVCorrected(v, t)
  {
    Pow2ThirtyTwo();
    var a, b := Xor(v, Shl(v, 6)), Xor(t, Shl(t, 13));
    var b' := Low32(b);
    AndMask32(b);
    AndMask32(Xor(a, b));
    DivModUnique(b', M32, 0, b');
    XorMod(a, b', 32);
    XorMod(a, b, 32);
    calc {
      Low32(NewVAsWritten(v, t));
      Low32(Xor(a, b'));
      Xor(a % M32, b');
      Low32(Xor(a, b));
    }
  }

  /** So one step of either version returns the same value. */
  lemma OutputsAgree(s: Words)
    ensures OutputOf(StepAsWritten(s)) == OutputOf(StepCorrected(s))
  {
    var t := Tmix(s.x);
    var vc := NewVCorrected(s.v, t);
    AsWrittenAgreesLow32(s.v, t);
    AndMask32(Xor(Xor(s.v, Shl(s.v, 6)), Xor(t, Shl(t, 13))));
    DivModUnique(vc, M32, 0, vc);
    SameLowSameOutput(Yy(s.z), NewVAsWritten(s.v, t), vc);
  }

  /** Two v with the same low 32 bits give the same output. */
  lemma SameLowSameOutput(yy: nat, v1: nat, v2: nat)
    requires Low32(v1) == Low32(v2)
    ensures Output(yy, v1) == Output(yy, v2)
  {
    OutputIsLowProduct(yy, v1);
    OutputIsLowProduct(yy, v2);
  }

  /**
   * The source's step leaves 32 bits: any 32-bit v of at least 2^26 is shifted
   * by 6 past bit 31, and the mask does not remove it.
   */
  lemma AsWrittenVEscapes(v: nat, t: nat)
    requires Pow2(26) <= v < M32
    ensures NewVAsWritten(v, t) >= M32
  {
    Pow2ThirtyTwo();
    var a, b := Xor(v, Shl(v, 6)), And(Xor(t, Shl(t, 13)), Mask32);
    AndMask32(Xor(t, Shl(t, 13)));
    XorComm(a, b);
    XorKeepsHigh(b, a, 32);
    XorShr(v, Shl(v, 6), 32);
    DivModUnique(v, Pow2(32), 0, v);
    assert Shr(v, 32) == 0;
    ShiftedPastBit31(v);
    assert Shr(Shl(v, 6), 32) >= 1;
    assert Shr(NewVAsWritten(v, t), 32) >= 1;
  }

  /** A value of at least 2^26, shifted left by 6, reaches 2^32. */
  lemma ShiftedPastBit31(v: nat)
    requires Pow2(26) <= v
    ensures Shl(v, 6) >= Pow2(32)
  {
    Pow2Add(26, 6);
    var p := Pow2(6);
    assert p >= 1;
    MulMonotone(Pow2(26), v, p);
  }

  /** Multiplying by a non-negative factor keeps the order. */
  lemma MulMonotone(a: nat, b: nat, p: nat)
    requires a <= b
    ensures a * p <= b * p
  {
  }

  /** A concrete state: all words zero except v = 2^31; one step makes v at least 2^32. */
  lemma AsWrittenCounterexample()
    ensures Fits(Words(0, 0, 0, 0, 0x8000_0000))
    ensures !Fits(StepAsWritten(Words(0, 0, 0, 0, 0x8000_0000)))
  {
    Pow2ThirtyTwo();
    Pow2Monotone(26, 31);
    AsWrittenVEscapes(0x8000_0000, Tmix(0));
  }

  /** The state as a seed list: `@x, @y, @z, @w, @v = @seeds`. */
  function Unpack(ws: seq<nat>): Words
    requires |ws| == 5
  {
    Words(ws[0], ws[1], ws[2], ws[3], ws[4])
  }

  /** `seeder.next_i & 0xffffffff` for each of the five seeder draws. */
  function MaskSeeds(draws: seq<nat>): (r: seq<nat>)
    ensures |r| == |draws|
    ensures forall i :: 0 <= i < |r| ==> r[i] == Low32(draws[i]) && r[i] < M32
  {
    seq(|draws|, i requires 0 <= i < |draws| => Low32(draws[i]))
  }

  // ------------------------------------------------------------- the seeder

  /**
   * The seeder as `reset` is written: `LFSR.new_with_seed(@seed)` passes the
   * seed to `initialize`, which does not hand it on to `reset`, so the
   * register starts from the clock.
   */
  function SeederRegAsWritten(seed: int, fixnumBytes: int, now: int): (r: nat)
    ensures r <= SelectShifter(None, fixnumBytes).Mask()
  {
    var s := SelectShifter(None, fixnumBytes);
    MaskTo(now, s.Size())
  }

  /**
   * The seed words as `reset` is written: the first `seeder.next_i` raises
   * NoMethodError, since LFSR defines only `next` and `next_f`.
   */
  function SeedWordsAsWritten(seed: int, fixnumBytes: int, now: int): (r: Result<seq<nat>>)
  {
    var _ := SeederRegAsWritten(seed, fixnumBytes, now);
    Err(NoMethodError)
  }

  /** As written, constructing an MWC5 raises for every seed and clock. */
  lemma AsWrittenSeedingRaises(seed: int, fixnumBytes: int, now: int)
    ensures SeedWordsAsWritten(seed, fixnumBytes, now) == Err(NoMethodError)
  {
  }

  /** As written, the seeder's register does not depend on the seed at all: any two seeds start it alike. */
  lemma AsWrittenSeedIgnored(seed1: int, seed2: int, fixnumBytes: int, now: int)
    ensures SeederRegAsWritten(seed1, fixnumBytes, now) == SeederRegAsWritten(seed2, fixnumBytes, now)
  {
  }

  /**
   * The five seeder draws `reset` evidently intends: an LFSR of the default
   * size started from `@seed & MASK`, read at the first call and then after
   * each run of nine skipped calls.
   */
  function SeederDraws(seed: int, fixnumBytes: int): (r: seq<nat>)
    ensures |r| == 5
  {
    var s := SelectShifter(None, fixnumBytes);
    var st := Stream(s, MaskTo(seed, s.Size()), 41);
    seq(5, k requires 0 <= k < 5 => st[10 * k])
  }

  /**
   * Each intended draw is a register value, nonzero when the masked seed is
   * nonzero.
   */
  lemma SeederDrawsInRange(seed: int, fixnumBytes: int)
    ensures var s := SelectShifter(None, fixnumBytes);
            var r := SeederDraws(seed, fixnumBytes);
            && (forall k :: 0 <= k < 5 ==> r[k] <= s.Mask())
            && (MaskTo(seed, s.Size()) != 0 ==> forall k :: 0 <= k < 5 ==> r[k] != 0)
  {
    var s := SelectShifter(None, fixnumBytes);
    var reg := MaskTo(seed, s.Size());
    var st := Stream(s, reg, 41);
    StreamInRange(s, reg, 41);
    var r := SeederDraws(seed, fixnumBytes);
    forall k | 0 <= k < 5 ensures r[k] == st[10 * k] <= s.Mask() && (reg != 0 ==> r[k] != 0) {
    }
  }

  class MWC5 {
    /** `@seed`, set once */
    var seed: Option<int>
    /** `@seeds`, the five cached seed words, set once */
    var seeds: Option<seq<nat>>
    var x: nat
    var y: nat
    var z: nat
    var w: nat
    var v: nat

    function State(): Words
      reads this
    {
      Words(x, y, z, w, v)
    }

    ghost predicate Valid()
      reads this
    {
      && seed.Some?
      && seeds.Some?
      && |seeds.value| == 5
      && Fits(State())
      && forall i :: 0 <= i < 5 ==> seeds.value[i] < M32
    }

    /**
     * `initialize(seed)`. The clock `now` stands for `Time.now.utc.to_i`, and
     * `draws` for the five seeder values taken ten apart.
     */
    constructor (seed: Option<int>, now: int, draws: seq<nat>)
      requires |draws| == 5
      ensures Valid()
      ensures this.seed == Some(if seed.Some? then seed.value else now)
      ensures seeds == Some(MaskSeeds(draws))
      ensures State() == Unpack(seeds.value) && Fits(State())
    {
      this.seed := None;
      seeds := None;
      x, y, z, w, v := 0, 0, 0, 0, 0;
      new;
      Reset(seed, now, draws);
    }

    /**
     * `MWC5.new_with_seed(seed)` with the seeder seeded as intended: the
     * seed words come from an LFSR started from the seed, so the same seed
     * gives the same state whatever the clock.
     */
    constructor WithSeed(seed: int, fixnumBytes: int)
      ensures Valid()
      ensures this.seed == Some(seed)
      ensures seeds == Some(MaskSeeds(SeederDraws(seed, fixnumBytes)))
      ensures State() == Unpack(seeds.value)
    {
      this.seed := None;
      seeds := None;
      x, y, z, w, v := 0, 0, 0, 0, 0;
      new;
      Reset(Some(seed), 0, SeederDraws(seed, fixnumBytes));
    }

    /** `reset(seed)`: the seed and seed words are computed once; the state always restarts from them. */
    method Reset(seed: Option<int>, now: int, draws: seq<nat>)
      requires |draws| == 5
      requires seeds.Some? ==> |seeds.value| == 5 && forall i :: 0 <= i < 5 ==> seeds.value[i] < M32
      modifies this
      ensures this.seed == if old(this.seed).Some? then old(this.seed)
                           else Some(if seed.Some? then seed.value else now)
      ensures seeds == if old(seeds).Some? then old(seeds) else Some(MaskSeeds(draws))
      ensures Valid()
      ensures State() == Unpack(seeds.value) && Fits(State())
    {
      if this.seed.None? {
        this.seed := Some(if seed.Some? then seed.value else now);
      }
      if seeds.None? {
        seeds := Some(MaskSeeds(draws));
      }
      var ws := seeds.value;
      x, y, z, w, v := ws[0], ws[1], ws[2], ws[3], ws[4];
    }

    /**
     * `next_i`, that is `shift_ks`: rotate the words, append the new v,
     * return the 32-bit product. The new v is masked to 32 bits as a whole
     * (StepCorrected), so every word stays a 32-bit word.
     */
    method NextI() returns (r: nat)
      requires Valid()
      modifies this
      ensures Valid()
      ensures seed == old(seed) && seeds == old(seeds)
      ensures State() == StepCorrected(old(State()))
      ensures r == OutputOf(State())
      ensures r <= Mask32
    {
      CorrectedStepFits(State());
      var t := Tmix(x);
      x, y, z, w, v := y, z, w, v, NewVCorrected(v, t);
      var yy := Yy(y);
      r := Output(yy, v);
      OutputIsLowProduct(yy, v);
    }

    /** `next_f`: `next_i.quo(0xffffffff)`, a value in [0, 1]. */
    method NextF() returns (f: real)
      requires Valid()
      modifies this
      ensures Valid()
      ensures seed == old(seed) && seeds == old(seeds)
      ensures State() == StepCorrected(old(State()))
      ensures f == OutputOf(State()) as real / Mask32 as real
      ensures 0.0 <= f <= 1.0
    {
      var r := NextI();
      f := r as real / Mask32 as real;
    }
  }
}
