/**
 * The integer part of the random generators of UniformRandomGenerator.hpp.
 *
 * `UniformRandomGeneratorBase<T>` is the K&R linear congruential generator:
 * the state is advanced by `state * IA + IC` in T, relying on unsigned
 * overflow to wrap, and the output is the state masked with IM - 1. The model
 * fixes T to a 32-bit unsigned integer, so the step is taken modulo 2^32.
 * `ParkMillerRNGBase` is modelled only through its seed accessors.
 */
module UniformRandom {

  newtype uint32 = x: int | 0 <= x < 0x1_0000_0000

  const IA: int := 1103515245
  const IC: int := 12345
  const IM: int := 2147483648

  /** The state step `current_random * IA + IC`, wrapping at 2^32. */
  function Next(state: uint32): uint32 {
    ((state as int * IA + IC) % 0x1_0000_0000) as uint32
  }

  /** The step is the multiply-add up to a multiple of 2^32: what unsigned
      overflow leaves of `current_random * IA + IC`. */
  lemma NextWraps(state: uint32)
    ensures (Next(state) as int - state as int * IA - IC) % 0x1_0000_0000 == 0
    ensures 0 <= Next(state) as int < 0x1_0000_0000
  {
  }

  /** `current_random & (IM - 1)`, the value `irand` scales and `frand` divides. */
  function Mask(state: uint32): (v: int)
    ensures 0 <= v < IM
  {
    ((state as bv32) & ((IM - 1) as bv32)) as int
  }

  /** The state after n steps from `seed`. */
  function StateAfter(seed: uint32, n: nat): (s: uint32) {
    if n == 0 then seed else Next(StateAfter(seed, n - 1))
  }

  /** Taking the first step and then n - 1 more is taking n steps. */
  lemma {:induction false} StateAfterFirstStep(seed: uint32, n: nat)
    requires n > 0
    ensures StateAfter(seed, n) == StateAfter(Next(seed), n - 1)
  {
    if n > 1 {
      StateAfterFirstStep(seed, n - 1);
    }
  }

  /** Steps compose: m + n steps are m steps followed by n steps. */
  lemma {:induction false} StateAfterAdd(seed: uint32, m: nat, n: nat)
    ensures StateAfter(seed, m + n) == StateAfter(StateAfter(seed, m), n)
  {
    if n > 0 {
      StateAfterAdd(seed, m, n - 1);
    }
  }

  class UniformRandomGeneratorBase {
    var currentRandom: uint32

    /** The default constructor starts from state 0. */
    constructor ()
      ensures currentRandom == 0
    {
      currentRandom := 0;
    }

    /** The seeded constructor starts from the seed. */
    constructor Seeded(seed: uint32)
      ensures currentRandom == seed
    {
      currentRandom := seed;
    }

    function CurrentValue(): (v: uint32)
      reads this
      ensures v == currentRandom
    {
      currentRandom
    }

    method Seed(seed: uint32)
      modifies this
      ensures CurrentValue() == seed
    {
      currentRandom := seed;
    }

    /** The integer part of `irand(imax)`: one step of the state and the
        masked value that the source then scales to [0, imax]. */
    method IRand(imax: uint32) returns (ival: int)
      modifies this
      ensures currentRandom == Next(old(currentRandom))
      ensures ival == Mask(currentRandom) && 0 <= ival < IM
    {
      currentRandom := ((currentRandom as int * IA + IC) % 0x1_0000_0000) as uint32;
      ival := ((currentRandom as bv32) & ((IM - 1) as bv32)) as int;
    }

    /** `irand()`: `irand` with the largest T as bound. */
    method IRandFull() returns (ival: int)
      modifies this
      ensures currentRandom == Next(old(currentRandom))
      ensures ival == Mask(currentRandom)
    {
      ival := IRand(0xFFFF_FFFF);
    }

    /** The integer part of `frand()`: the same step as `irand`, and the masked
        value that the source divides by IM. */
    method FRand() returns (ival: int)
      modifies this
      ensures currentRandom == Next(old(currentRandom))
      ensures ival == Mask(currentRandom) && 0 <= ival < IM
    {
      currentRandom := ((currentRandom as int * IA + IC) % 0x1_0000_0000) as uint32;
      ival := ((currentRandom as bv32) & ((IM - 1) as bv32)) as int;
    }
  }

  /** Two generators seeded alike, one by its constructor and one by `seed`,
      go through the same states, whichever of `irand` and `frand` advances
      each of them at each step. */
  method SameSeedSameStates(seed: uint32, imax: uint32, gUsesIRand: seq<bool>, hUsesIRand: seq<bool>)
    returns (g: UniformRandomGeneratorBase, h: UniformRandomGeneratorBase)
    requires |gUsesIRand| == |hUsesIRand|
    ensures g != h
    ensures g.CurrentValue() == h.CurrentValue() == StateAfter(seed, |gUsesIRand|)
  {
    g := new UniformRandomGeneratorBase.Seeded(seed);
    h := new UniformRandomGeneratorBase();
    h.Seed(seed);
    var i := 0;
    while i < |gUsesIRand|
      invariant 0 <= i <= |gUsesIRand|
      invariant fresh(g) && fresh(h) && g != h
      invariant g.currentRandom == h.currentRandom == StateAfter(seed, i)
    {
      Step(g, gUsesIRand[i], imax);
      Step(h, hUsesIRand[i], imax);
      i := i + 1;
    }
  }

  /** One draw from g, by `irand(imax)` or by `frand()`. */
  method Step(g: UniformRandomGeneratorBase, useIRand: bool, imax: uint32)
    modifies g
    ensures g.currentRandom == Next(old(g.currentRandom))
  {
    if useIRand {
      var _ := g.IRand(imax);
    } else {
      var _ := g.FRand();
    }
  }

  class ParkMillerRNGBase {
    var seed: int

    constructor ()
      ensures seed == 0
    {
      seed := 0;
    }

    constructor Seeded(seed: int)
      ensures this.seed == seed
    {
      this.seed := seed;
    }

    method SetSeed(seed: int)
      modifies this
      ensures CurrentValue() == seed
    {
      this.seed := seed;
    }

    function CurrentValue(): (v: int)
      reads this
      ensures v == seed
    {
      seed
    }
  }
}
