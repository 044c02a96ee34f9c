/** Masking a word with low ones takes its value modulo a power of two. */
module Masks {
  import opened Arithmetic
  import opened Words

  predicate LowOnes(m: bv64) { m & Half(m) == Half(m) }

  function MaskedBy(a: bv64, m: bv64): bv64 { a & m }

  lemma LowOnesHalve(m: bv64)
    requires LowOnes(m) && m != 0
    ensures LowOnes(Half(m)) && Odd(m)
  {
  }

  lemma MaskedHalves(a: bv64, m: bv64)
    requires Odd(m)
    ensures Odd(MaskedBy(a, m)) == Odd(a) && Half(MaskedBy(a, m)) == MaskedBy(Half(a), Half(m))
  {
  }

  lemma NothingMasked(a: bv64)
    ensures U64(MaskedBy(a, 0)) == 0 && U64(0) == 0
  {
  }

  function Modulo(x: int, p: int): int
    requires p > 0
  {
    x % p
  }

  lemma DoubledModulo(x: int, p: int, o: int)
    requires p > 0 && (o == 0 || o == 1)
    ensures Modulo(2 * x + o, 2 * p) == 2 * Modulo(x, p) + o
  {
    var q, r := x / p, x % p;
    DivMod(x, p);
    assert 2 * x + o == q * (2 * p) + (2 * r + o);
    UniqueQuotient(2 * x + o, 2 * p, q, 2 * r + o);
  }

  lemma ModuloStep(a: int, m: int, r: int, ha: int, hm: int, hr: int, o: int)
    requires hm >= 0 && (o == 0 || o == 1)
    requires a == 2 * ha + o && m == 2 * hm + 1 && r == 2 * hr + o && hr == Modulo(ha, hm + 1)
    ensures r == Modulo(a, m + 1)
  {
    DoubledModulo(ha, hm + 1, o);
    assert m + 1 == 2 * (hm + 1);
    hide Modulo;
  }

  /** Masking with the low ones m takes the value modulo m + 1. */
  ghost predicate MasksTo(a: bv64, m: bv64) {
    U64(m) >= 0 && U64(MaskedBy(a, m)) == Modulo(U64(a), U64(m) + 1)
  }

  lemma ZeroMasksTo(a: bv64)
    ensures MasksTo(a, 0)
  {
    NothingMasked(a);
    hide U64, MaskedBy;
  }

  lemma MasksToStep(a: bv64, m: bv64)
    requires LowOnes(m) && m != 0 && MasksTo(Half(a), Half(m))
    ensures MasksTo(a, m)
  {
    hide U64, Half, Odd, MaskedBy, LowOnes, Modulo;
    LowOnesHalve(m);
    MaskedHalves(a, m);
    PartsValue(a);
    PartsValue(m);
    PartsValue(MaskedBy(a, m));
    ModuloStep(U64(a), U64(m), U64(MaskedBy(a, m)), U64(Half(a)), U64(Half(m)), U64(Half(MaskedBy(a, m))),
               if Odd(a) then 1 else 0);
  }

  lemma {:induction false} MaskedValue(a: bv64, m: bv64)
    requires LowOnes(m)
    ensures MasksTo(a, m)
    decreases m
  {
    if m == 0 {
      ZeroMasksTo(a);
    } else {
      hide MasksTo, LowOnes, Half, Odd;
      LowOnesHalve(m);
      HalfIsSmaller(m);
      MaskedValue(Half(a), Half(m));
      MasksToStep(a, m);
    }
  }
}
