/** The AHB timeout setting that goes with a NOC timeout. */
module AhbTimeout {
  import opened Pm4

  const HZ_PER_MHZ := 1_000_000
  const MIN_USEC := 1000
  const TWO32 := 0x1_0000_0000
  const TWO64 := 0x1_0000_0000_0000_0000

  function Pow2(k: nat): (p: nat)
    ensures p > 0
  {
    if k == 0 then 1 else 2 * Pow2(k - 1)
  }

  /** The position of the highest bit. */
  function Log2(n: nat): (k: nat)
    requires n > 0
    ensures Pow2(k) <= n < Pow2(k + 1)
  {
    if n == 1 then 0 else 1 + Log2(n / 2)
  }

  /** The kernel's ilog2: -1 for zero. */
  function Ilog2(n: u64): int { if n == 0 then -1 else Log2(n) }

  /** One bit and no other. */
  predicate IsPowerOf2(n: nat) {
    n == 1 || (n > 1 && n % 2 == 0 && IsPowerOf2(n / 2))
  }

  lemma {:induction false} PowerOf2Iff(n: nat)
    requires n > 0
    ensures IsPowerOf2(n) <==> n == Pow2(Log2(n))
  {
    if n > 1 { PowerOf2Iff(n / 2); }
  }

  /** 1 << t as a signed 32-bit number, extended to 64 bits: bit 31 is the sign. */
  function Shifted(t: nat): u64
    requires t <= 31
  {
    if t == 31 then TWO64 - 0x8000_0000 else Pow2(t) % TWO64
  }

  /** Exact powers of two are taken down by one cycle. */
  function Reduced(product: u64): u64 { if IsPowerOf2(product) then product - 1 else product }

  /** The setting for a clock in MHz and a timeout in cycles; 0 if it does not fit the field or is low. */
  function Setting(mhz: nat, product: u64): u32 {
    var t := Ilog2(Reduced(product)) % TWO32;
    if t > 31 || (MIN_USEC * mhz) % TWO64 > Shifted(t) then 0 else (t - 1) % TWO32
  }

  /** The setting for a hub clock in Hz and a NOC timeout in microseconds; 0 for none. */
  function Timeout(hubHz: u64, us: u32): u32 {
    if us == 0 then 0
    else
      var mhz := hubHz / HZ_PER_MHZ;
      Setting(mhz, (mhz * us) % TWO64)
  }

  lemma {:induction false} Pow2Monotone(j: nat, k: nat)
    requires j <= k
    ensures Pow2(j) <= Pow2(k) && (j < k ==> 2 * Pow2(j) <= Pow2(k))
    decreases k
  {
    if j < k { Pow2Monotone(j, k - 1); }
  }

  lemma Pow2Values()
    ensures Pow2(5) == 32 && Pow2(9) == 512 && Pow2(10) == 1024 && Pow2(31) == 0x8000_0000 && Pow2(32) == TWO32
  {
    assert Pow2(5) == 32;
    assert Pow2(10) == 1024;
    assert Pow2(15) == 0x8000;
    assert Pow2(20) == 0x10_0000;
    assert Pow2(25) == 0x200_0000;
    assert Pow2(30) == 0x4000_0000;
  }

  /** Below its own product, the highest bit of the reduced product spans exactly the power of two that
      is next below the product. */
  lemma ReducedSpans(product: u64)
    requires product > 1
    ensures var t := Log2(Reduced(product)); Pow2(t) < product <= Pow2(t + 1)
  {
    PowerOf2Iff(product);
    if IsPowerOf2(product) {
      var k := Log2(product);
      assert k > 0 && product == 2 * Pow2(k - 1);
      BetweenPowers(product - 1, k - 1);
    }
  }

  lemma BetweenPowers(n: nat, k: nat)
    requires n > 0 && Pow2(k) <= n < Pow2(k + 1)
    ensures Log2(n) == k
  {
    if Log2(n) < k { Pow2Monotone(Log2(n) + 1, k); }
    if k < Log2(n) { Pow2Monotone(k + 1, Log2(n)); }
  }

  lemma Log2Below64(n: u64)
    requires n > 0
    ensures Log2(n) < 64
  {
    Pow2Values();
    if Log2(n) >= 64 {
      assert Pow2(64) == TWO64 by { Pow2Of64(); }
      Pow2Monotone(64, Log2(n));
    }
  }

  lemma Pow2Of64()
    ensures Pow2(64) == TWO64
  {
    Pow2Values();
    assert Pow2(37) == TWO32 * 0x20;
    assert Pow2(42) == TWO32 * 0x400;
    assert Pow2(47) == TWO32 * 0x8000;
    assert Pow2(52) == TWO32 * 0x10_0000;
    assert Pow2(57) == TWO32 * 0x200_0000;
    assert Pow2(62) == TWO32 * 0x4000_0000;
  }

  lemma SettingIsSafe(mhz: nat, product: u64)
    requires 1 <= mhz < TWO64 / MIN_USEC && Setting(mhz, product) != 0
    ensures var v := Setting(mhz, product);
            && 9 <= v <= 30 && Pow2(v + 1) < product <= Pow2(v + 2)
            && (MIN_USEC * mhz <= Pow2(v + 1) <==> MIN_USEC * mhz <= 0x8000_0000 || product <= 0x8000_0000)
  {
    Pow2Values();
    NoLow(product);
    hide Pow2, Log2, IsPowerOf2, Reduced;
    ReducedSpans(product);
    Log2Below64(Reduced(product));
    var t := Log2(Reduced(product));
    if t < 10 { Pow2Monotone(t, 9); }
    if t < 31 { Pow2Monotone(t + 1, 31); }
  }

  lemma NoLow(product: u64)
    ensures product <= 1 ==> Reduced(product) == 0
    ensures product > 1 ==> Reduced(product) > 0
  {
  }

  lemma SameSpan(j: nat, k: nat, n: nat)
    requires Pow2(j) < n <= Pow2(j + 1) && Pow2(k) < n <= Pow2(k + 1)
    ensures j == k
  {
    if j < k { Pow2Monotone(j + 1, k); }
    if k < j { Pow2Monotone(k + 1, j); }
  }

  lemma SettingIff(mhz: nat, product: u64, v: nat)
    requires MIN_USEC * mhz < TWO64 - 0x8000_0000 && (mhz == 0 ==> product == 0) && v > 0
    ensures Setting(mhz, product) == v <==>
            v <= 30 && Pow2(v + 1) < product <= Pow2(v + 2) && (v == 30 || MIN_USEC * mhz <= Pow2(v + 1))
  {
    hide Pow2, Log2, IsPowerOf2, Reduced, Setting;
    if product <= 1 {
      NothingToSpan(mhz, product, v);
    } else {
      ReducedSpans(product);
      SettingByBit(mhz, product);
      var t := Log2(Reduced(product));
      if Pow2(v + 1) < product <= Pow2(v + 2) { SameSpan(t, v + 1, product); }
    }
  }

  lemma NothingToSpan(mhz: nat, product: u64, v: nat)
    requires product <= 1
    ensures Setting(mhz, product) == 0 && product <= Pow2(v + 1)
  {
    NoLow(product);
  }

  /** The setting by the highest bit of the reduced product. */
  lemma SettingByBit(mhz: nat, product: u64)
    requires 1 <= mhz && MIN_USEC * mhz < TWO64 - 0x8000_0000 && product > 1 && Reduced(product) > 0
    ensures var t := Log2(Reduced(product));
            Setting(mhz, product) == if 1 <= t <= 31 && (t == 31 || MIN_USEC * mhz <= Pow2(t)) then t - 1 else 0
  {
    hide Pow2, Log2, IsPowerOf2, Reduced;
    var t := Log2(Reduced(product));
    Log2Below64(Reduced(product));
    Mod64(MIN_USEC * mhz);
    if t < 31 { ShiftedBelow(t); }
  }

  lemma Mod64(a: nat)
    requires a < TWO64
    ensures a % TWO64 == a
  {
  }

  lemma ShiftedBelow(t: nat)
    requires t < 31
    ensures Shifted(t) == Pow2(t) && (t == 0 ==> Pow2(t) == 1)
  {
    Pow2Values();
    Pow2Monotone(t, 31);
  }

  /** For every clock and every NOC timeout: the setting is v exactly when 2^(v+1) is the power of two next below
      the NOC's cycles and, unless v is 30, no less than the cycles of 1000 microseconds. */
  lemma TimeoutIff(hubHz: u64, us: u32, v: nat)
    requires v > 0
    ensures var mhz := hubHz / HZ_PER_MHZ;
            var cycles := (mhz * us) % TWO64;
            Timeout(hubHz, us) == v <==>
            v <= 30 && Pow2(v + 1) < cycles <= Pow2(v + 2) && (v == 30 || MIN_USEC * mhz <= Pow2(v + 1))
  {
    hide Setting, Pow2;
    var mhz := hubHz / HZ_PER_MHZ;
    SettingIff(mhz, (mhz * us) % TWO64, v);
  }

  lemma TenAtLeast(t: nat, mhz: nat)
    requires MIN_USEC * mhz <= Pow2(t) && mhz >= 1
    ensures t >= 10
  {
    Pow2Values();
    if t < 10 { Pow2Monotone(t, 9); }
  }

  lemma InRange64(cycles: nat, t: nat)
    requires cycles <= Pow2(t + 1) && t <= 30
    ensures cycles % TWO64 == cycles
  {
    Pow2Values();
    Pow2Monotone(t + 1, 31);
  }

  /** In particular nothing in range is turned down: a timeout whose cycles span a power of two of up to 31 bits
      that leaves the minimum is always set, and to that power. */
  lemma InRangeIsSet(hubHz: u64, us: u32, t: nat)
    requires var mhz := hubHz / HZ_PER_MHZ; MIN_USEC * mhz <= Pow2(t) < mhz * us <= Pow2(t + 1)
    requires hubHz >= HZ_PER_MHZ && t <= 30
    ensures Timeout(hubHz, us) == t - 1 >= 9
  {
    hide Timeout, Pow2;
    var mhz := hubHz / HZ_PER_MHZ;
    TenAtLeast(t, mhz);
    InRange64(mhz * us, t);
    TimeoutIff(hubHz, us, t - 1);
  }

  /** The hub clock of 200 MHz with its NOC timeout of 6800 microseconds. */
  lemma UsualTimeout()
    ensures Timeout(200_000_000, 6800) == 19
  {
    Pow2Values();
    assert Pow2(20) == 0x10_0000;
    assert Pow2(21) == 0x20_0000;
    InRangeIsSet(200_000_000, 6800, 20);
  }

  /** An accepted setting v is the largest that times out before the NOC, exact powers of two included;
      it is at least 9. That it also leaves 1000 microseconds holds unless the shift reached the sign
      bit: exactly when they are no more than 2^31 cycles, or the NOC's are. */
  lemma LargestSafe(hubHz: u64, us: u32)
    requires hubHz >= HZ_PER_MHZ && (hubHz / HZ_PER_MHZ) * us < TWO64
    requires Timeout(hubHz, us) != 0
    ensures var v, mhz := Timeout(hubHz, us), hubHz / HZ_PER_MHZ;
            && 9 <= v <= 30 && Pow2(v + 1) < mhz * us <= Pow2(v + 2)
            && (MIN_USEC * mhz <= Pow2(v + 1) <==> MIN_USEC * mhz <= 0x8000_0000 || mhz * us <= 0x8000_0000)
  {
    hide Setting, Pow2;
    SettingIsSafe(hubHz / HZ_PER_MHZ, (hubHz / HZ_PER_MHZ) * us);
  }

  /** As long as the minimum is no more than 2^31 cycles, up to a hub clock of 2147 GHz, it always holds; the
      clocks of chips are 150 and 200 MHz. */
  lemma MinimumHolds(hubHz: u64, us: u32)
    requires HZ_PER_MHZ <= hubHz && MIN_USEC * (hubHz / HZ_PER_MHZ) <= 0x8000_0000 && Timeout(hubHz, us) != 0
    ensures var v, mhz := Timeout(hubHz, us), hubHz / HZ_PER_MHZ;
            9 <= v <= 30 && MIN_USEC * mhz <= Pow2(v + 1) < mhz * us <= Pow2(v + 2)
  {
    hide Pow2, Setting;
    ProductFits(hubHz / HZ_PER_MHZ, us);
    LargestSafe(hubHz, us);
  }

  lemma ProductFits(mhz: nat, us: u32)
    requires MIN_USEC * mhz <= 0x8000_0000
    ensures mhz * us < TWO64
  {
    assert mhz * us <= 0x8000_0000 * us;
  }

  /** Beyond that, for every clock whose cycles in a microsecond fit 31 bits, some timeout gets the setting 30,
      which stands for 2^31 cycles and less than the minimum. */
  lemma SignBitAccepts(hubHz: u64) returns (us: u32)
    requires 0x8000_0000 < MIN_USEC * (hubHz / HZ_PER_MHZ) && hubHz / HZ_PER_MHZ < 0x8000_0000
    ensures Timeout(hubHz, us) == 30 && Pow2(31) < MIN_USEC * (hubHz / HZ_PER_MHZ)
  {
    hide Pow2, Setting;
    Pow2Values();
    var mhz := hubHz / HZ_PER_MHZ;
    us := 0x8000_0000 / mhz + 1;
    Multiple(mhz, 0x8000_0000);
    TopSetting(mhz, mhz * us);
  }

  /** The first multiple above a bound that is no less than the step. */
  lemma Multiple(step: nat, bound: nat)
    requires 0 < step <= bound
    ensures bound < step * (bound / step + 1) <= bound + step
  {
  }

  /** Bit 31 makes the sign-extended bound larger than every minimum. */
  lemma TopSetting(mhz: nat, product: u64)
    requires mhz < 0x8000_0000 < product < TWO32
    ensures Setting(mhz, product) == 30
  {
    hide Pow2, Log2, IsPowerOf2;
    Pow2Values();
    BetweenPowers(product, 31);
    BetweenPowers(Reduced(product), 31);
  }
}
