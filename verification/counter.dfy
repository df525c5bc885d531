/** Differences of a 32-bit hardware counter, and what their sum says about the ticks that passed. */
module CounterDelta {
  import opened Wrappers
  import opened Pm4

  const UINT_MAX := 0xFFFF_FFFF
  const WRAP := 0x1_0000_0000

  /** The difference reported for a new sample. A stored zero counts as "no sample yet". */
  function Delta(last: u32, val: u32): u32 {
    if last == 0 then 0 else if val >= last then val - last else UINT_MAX - last + val
  }

  class Counter {
    var last: u32

    constructor ()
      ensures last == 0
    {
      last := 0;
    }

    /** A read of register `reg`, which shows `val`; register 0 is no register. */
    method Sample(reg: u32, val: u32) returns (ret: u32)
      modifies this
      ensures ret == if reg == 0 then 0 else Delta(old(last), val)
      ensures last == if reg == 0 then old(last) else val
    {
      if reg == 0 { return 0; }
      ret := 0;
      if last != 0 {
        if val >= last { ret := val - last; } else { ret := UINT_MAX - last + val; }
      }
      last := val;
    }
  }

  /** Tick counts at which the counter is read: in order, and never a whole round apart. */
  predicate Readings(ts: seq<nat>) {
    forall i :: 0 < i < |ts| ==> ts[i - 1] <= ts[i] < ts[i - 1] + WRAP
  }

  function Shown(t: nat): u32 { t % WRAP }

  /** All differences reported over the readings, from a counter that has never been read. */
  function Sum(ts: seq<nat>): nat {
    if |ts| == 0 then 0
    else if |ts| == 1 then Delta(0, Shown(ts[0]))
    else Sum(ts[..|ts| - 1]) + Delta(Shown(ts[|ts| - 2]), Shown(ts[|ts| - 1]))
  }

  /** The ticks between a reading that showed zero and the next one. */
  function Lost(ts: seq<nat>): nat
    requires Readings(ts)
  {
    if |ts| < 2 then 0
    else
      var n := |ts| - 1;
      Lost(ts[..n]) + if Shown(ts[n - 1]) == 0 then ts[n] - ts[n - 1] else 0
  }

  /** One difference: the ticks that passed, less one for a wrap, or nothing after a zero. */
  lemma DeltaIs(s: nat, t: nat)
    requires s <= t < s + WRAP
    ensures Delta(Shown(s), Shown(t)) + (t / WRAP - s / WRAP) + (if Shown(s) == 0 then t - s else 0) == t - s
  {
    var q, r := s / WRAP, s % WRAP;
    assert s == q * WRAP + r;
    if r + (t - s) < WRAP {
      assert t == q * WRAP + (r + (t - s));
      assert t / WRAP == q && t % WRAP == r + (t - s);
    } else {
      assert t == (q + 1) * WRAP + (r + (t - s) - WRAP);
      assert t / WRAP == q + 1 && t % WRAP == r + (t - s) - WRAP;
    }
  }

  /** The differences add up to the ticks since the first reading, less one for every wrap of the counter
      and less what passed after readings of zero; so they are exact if and only if neither occurred. */
  lemma {:induction false} SumAccounts(ts: seq<nat>)
    requires Readings(ts) && ts != []
    ensures var n := |ts| - 1;
            && ts[0] <= ts[n] && ts[0] / WRAP <= ts[n] / WRAP
            && Sum(ts) + (ts[n] / WRAP - ts[0] / WRAP) + Lost(ts) == ts[n] - ts[0]
            && (Sum(ts) == ts[n] - ts[0] <==> ts[n] / WRAP == ts[0] / WRAP && Lost(ts) == 0)
  {
    if |ts| > 1 {
      var n := |ts| - 1;
      assert Readings(ts[..n]);
      SumAccounts(ts[..n]);
      DeltaIs(ts[n - 1], ts[n]);
    }
  }

  /** Without readings of zero nothing is lost but the wraps. */
  lemma {:induction false} NothingLost(ts: seq<nat>)
    requires Readings(ts) && forall i :: 0 <= i < |ts| ==> Shown(ts[i]) != 0
    ensures Lost(ts) == 0
  {
    if |ts| > 1 {
      NothingLost(ts[..|ts| - 1]);
    }
  }
}
