/** Handing secure buffers to the kernel before hibernation, and back after it. */
module Hibernate {
  import opened Wrappers

  /** A buffer: is it secure, imported, marked as handed over, and who does own it now? */
  datatype Buf = Buf(secured: bool, ion: bool, flagged: bool, ours: bool)

  datatype Kind = Entry | Global   // of a process, or of the device

  datatype Call = Unlock(kind: Kind, i: nat) | Lock(kind: Kind, i: nat)

  /** Buffers this code is in charge of: secure ones, of processes only those that are not imported. */
  predicate Eligible(b: Buf, kind: Kind) { b.secured && (kind == Entry ==> !b.ion) }

  predicate Takes(b: Buf, kind: Kind) { Eligible(b, kind) && !b.flagged }
  predicate Gives(b: Buf, kind: Kind) { Eligible(b, kind) && b.flagged }

  /** A buffer after its unlock was asked for: of processes the flag is set even on failure. */
  function Taken(b: Buf, kind: Kind, ok: bool): Buf {
    if Takes(b, kind) then b.(flagged := true, ours := ok || b.ours) else b
  }

  /** A buffer after its lock was asked for and the flag cleared. */
  function Given(b: Buf, kind: Kind, ok: bool): Buf {
    if Gives(b, kind) then b.(flagged := false, ours := !ok && b.ours) else b
  }

  function TakeAll(bs: seq<Buf>, kind: Kind, oks: seq<bool>): (r: seq<Buf>)
    requires |oks| == |bs|
    ensures |r| == |bs|
  {
    if bs == [] then []
    else TakeAll(bs[..|bs| - 1], kind, oks[..|bs| - 1]) + [Taken(bs[|bs| - 1], kind, oks[|bs| - 1])]
  }

  function GiveAll(bs: seq<Buf>, kind: Kind, oks: seq<bool>): (r: seq<Buf>)
    requires |oks| == |bs|
    ensures |r| == |bs|
  {
    if bs == [] then []
    else GiveAll(bs[..|bs| - 1], kind, oks[..|bs| - 1]) + [Given(bs[|bs| - 1], kind, oks[|bs| - 1])]
  }

  /** The calls that a walk over the list makes, in order: one for each buffer that is concerned. */
  function UnlockCalls(bs: seq<Buf>, kind: Kind): seq<Call> {
    if bs == [] then []
    else UnlockCalls(bs[..|bs| - 1], kind) + if Takes(bs[|bs| - 1], kind) then [Unlock(kind, |bs| - 1)] else []
  }

  function LockCalls(bs: seq<Buf>, kind: Kind): seq<Call> {
    if bs == [] then []
    else LockCalls(bs[..|bs| - 1], kind) + if Gives(bs[|bs| - 1], kind) then [Lock(kind, |bs| - 1)] else []
  }

  /** The first buffer whose unlock is asked for and fails. */
  function FirstFailure(bs: seq<Buf>, oks: seq<bool>, from: nat): (k: nat)
    requires |oks| == |bs| && from <= |bs|
    ensures from <= k <= |bs|
    ensures k < |bs| ==> Takes(bs[k], Global) && !oks[k]
    ensures forall i :: from <= i < k ==> Takes(bs[i], Global) ==> oks[i]
    decreases |bs| - from
  {
    if from == |bs| || (Takes(bs[from], Global) && !oks[from]) then from else FirstFailure(bs, oks, from + 1)
  }

  /** The first buffer whose lock is asked for and fails. */
  function FirstRefusal(bs: seq<Buf>, kind: Kind, oks: seq<bool>, from: nat): (k: nat)
    requires |oks| == |bs| && from <= |bs|
    ensures from <= k <= |bs|
    ensures k < |bs| ==> Gives(bs[k], kind) && !oks[k]
    ensures forall i :: from <= i < k ==> Gives(bs[i], kind) ==> oks[i]
    decreases |bs| - from
  {
    if from == |bs| || (Gives(bs[from], kind) && !oks[from]) then from else FirstRefusal(bs, kind, oks, from + 1)
  }

  /** A list of which the first `k` have been given back, and the calls up to a refusal there. */
  function Partly(bs: seq<Buf>, kind: Kind, oks: seq<bool>, k: nat): seq<Buf>
    requires k <= |bs| == |oks|
  {
    GiveAll(bs[..k], kind, oks[..k]) + bs[k..]
  }

  function CallsTo(bs: seq<Buf>, kind: Kind, k: nat): seq<Call>
    requires k <= |bs|
  {
    LockCalls(if k < |bs| then bs[..k + 1] else bs, kind)
  }

  /** The globals after the failure path: the ones before the failure taken, then every flag cleared. */
  function Rolled(bs: seq<Buf>, k: nat, oks: seq<bool>, locks: seq<bool>): seq<Buf>
    requires k <= |bs| == |oks| == |locks|
  {
    GiveAll(TakeAll(bs[..k], Global, oks[..k]) + bs[k..], Global, locks)
  }

  class SecureHeap {
    var entries: seq<Buf>
    var globals: seq<Buf>
    var calls: seq<Call>

    constructor (entries: seq<Buf>, globals: seq<Buf>)
      ensures this.entries == entries && this.globals == globals && calls == []
    {
      this.entries, this.globals, calls := entries, globals, [];
    }

    /** Hands buffers over, the hypervisor answering `oks` and `gOks`, and on the failure path `locks`. */
    method PtHibernate(oks: seq<bool>, gOks: seq<bool>, locks: seq<bool>) returns (success: bool)
      requires |oks| == |entries| && |gOks| == |globals| == |locks|
      modifies this
      ensures entries == TakeAll(old(entries), Entry, oks)
      ensures success == (FirstFailure(old(globals), gOks, 0) == |old(globals)|)
      ensures success ==>
        && globals == TakeAll(old(globals), Global, gOks)
        && calls == old(calls) + UnlockCalls(old(entries), Entry) + UnlockCalls(old(globals), Global)
      ensures !success ==>
        var k := FirstFailure(old(globals), gOks, 0);
        && globals == Rolled(old(globals), k, gOks, locks)
        && calls == old(calls) + UnlockCalls(old(entries), Entry) + UnlockCalls(old(globals)[..k + 1], Global)
                    + LockCalls(TakeAll(old(globals)[..k], Global, gOks[..k]) + old(globals)[k..], Global)
    {
      hide TakeAll, UnlockCalls, LockCalls, GiveAll;
      TakeEntries(oks);
      ghost var c1, was := calls, globals;
      NothingTaken(Global);
      assert was[..0] == [] && gOks[..0] == [] && c1 + [] == c1;
      var i := 0;
      while i < |globals|
        invariant i <= |globals| == |was| && entries == TakeAll(old(entries), Entry, oks)
        invariant globals[..i] == TakeAll(was[..i], Global, gOks[..i]) && globals[i..] == was[i..]
        invariant calls == c1 + UnlockCalls(was[..i], Global)
        invariant FirstFailure(was, gOks, 0) == FirstFailure(was, gOks, i)
      {
        var b := globals[i];
        Walk(globals, was, i, b);
        TakenMore(was, gOks, i, Global);
        if Takes(b, Global) {
          calls := calls + [Unlock(Global, i)];
          if !gOks[i] {
            assert globals == TakeAll(was[..i], Global, gOks[..i]) + was[i..];
            Rollback(locks);
            return false;
          }
          Walk(globals, was, i, b.(flagged := true, ours := true));
          globals := globals[i := b.(flagged := true, ours := true)];
        }
        i := i + 1;
      }
      assert was[..i] == was && gOks[..i] == gOks && globals[..i] == globals;
      success := true;
    }

    method TakeEntries(oks: seq<bool>)
      requires |oks| == |entries|
      modifies this
      ensures entries == TakeAll(old(entries), Entry, oks) && globals == old(globals)
      ensures calls == old(calls) + UnlockCalls(old(entries), Entry)
    {
      hide TakeAll, UnlockCalls;
      ghost var was := entries;
      NothingTaken(Entry);
      assert was[..0] == [] && oks[..0] == [] && calls + [] == calls;
      var i := 0;
      while i < |entries|
        invariant i <= |entries| == |was| && globals == old(globals)
        invariant entries[..i] == TakeAll(was[..i], Entry, oks[..i]) && entries[i..] == was[i..]
        invariant calls == old(calls) + UnlockCalls(was[..i], Entry)
      {
        var b := entries[i];
        Walk(entries, was, i, b);
        TakenMore(was, oks, i, Entry);
        if Takes(b, Entry) {
          calls := calls + [Unlock(Entry, i)];
          // A failure is only reported.
          Walk(entries, was, i, b.(flagged := true, ours := oks[i] || b.ours));
          entries := entries[i := b.(flagged := true, ours := oks[i] || b.ours)];
        }
        i := i + 1;
      }
      assert was[..i] == was && oks[..i] == oks && entries[..i] == entries;
    }

    /** Takes every global back, whatever the hypervisor answers. */
    method Rollback(locks: seq<bool>)
      requires |locks| == |globals|
      modifies this
      ensures globals == GiveAll(old(globals), Global, locks) && entries == old(entries)
      ensures calls == old(calls) + LockCalls(old(globals), Global)
    {
      hide GiveAll, LockCalls;
      ghost var was := globals;
      NothingGiven(Global);
      assert was[..0] == [] && locks[..0] == [] && calls + [] == calls;
      var i := 0;
      while i < |globals|
        invariant i <= |globals| == |was| && entries == old(entries)
        invariant globals[..i] == GiveAll(was[..i], Global, locks[..i]) && globals[i..] == was[i..]
        invariant calls == old(calls) + LockCalls(was[..i], Global)
      {
        var b := globals[i];
        Walk(globals, was, i, b);
        GivenMore(was, locks, i, Global);
        if Gives(b, Global) {
          calls := calls + [Lock(Global, i)];
          Walk(globals, was, i, b.(flagged := false, ours := !locks[i] && b.ours));
          globals := globals[i := b.(flagged := false, ours := !locks[i] && b.ours)];
        }
        i := i + 1;
      }
      assert was[..i] == was && locks[..i] == locks && globals[..i] == globals;
    }

    /** Gives everything back, globals first. The first refusal stops the walk where it is. */
    method PtRestore(gOks: seq<bool>, oks: seq<bool>) returns (success: bool)
      requires |gOks| == |globals| && |oks| == |entries|
      modifies this
      ensures var g, e := FirstRefusal(old(globals), Global, gOks, 0), FirstRefusal(old(entries), Entry, oks, 0);
              && globals == Partly(old(globals), Global, gOks, g)
              && success == (g == |old(globals)| && e == |old(entries)|)
              && entries == (if g < |old(globals)| then old(entries) else Partly(old(entries), Entry, oks, e))
              && calls == old(calls) + CallsTo(old(globals), Global, g)
                          + if g < |old(globals)| then [] else CallsTo(old(entries), Entry, e)
    {
      hide GiveAll, LockCalls, FirstRefusal;
      ghost var was := globals;
      NothingGiven(Global);
      assert was[..0] == [] && gOks[..0] == [] && calls + [] == calls;
      var i := 0;
      while i < |globals|
        invariant i <= |globals| == |was| && entries == old(entries)
        invariant globals[..i] == GiveAll(was[..i], Global, gOks[..i]) && globals[i..] == was[i..]
        invariant calls == old(calls) + LockCalls(was[..i], Global)
        invariant FirstRefusal(was, Global, gOks, 0) == FirstRefusal(was, Global, gOks, i)
      {
        var b := globals[i];
        Walk(globals, was, i, b);
        GivenMore(was, gOks, i, Global);
        RefusalStep(was, Global, gOks, i);
        if Gives(b, Global) {
          calls := calls + [Lock(Global, i)];
          if !gOks[i] {
            assert globals == globals[..i] + globals[i..];
            return false;
          }
          Walk(globals, was, i, b.(flagged := false, ours := false));
          globals := globals[i := b.(flagged := false, ours := false)];
        }
        i := i + 1;
      }
      RefusalEnd(was, Global, gOks);
      assert was[..i] == was && gOks[..i] == gOks && globals == globals[..i] + globals[i..];
      success := GiveEntries(oks);
    }

    method GiveEntries(oks: seq<bool>) returns (success: bool)
      requires |oks| == |entries|
      modifies this
      ensures globals == old(globals)
      ensures var e := FirstRefusal(old(entries), Entry, oks, 0);
              && success == (e == |old(entries)|) && entries == Partly(old(entries), Entry, oks, e)
              && calls == old(calls) + CallsTo(old(entries), Entry, e)
    {
      hide GiveAll, LockCalls, FirstRefusal;
      ghost var was := entries;
      NothingGiven(Entry);
      assert was[..0] == [] && oks[..0] == [] && calls + [] == calls;
      var i := 0;
      while i < |entries|
        invariant i <= |entries| == |was| && globals == old(globals)
        invariant entries[..i] == GiveAll(was[..i], Entry, oks[..i]) && entries[i..] == was[i..]
        invariant calls == old(calls) + LockCalls(was[..i], Entry)
        invariant FirstRefusal(was, Entry, oks, 0) == FirstRefusal(was, Entry, oks, i)
      {
        var b := entries[i];
        Walk(entries, was, i, b);
        GivenMore(was, oks, i, Entry);
        RefusalStep(was, Entry, oks, i);
        if Gives(b, Entry) {
          calls := calls + [Lock(Entry, i)];
          if !oks[i] {
            assert entries == entries[..i] + entries[i..];
            return false;
          }
          Walk(entries, was, i, b.(flagged := false, ours := false));
          entries := entries[i := b.(flagged := false, ours := false)];
        }
        i := i + 1;
      }
      RefusalEnd(was, Entry, oks);
      assert was[..i] == was && oks[..i] == oks && entries == entries[..i] + entries[i..];
      success := true;
    }
  }

  lemma RefusalStep(bs: seq<Buf>, kind: Kind, oks: seq<bool>, i: nat)
    requires |oks| == |bs| && i < |bs|
    ensures FirstRefusal(bs, kind, oks, i) ==
            if Gives(bs[i], kind) && !oks[i] then i else FirstRefusal(bs, kind, oks, i + 1)
  {
  }

  lemma RefusalEnd(bs: seq<Buf>, kind: Kind, oks: seq<bool>)
    requires |oks| == |bs|
    ensures FirstRefusal(bs, kind, oks, |bs|) == |bs|
  {
  }

  lemma NothingTaken(kind: Kind)
    ensures TakeAll([], kind, []) == [] && UnlockCalls([], kind) == []
  {
  }

  lemma NothingGiven(kind: Kind)
    ensures GiveAll([], kind, []) == [] && LockCalls([], kind) == []
  {
  }

  lemma TakenMore(bs: seq<Buf>, oks: seq<bool>, i: nat, kind: Kind)
    requires i < |bs| == |oks|
    ensures TakeAll(bs[..i + 1], kind, oks[..i + 1]) == TakeAll(bs[..i], kind, oks[..i]) + [Taken(bs[i], kind, oks[i])]
    ensures UnlockCalls(bs[..i + 1], kind) ==
            UnlockCalls(bs[..i], kind) + if Takes(bs[i], kind) then [Unlock(kind, i)] else []
  {
    assert bs[..i + 1][..i] == bs[..i] && oks[..i + 1][..i] == oks[..i];
  }

  lemma GivenMore(bs: seq<Buf>, oks: seq<bool>, i: nat, kind: Kind)
    requires i < |bs| == |oks|
    ensures GiveAll(bs[..i + 1], kind, oks[..i + 1]) == GiveAll(bs[..i], kind, oks[..i]) + [Given(bs[i], kind, oks[i])]
    ensures LockCalls(bs[..i + 1], kind) ==
            LockCalls(bs[..i], kind) + if Gives(bs[i], kind) then [Lock(kind, i)] else []
  {
    assert bs[..i + 1][..i] == bs[..i] && oks[..i + 1][..i] == oks[..i];
  }

  /** Nothing handed over yet. */
  predicate Fresh(bs: seq<Buf>) {
    forall b :: b in bs ==> !b.flagged && !b.ours
  }

  function AsLocks(calls: seq<Call>): seq<Call> {
    if calls == [] then [] else AsLocks(calls[..|calls| - 1]) + [Lock(calls[|calls| - 1].kind, calls[|calls| - 1].i)]
  }

  lemma AsLocksSnoc(calls: seq<Call>, c: Call)
    ensures AsLocks(calls + [c]) == AsLocks(calls) + [Lock(c.kind, c.i)]
  {
    assert (calls + [c])[..|calls|] == calls;
  }

  /** Round trip: what was fresh is as it was, after a hand-over and a return in which every lock worked,
      whatever the unlocks did; the return locks the buffers that were unlocked, each once and in the
      same order; and handing over again before the return would do nothing. */
  lemma {:induction false} RoundTrip(bs: seq<Buf>, kind: Kind, oks: seq<bool>, locks: seq<bool>, again: seq<bool>)
    requires Fresh(bs) && |oks| == |locks| == |again| == |bs|
    requires forall i :: 0 <= i < |bs| ==> Takes(bs[i], kind) ==> locks[i]
    ensures var t := TakeAll(bs, kind, oks);
            && GiveAll(t, kind, locks) == bs
            && LockCalls(t, kind) == AsLocks(UnlockCalls(bs, kind))
            && TakeAll(t, kind, again) == t && UnlockCalls(t, kind) == []
  {
    hide TakeAll, GiveAll, UnlockCalls, LockCalls, Taken, Given, Takes, Gives, AsLocks;
    if bs == [] {
      NothingTaken(kind);
      NothingGiven(kind);
      NoLocks();
    } else {
      var n := |bs| - 1;
      assert bs[n] in bs;
      assert forall b :: b in bs[..n] ==> b in bs;
      RoundTrip(bs[..n], kind, oks[..n], locks[..n], again[..n]);
      var t := TakeAll(bs[..n], kind, oks[..n]) + [Taken(bs[n], kind, oks[n])];
      TakenMore(bs, oks, n, kind);
      GivenMore(t, locks, n, kind);
      TakenMore(t, again, n, kind);
      assert bs[..n + 1] == bs && oks[..n + 1] == oks && locks[..n + 1] == locks && again[..n + 1] == again;
      assert t[..n + 1] == t && t[..n] == TakeAll(bs[..n], kind, oks[..n]) && bs == bs[..n] + [bs[n]];
      OneRoundTrip(bs[n], kind, oks[n], locks[n], again[n]);
      AsLocksSnoc(UnlockCalls(bs[..n], kind), Unlock(kind, n));
      NothingAppended(UnlockCalls(bs[..n], kind), LockCalls(t[..n], kind));
    }
  }

  lemma NoLocks()
    ensures AsLocks([]) == []
  {
  }

  lemma NothingAppended<T>(xs: seq<T>, ys: seq<T>)
    ensures xs + [] == xs && ys + [] == ys
  {
  }

  lemma OneRoundTrip(b: Buf, kind: Kind, ok: bool, lock: bool, again: bool)
    requires !b.flagged && !b.ours && (Takes(b, kind) ==> lock)
    ensures var t := Taken(b, kind, ok);
            && Given(t, kind, lock) == b && (Gives(t, kind) <==> Takes(b, kind))
            && Taken(t, kind, again) == t && !Takes(t, kind)
  {
  }

  /** Unlock is called once on each secure buffer that is not marked, lock once on each that is, neither on an imported
      one of a process, nor on any other. */
  lemma {:induction false} CallsAreExact(bs: seq<Buf>, kind: Kind, i: nat)
    ensures multiset(UnlockCalls(bs, kind))[Unlock(kind, i)] ==
            if i < |bs| && bs[i].secured && !(kind == Entry && bs[i].ion) && !bs[i].flagged then 1 else 0
    ensures multiset(LockCalls(bs, kind))[Lock(kind, i)] ==
            if i < |bs| && bs[i].secured && !(kind == Entry && bs[i].ion) && bs[i].flagged then 1 else 0
  {
    if bs != [] {
      CallsAreExact(bs[..|bs| - 1], kind, i);
    }
  }

  /** Nor is anything else marked: what a hand-over and a return leave of each buffer. */
  lemma {:induction false} BuffersAfter(bs: seq<Buf>, kind: Kind, oks: seq<bool>, i: nat)
    requires i < |bs| == |oks|
    ensures var b, ours := bs[i], bs[i].secured && !(kind == Entry && bs[i].ion);
            && TakeAll(bs, kind, oks)[i] ==
               (if ours && !b.flagged then b.(flagged := true, ours := oks[i] || b.ours) else b)
            && GiveAll(bs, kind, oks)[i] ==
               (if ours && b.flagged then b.(flagged := false, ours := !oks[i] && b.ours) else b)
    decreases |bs|
  {
    if i < |bs| - 1 { BuffersAfter(bs[..|bs| - 1], kind, oks[..|bs| - 1], i); }
  }

  /** After the failure path no secure global is marked as handed over. */
  lemma {:induction false} GivenAreClear(bs: seq<Buf>, locks: seq<bool>)
    requires |locks| == |bs|
    ensures forall b :: b in GiveAll(bs, Global, locks) ==> Eligible(b, Global) ==> !b.flagged
  {
    if bs != [] {
      GivenAreClear(bs[..|bs| - 1], locks[..|bs| - 1]);
    }
  }

  lemma FailureLeavesNoFlag(bs: seq<Buf>, k: nat, oks: seq<bool>, locks: seq<bool>)
    requires k <= |bs| == |oks| == |locks|
    ensures forall b :: b in Rolled(bs, k, oks, locks) ==> b.secured ==> !b.flagged
  {
    GivenAreClear(TakeAll(bs[..k], Global, oks[..k]) + bs[k..], locks);
  }

  /** The flags tell who owns the buffers. */
  predicate FlagsTell(bs: seq<Buf>, kind: Kind) {
    forall i :: 0 <= i < |bs| ==>
      bs[i].secured && !(kind == Entry && bs[i].ion) ==> (bs[i].flagged <==> bs[i].ours)
  }

  /** For buffers of processes the flag is set even if the unlock failed: the flags still tell who owns
      them if and only if every unlock worked. */
  lemma {:induction false} FlagsTellIff(bs: seq<Buf>, kind: Kind, oks: seq<bool>)
    requires Fresh(bs) && |oks| == |bs|
    ensures FlagsTell(TakeAll(bs, kind, oks), kind) <==> forall i :: 0 <= i < |bs| ==> Takes(bs[i], kind) ==> oks[i]
  {
    if bs != [] {
      var n := |bs| - 1;
      assert bs[n] in bs;
      assert forall b :: b in bs[..n] ==> b in bs;
      FlagsTellIff(bs[..n], kind, oks[..n]);
      var t := TakeAll(bs, kind, oks);
      assert t[..n] == TakeAll(bs[..n], kind, oks[..n]);
      assert FlagsTell(t, kind) <==>
             FlagsTell(t[..n], kind) && (Eligible(t[n], kind) ==> (t[n].flagged <==> t[n].ours));
    }
  }
}
